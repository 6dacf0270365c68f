/**
 * The network, line and tram data model of database.py.
 *
 * Stops and lines live in one arena, TramNetwork, and refer to each other by
 * index: a stop's connections and a line's itinerary hold indices into the
 * network's stop list, and a tram is a record inside its line's roster (the
 * line it belongs to is the line that holds it).  Every method of the Python
 * Tram class that updates the tram's fields is a transition from one tram
 * record to the next.
 */
module Database {
  import opened Wrappers

  /** InvalidTimeError and InvalidIntervalError, raised by TramLine(...). */
  datatype LineError = InvalidTime | InvalidInterval

  /** InvalidLineNumberError, raised by Tram(...). */
  datatype TramError = InvalidLineNumber

  /** One (other stop, travel time in minutes) pair of a stop's connection list. */
  datatype Connection = Connection(stop: nat, distance: int)

  datatype TramStop = TramStop(id: string, name: string, x: int, y: int, connected: seq<Connection>)

  /**
   * A tram.  `cursor` is _last_tram_stop_number, `offset` is _tram_interval,
   * `move` is _move, and `lastStop` is _last_tram_stop, which holds the
   * integer 0 (equal to no stop) until the tram first reaches a stop.
   */
  datatype Tram = Tram(
    number: int,
    x: int,
    y: int,
    cursor: nat,
    lastStop: Option<nat>,
    activated: bool,
    offset: int,
    itinerary: seq<nat>,
    move: bool)

  /**
   * A line: its itinerary of stop indices, its first departure and interval,
   * its roster of trams (each entry's sequence number is the tram's own) and
   * _moving_tram, the roster indices of the trams placed on the map.
   */
  datatype TramLine = TramLine(
    name: string,
    itinerary: seq<nat>,
    hoursStart: int,
    minutesStart: int,
    interval: int,
    roster: seq<Tram>,
    movingTrams: seq<nat>)

  /** The sequence read backwards, Python's s[::-1]. */
  function Reversed<T>(s: seq<T>): (r: seq<T>)
    ensures |r| == |s|
    ensures forall i :: 0 <= i < |s| ==> r[i] == s[|s| - 1 - i]
  {
    if |s| == 0 then [] else [s[|s| - 1]] + Reversed(s[..|s| - 1])
  }

  lemma ReversedTwice<T>(s: seq<T>)
    ensures Reversed(Reversed(s)) == s
  {
    assert forall i :: 0 <= i < |s| ==> Reversed(Reversed(s))[i] == s[i];
  }

  // ---------------------------------------------------------------------------
  // Lines

  /** The three range checks that TramLine's constructor runs. */
  predicate ValidTimetable(line: TramLine)
  {
    0 <= line.hoursStart <= 23 && 0 <= line.minutesStart <= 59 && line.interval > 0
  }

  /**
   * TramLine(name, itinerary, hours_start, minutes_start, interval): the
   * hour is checked first, then the minute, then the interval.
   */
  function NewTramLine(name: string, itinerary: seq<nat>, hoursStart: int, minutesStart: int, interval: int)
    : (r: Result<TramLine, LineError>)
    ensures r == Err(InvalidTime) <==> !(0 <= hoursStart <= 23 && 0 <= minutesStart <= 59)
    ensures r == Err(InvalidInterval) <==> 0 <= hoursStart <= 23 && 0 <= minutesStart <= 59 && interval <= 0
    ensures r.Ok? ==> ValidTimetable(r.value) && r.value.roster == [] && r.value.movingTrams == []
    ensures r.Ok? ==> r.value.name == name && r.value.itinerary == itinerary
                      && r.value.hoursStart == hoursStart && r.value.minutesStart == minutesStart
                      && r.value.interval == interval
  {
    if hoursStart < 0 || hoursStart > 23 then Err(InvalidTime)
    else if minutesStart < 0 || minutesStart > 59 then Err(InvalidTime)
    else if interval <= 0 then Err(InvalidInterval)
    else Ok(TramLine(name, itinerary, hoursStart, minutesStart, interval, [], []))
  }

  /** The line's first departure as minutes after midnight. */
  function BaseMinutes(line: TramLine): int
  {
    line.minutesStart + line.hoursStart * 60
  }

  // ---------------------------------------------------------------------------
  // Trams

  /** Tram.get_start_time: the line's base minutes plus the tram's offset. */
  function StartTime(line: TramLine, t: Tram): int
  {
    BaseMinutes(line) + t.offset
  }

  /** The tram's direction of travel: even sequence numbers run the line backwards. */
  function Directed(itinerary: seq<nat>, number: int): seq<nat>
  {
    if number % 2 == 0 then Reversed(itinerary) else itinerary
  }

  /** The record a valid Tram(line, number, x, y) starts as. */
  function FreshTram(line: TramLine, number: int, x: int, y: int): Tram
  {
    Tram(number, x, y, 0, None, false, (number - 1) * line.interval, [], false)
  }

  /**
   * Tram(line, number, x, y): the line as it is after the constructor, which
   * rejects a sequence number below 1 before it registers the tram.
   */
  function NewTram(line: TramLine, number: int, x: int, y: int): (r: Result<TramLine, TramError>)
    ensures r.Err? <==> number <= 0
    ensures r.Err? ==> r.error == InvalidLineNumber
    ensures r.Ok? ==>
      && r.value == line.(roster := r.value.roster)
      && |r.value.roster| == |line.roster| + 1 && r.value.roster[..|line.roster|] == line.roster
    ensures r.Ok? ==>
      var t := r.value.roster[|r.value.roster| - 1];
      && t.number == number && t.x == x && t.y == y && t.itinerary == []
      && t.cursor == 0 && !t.activated && !t.move && t.lastStop == None
      && StartTime(r.value, t) == BaseMinutes(line) + (number - 1) * line.interval
  {
    if number <= 0 then Err(InvalidLineNumber)
    else Ok(line.(roster := line.roster + [FreshTram(line, number, x, y)]))
  }

  /**
   * Tram.restart_start_time: the offset drops to 0, so the tram starts at the
   * line's base minutes again, and the direction is chosen by parity.
   */
  function RestartStartTime(line: TramLine, t: Tram): (r: Tram)
    ensures StartTime(line, r) == BaseMinutes(line)
    ensures r.itinerary == if t.number % 2 == 0 then Reversed(line.itinerary) else line.itinerary
    ensures r == t.(offset := r.offset, itinerary := r.itinerary)
  {
    t.(offset := 0, itinerary := Directed(line.itinerary, t.number))
  }

  /** Tram.set_itinerary: the same choice of direction, offset untouched. */
  function SetItinerary(t: Tram, itinerary: seq<nat>): (r: Tram)
    ensures r.itinerary == if t.number % 2 == 0 then Reversed(itinerary) else itinerary
    ensures r == t.(itinerary := r.itinerary)
  {
    t.(itinerary := Directed(itinerary, t.number))
  }

  /**
   * Tram.increase_tram_interval: the next start time is one full roster
   * cycle (fleet size times interval) later; nothing else changes.
   */
  function IncreaseTramInterval(line: TramLine, t: Tram): (r: Tram)
    ensures StartTime(line, r) == StartTime(line, t) + |line.roster| * line.interval
    ensures r == t.(offset := r.offset)
  {
    t.(offset := t.offset + |line.roster| * line.interval)
  }

  /** Tram.increase_last_tram_stop_number. */
  function IncreaseLastTramStopNumber(t: Tram): (r: Tram)
    ensures r.cursor == t.cursor + 1
    ensures r == t.(cursor := r.cursor)
  {
    t.(cursor := t.cursor + 1)
  }

  /** set_itinerary applied to the line's own itinerary agrees with restart_start_time. */
  lemma SetItineraryAgreesWithRestart(line: TramLine, t: Tram)
    ensures SetItinerary(t, line.itinerary).itinerary == RestartStartTime(line, t).itinerary
    ensures SetItinerary(t, line.itinerary).offset == t.offset
  {
  }

  // ---------------------------------------------------------------------------
  // Stops and connections

  /**
   * The distance of the first connection in the list whose stop is `b`, as
   * TramNetwork.get_distance scans it; None when no entry matches.
   */
  function Distance(connected: seq<Connection>, b: nat): (r: Option<int>)
    ensures r.None? <==> forall i :: 0 <= i < |connected| ==> connected[i].stop != b
    ensures r.Some? ==> exists i :: 0 <= i < |connected| && connected[i] == Connection(b, r.value)
                                     && forall j :: 0 <= j < i ==> connected[j].stop != b
  {
    if |connected| == 0 then None
    else if connected[0].stop == b then Some(connected[0].distance)
    else
      var r := Distance(connected[1..], b);
      assert forall i :: 1 <= i < |connected| ==> connected[i] == connected[1..][i - 1];
      r
  }

  /** Appending to a connection list never changes an existing answer. */
  lemma {:induction false} DistanceAppend(connected: seq<Connection>, c: Connection, b: nat)
    ensures Distance(connected + [c], b) ==
      if Distance(connected, b).Some? then Distance(connected, b)
      else if c.stop == b then Some(c.distance)
      else None
  {
    if |connected| > 0 {
      assert (connected + [c])[1..] == connected[1..] + [c];
      DistanceAppend(connected[1..], c, b);
    }
  }

  /** Stop `s` has `b` in its connection list. */
  predicate Linked(s: TramStop, b: nat)
  {
    Distance(s.connected, b).Some?
  }

  /** Every connection is recorded on both of its stops. */
  predicate Symmetric(stops: seq<TramStop>)
  {
    forall a, b :: 0 <= a < |stops| && 0 <= b < |stops| ==> (Linked(stops[a], b) <==> Linked(stops[b], a))
  }

  /** Adds `c` to the end of stop `a`'s connection list. */
  function AppendConnection(stops: seq<TramStop>, a: nat, c: Connection): seq<TramStop>
    requires a < |stops|
  {
    stops[a := stops[a].(connected := stops[a].connected + [c])]
  }

  /**
   * TramStop.add_connected_stop: (b, d) goes to the end of a's list, then
   * (a, d) to the end of b's list; no other stop changes.
   */
  function Connect(stops: seq<TramStop>, a: nat, b: nat, d: int): (r: seq<TramStop>)
    requires a < |stops| && b < |stops|
    ensures |r| == |stops|
    ensures a != b ==> r[a] == stops[a].(connected := stops[a].connected + [Connection(b, d)])
    ensures a != b ==> r[b] == stops[b].(connected := stops[b].connected + [Connection(a, d)])
    ensures a == b ==> r[a] == stops[a].(connected := stops[a].connected + [Connection(b, d), Connection(a, d)])
    ensures forall i :: 0 <= i < |stops| && i != a && i != b ==> r[i] == stops[i]
  {
    var s := AppendConnection(stops, a, Connection(b, d));
    AppendConnection(s, b, Connection(a, d))
  }

  /**
   * After connecting two unconnected stops, the distance reads `d` both ways;
   * a stop connected to itself finds the first of its two new entries.
   */
  lemma ConnectFreshDistance(stops: seq<TramStop>, a: nat, b: nat, d: int)
    requires a < |stops| && b < |stops|
    requires !Linked(stops[a], b) && !Linked(stops[b], a)
    ensures Distance(Connect(stops, a, b, d)[a].connected, b) == Some(d)
    ensures Distance(Connect(stops, a, b, d)[b].connected, a) == Some(d)
  {
    if a == b {
      var c := stops[a].connected;
      DistanceAppend(c, Connection(b, d), b);
      DistanceAppend(c + [Connection(b, d)], Connection(a, d), b);
      assert c + [Connection(b, d), Connection(a, d)] == c + [Connection(b, d)] + [Connection(a, d)];
    } else {
      DistanceAppend(stops[a].connected, Connection(b, d), b);
      DistanceAppend(stops[b].connected, Connection(a, d), a);
    }
  }

  /** add_connected_stop keeps every connection recorded on both sides. */
  lemma ConnectKeepsSymmetric(stops: seq<TramStop>, a: nat, b: nat, d: int)
    requires Symmetric(stops) && a < |stops| && b < |stops|
    ensures Symmetric(Connect(stops, a, b, d))
  {
    var r := Connect(stops, a, b, d);
    forall p, q | 0 <= p < |r| && 0 <= q < |r|
      ensures Linked(r[p], q) <==> Linked(r[q], p)
    {
      LinkedAfterConnect(stops, a, b, d, p, q);
      LinkedAfterConnect(stops, a, b, d, q, p);
    }
  }

  /** A stop is linked after Connect exactly when it was before or it is one end of the new pair. */
  lemma LinkedAfterConnect(stops: seq<TramStop>, a: nat, b: nat, d: int, p: nat, q: nat)
    requires a < |stops| && b < |stops| && p < |stops|
    ensures Linked(Connect(stops, a, b, d)[p], q) <==>
      Linked(stops[p], q) || (p == a && q == b) || (p == b && q == a)
  {
    var cs := stops[p].connected;
    if a == b && p == a {
      DistanceAppend(cs, Connection(b, d), q);
      DistanceAppend(cs + [Connection(b, d)], Connection(a, d), q);
      assert cs + [Connection(b, d), Connection(a, d)] == cs + [Connection(b, d)] + [Connection(a, d)];
    } else if p == a {
      DistanceAppend(cs, Connection(b, d), q);
    } else if p == b {
      DistanceAppend(cs, Connection(a, d), q);
    }
  }

  // ---------------------------------------------------------------------------
  // The arena

  /** Every index in `s` names one of `n` stops. */
  predicate StopsIn(s: seq<nat>, n: nat)
  {
    forall i :: 0 <= i < |s| ==> s[i] < n
  }

  /**
   * What the scheduling engine relies on in a line: a non-empty itinerary of
   * known stops, trams whose itineraries name known stops, and moving entries
   * that name roster entries.
   */
  predicate LineWellFormed(line: TramLine, n: nat)
  {
    && |line.itinerary| > 0
    && StopsIn(line.itinerary, n)
    && (forall k :: 0 <= k < |line.roster| ==> StopsIn(line.roster[k].itinerary, n))
    && (forall j :: 0 <= j < |line.movingTrams| ==> line.movingTrams[j] < |line.roster|)
  }

  predicate WellFormed(stops: seq<TramStop>, lines: seq<TramLine>)
  {
    forall i :: 0 <= i < |lines| ==> LineWellFormed(lines[i], |stops|)
  }

  lemma DirectedStopsIn(itinerary: seq<nat>, number: int, n: nat)
    requires StopsIn(itinerary, n)
    ensures StopsIn(Directed(itinerary, number), n) && |Directed(itinerary, number)| == |itinerary|
  {
  }

  /** TramNetwork: the stops with their connections, and the lines added so far. */
  class TramNetwork {
    var stops: seq<TramStop>
    var lines: seq<TramLine>

    constructor (stops: seq<TramStop>, lines: seq<TramLine>)
      ensures this.stops == stops && this.lines == lines
    {
      this.stops := stops;
      this.lines := lines;
    }

    /** TramNetwork.add_line. */
    method AddLine(line: TramLine)
      modifies this
      ensures lines == old(lines) + [line]
      ensures stops == old(stops)
    {
      lines := lines + [line];
    }

    /** TramNetwork.get_distance: a scan of a's connections that returns at the first match. */
    method GetDistance(a: nat, b: nat) returns (d: Option<int>)
      requires a < |stops|
      ensures d == Distance(stops[a].connected, b)
      ensures d.Some? <==> Linked(stops[a], b)
    {
      var connected := stops[a].connected;
      var i := 0;
      while i < |connected|
        invariant 0 <= i <= |connected|
        invariant Distance(connected[i..], b) == Distance(connected, b)
      {
        if connected[i].stop == b {
          return Some(connected[i].distance);
        }
        assert connected[i..][1..] == connected[i + 1..];
        i := i + 1;
      }
      return None;
    }

    /** TramStop.add_connected_stop, called on stop `a` with `b` and `distance`. */
    method AddConnectedStop(a: nat, b: nat, distance: int)
      requires a < |stops| && b < |stops|
      modifies this
      ensures stops == Connect(old(stops), a, b, distance)
      ensures lines == old(lines)
    {
      stops := AppendConnection(stops, a, Connection(b, distance));
      stops := AppendConnection(stops, b, Connection(a, distance));
    }
  }
}
