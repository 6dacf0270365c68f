/**
 * network_setup after the files are read: the stops go into a fresh
 * network, the connections are added to them, and every line gets five
 * trams, numbered 1 to 5 and standing at (0, 0), before it is added.
 */
module Setup {
  import opened Wrappers
  import opened Database
  import opened DatabaseIo
  import opened Gui

  /** The trams of each line in setup. */
  const FleetSize: nat := 5

  /** The line after Tram(line, 1) … Tram(line, k). */
  function Fleet(line: TramLine, k: nat): TramLine
  {
    if k == 0 then line
    else
      var prev := Fleet(line, k - 1);
      prev.(roster := prev.roster + [FreshTram(prev, k, 0, 0)])
  }

  /**
   * Tram(line, k) for k = 1 … n appends the k-th fresh tram: numbers 1 to n
   * in order, each starting (k - 1) intervals after the line's first
   * departure; nothing else about the line changes.
   */
  lemma {:induction false} FleetShape(line: TramLine, k: nat)
    ensures Fleet(line, k) == line.(roster := Fleet(line, k).roster)
    ensures |Fleet(line, k).roster| == |line.roster| + k
    ensures Fleet(line, k).roster[..|line.roster|] == line.roster
    ensures forall j :: |line.roster| <= j < |line.roster| + k ==>
      Fleet(line, k).roster[j] == FreshTram(line, j - |line.roster| + 1, 0, 0)
  {
    if k > 0 {
      FleetShape(line, k - 1);
      var prev := Fleet(line, k - 1);
      assert NewTram(prev, k, 0, 0) == Ok(Fleet(line, k));
      var r := Fleet(line, k).roster;
      assert r == prev.roster + [FreshTram(line, k, 0, 0)];
      assert r[..|line.roster|] == prev.roster[..|line.roster|];
    }
  }

  /** The j-th tram of a fleet starts j intervals after the line's base time. */
  lemma FleetStartTimes(line: TramLine, k: nat, j: nat)
    requires j < k
    ensures |Fleet(line, k).roster| == |line.roster| + k
    ensures StartTime(Fleet(line, k), Fleet(line, k).roster[|line.roster| + j]) == BaseMinutes(line) + j * line.interval
    ensures Fleet(line, k).roster[|line.roster| + j].number == j + 1
  {
    FleetShape(line, k);
  }

  /** Adding a tram that stands still, with no itinerary, keeps a line consistent and well formed. */
  lemma AddStillTram(line: TramLine, t: Tram, n: nat)
    requires !t.move && !t.activated && t.itinerary == []
    ensures MovingInv(line) ==> MovingInv(line.(roster := line.roster + [t]))
    ensures LineWellFormed(line, n) ==> LineWellFormed(line.(roster := line.roster + [t]), n)
  {
    var l := line.(roster := line.roster + [t]);
    assert forall k :: 0 <= k < |line.roster| ==> l.roster[k] == line.roster[k];
    if MovingInv(line) {
      assert !(|line.roster| in line.movingTrams);
    }
  }

  /** Fleet trams stand still and have no itinerary, so the line stays consistent and well formed. */
  lemma {:induction false} FleetKeepsInvariants(line: TramLine, k: nat, n: nat)
    ensures MovingInv(line) ==> MovingInv(Fleet(line, k))
    ensures LineWellFormed(line, n) ==> LineWellFormed(Fleet(line, k), n)
  {
    if k > 0 {
      FleetKeepsInvariants(line, k - 1, n);
      var prev := Fleet(line, k - 1);
      AddStillTram(prev, FreshTram(prev, k, 0, 0), n);
    }
  }

  function Fleets(lines: seq<TramLine>): (r: seq<TramLine>)
    ensures |r| == |lines|
  {
    seq(|lines|, i requires 0 <= i < |lines| => Fleet(lines[i], FleetSize))
  }

  /** network_setup's final loop: five trams for each line, then add_line. */
  method AddFleets(lines: seq<TramLine>, network: TramNetwork)
    modifies network
    ensures network.lines == old(network.lines) + Fleets(lines)
    ensures network.stops == old(network.stops)
  {
    var i := 0;
    while i < |lines|
      invariant 0 <= i <= |lines|
      invariant network.lines == old(network.lines) + Fleets(lines)[..i]
      invariant network.stops == old(network.stops)
    {
      var line := lines[i];
      var number := 1;
      while number <= FleetSize
        invariant 1 <= number <= FleetSize + 1
        invariant line == Fleet(lines[i], number - 1)
      {
        var next := NewTram(line, number, 0, 0);
        line := next.value;
        number := number + 1;
      }
      network.AddLine(line);
      assert Fleets(lines)[..i + 1] == Fleets(lines)[..i] + [Fleet(lines[i], FleetSize)];
      i := i + 1;
    }
    assert Fleets(lines)[..i] == Fleets(lines);
  }

  /** network_setup on the three files' lines: the stops and the lines, or the first error. */
  function SetupNetwork(stopRows: seq<string>, connRows: seq<string>, lineRows: seq<string>)
    : Result<(seq<TramStop>, seq<TramLine>), ReadError>
  {
    match ReadStops(stopRows)
    case Err(e) => Err(e)
    case Ok(stops) =>
      var (connected, err) := ReadConnections(stops, connRows);
      if err.Some? then Err(err.value)
      else
        match ReadLines(connected, lineRows)
        case Err(e) => Err(e)
        case Ok(lines) => Ok((connected, Fleets(lines)))
  }

  /** network_setup: a fresh network built from the files, or the error that stopped it. */
  method NetworkSetup(stopRows: seq<string>, connRows: seq<string>, lineRows: seq<string>)
    returns (r: Result<TramNetwork, ReadError>)
    ensures r.Err? ==> SetupNetwork(stopRows, connRows, lineRows) == Err(r.error)
    ensures r.Ok? ==> fresh(r.value) && SetupNetwork(stopRows, connRows, lineRows) == Ok((r.value.stops, r.value.lines))
  {
    var stops := ReadTramStop(stopRows);
    if stops.Err? {
      return Err(stops.error);
    }
    var network := new TramNetwork(stops.value, []);
    var err := ReadTramStopConnection(connRows, network);
    if err.Some? {
      return Err(err.value);
    }
    var lines := ReadTramLine(lineRows, network);
    if lines.Err? {
      return Err(lines.error);
    }
    AddFleets(lines.value, network);
    assert network.lines == Fleets(lines.value);
    return Ok(network);
  }

  /** What the line reader promises of each line it returns. */
  predicate ParsedLine(line: TramLine, n: nat)
  {
    && ValidTimetable(line) && line.roster == [] && line.movingTrams == []
    && StopsIn(line.itinerary, n)
  }

  lemma ReadLinesParsed(stops: seq<TramStop>, rows: seq<string>)
    requires ReadLines(stops, rows).Ok?
    ensures forall i :: 0 <= i < |ReadLines(stops, rows).value| ==> ParsedLine(ReadLines(stops, rows).value[i], |stops|)
  {
    ReadLinesOk(stops, rows);
    var lines := ReadLines(stops, rows).value;
    forall i | 0 <= i < |lines|
      ensures ParsedLine(lines[i], |stops|)
    {
      assert LineRow(stops, rows[i]) == Ok(lines[i]);
      ResolveIdsInRange(stops, Fields(rows[i])[4..]);
    }
  }

  /** A fleet on a freshly read line: five trams in order, one interval apart, none moving. */
  lemma FleetReady(line: TramLine, n: nat)
    requires ParsedLine(line, n)
    ensures var f := Fleet(line, FleetSize);
      && ValidTimetable(f) && |f.roster| == FleetSize && MovingInv(f)
      && (|line.itinerary| > 0 ==> LineWellFormed(f, n))
      && forall j :: 0 <= j < FleetSize ==>
           f.roster[j].number == j + 1 && StartTime(f, f.roster[j]) == BaseMinutes(f) + j * f.interval
  {
    FleetShape(line, FleetSize);
    FleetKeepsInvariants(line, FleetSize, n);
    var f := Fleet(line, FleetSize);
    forall j | 0 <= j < FleetSize
      ensures f.roster[j].number == j + 1 && StartTime(f, f.roster[j]) == BaseMinutes(f) + j * f.interval
    {
      FleetStartTimes(line, FleetSize, j);
    }
  }

  /**
   * A network that setup builds is ready for the simulation: stops stand at
   * distinct positions, every connection is recorded on both stops, every
   * line has a valid timetable and its five trams in number order, one
   * interval apart, none of them moving yet, and the lines are consistent;
   * when no line's itinerary is empty the network is well formed.
   */
  lemma SetupReady(stopRows: seq<string>, connRows: seq<string>, lineRows: seq<string>)
    requires SetupNetwork(stopRows, connRows, lineRows).Ok?
    ensures
      var (stops, lines) := SetupNetwork(stopRows, connRows, lineRows).value;
      && DistinctPositions(stops)
      && Symmetric(stops)
      && Consistent(lines)
      && (forall i :: 0 <= i < |lines| ==> ValidTimetable(lines[i]) && |lines[i].roster| == FleetSize)
      && (forall i, j :: 0 <= i < |lines| && 0 <= j < FleetSize ==>
            lines[i].roster[j].number == j + 1
            && StartTime(lines[i], lines[i].roster[j]) == BaseMinutes(lines[i]) + j * lines[i].interval)
      && ((forall i :: 0 <= i < |lines| ==> |lines[i].itinerary| > 0) ==> WellFormed(stops, lines))
  {
    var read := ReadStops(stopRows).value;
    StopsReady(stopRows, connRows);
    var stops := ReadConnections(read, connRows).0;
    LinesReady(stops, lineRows);
  }

  /** The stops after the stop and connection readers: distinct positions, symmetric links. */
  lemma StopsReady(stopRows: seq<string>, connRows: seq<string>)
    requires ReadStops(stopRows).Ok?
    ensures DistinctPositions(ReadConnections(ReadStops(stopRows).value, connRows).0)
    ensures Symmetric(ReadConnections(ReadStops(stopRows).value, connRows).0)
  {
    var read := ReadStops(stopRows).value;
    ReadStopsOk(stopRows);
    ReadStopsExtends(read, connRows);
    var stops := ReadConnections(read, connRows).0;
    assert forall i :: 0 <= i < |read| ==> read[i].x == stops[i].x && read[i].y == stops[i].y;
  }

  /** The lines after the line reader and the fleet loop. */
  lemma LinesReady(stops: seq<TramStop>, lineRows: seq<string>)
    requires ReadLines(stops, lineRows).Ok?
    ensures var lines := Fleets(ReadLines(stops, lineRows).value);
      && Consistent(lines)
      && (forall i :: 0 <= i < |lines| ==> ValidTimetable(lines[i]) && |lines[i].roster| == FleetSize)
      && (forall i, j :: 0 <= i < |lines| && 0 <= j < FleetSize ==>
            lines[i].roster[j].number == j + 1
            && StartTime(lines[i], lines[i].roster[j]) == BaseMinutes(lines[i]) + j * lines[i].interval)
      && ((forall i :: 0 <= i < |lines| ==> |lines[i].itinerary| > 0) ==> WellFormed(stops, lines))
  {
    var parsed := ReadLines(stops, lineRows).value;
    ReadLinesParsed(stops, lineRows);
    var lines := Fleets(parsed);
    forall i | 0 <= i < |lines|
      ensures ValidTimetable(lines[i]) && |lines[i].roster| == FleetSize && MovingInv(lines[i])
      ensures |lines[i].itinerary| > 0 ==> LineWellFormed(lines[i], |stops|)
      ensures forall j :: 0 <= j < FleetSize ==>
            lines[i].roster[j].number == j + 1
            && StartTime(lines[i], lines[i].roster[j]) == BaseMinutes(lines[i]) + j * lines[i].interval
    {
      FleetReady(parsed[i], |stops|);
      FleetShape(parsed[i], FleetSize);
    }
  }

  /** Stops read from a stop file have no connections; the connection reader keeps them and makes their links symmetric. */
  lemma ReadStopsExtends(read: seq<TramStop>, connRows: seq<string>)
    requires forall i :: 0 <= i < |read| ==> read[i].connected == []
    ensures Extends(read, ReadConnections(read, connRows).0)
    ensures Symmetric(ReadConnections(read, connRows).0)
  {
    ApplyConnectionsExtends(ConnState(read, None, None), connRows);
    UnconnectedSymmetric(read);
    ApplyConnectionsKeepSymmetric(ConnState(read, None, None), connRows);
  }
}
