/**
 * The simulated clock and the per-tick scheduling engine of gui.py.
 *
 * Rendering is left out: a tram's on-map marker is represented only by the
 * tram's entry in its line's moving list, and the floating-point
 * interpolation between two stops is replaced by an `arrived` answer for
 * each movement step (true on the tick at which the tram's position reaches
 * the next stop).
 */
module Gui {
  import opened Wrappers
  import opened Database

  // ---------------------------------------------------------------------------
  // Clock

  /** A time of day: hours 0-23, minutes 0-59. */
  predicate InDay(hours: int, minutes: int)
  {
    0 <= hours <= 23 && 0 <= minutes <= 59
  }

  /** The scheduling key, minutes after midnight (Clock.get_time_in_minutes). */
  function TimeKey(hours: int, minutes: int): int
  {
    minutes + 60 * hours
  }

  /** Clock.increase_time on the pair (hours, minutes). */
  function NextTime(hours: int, minutes: int): (int, int)
  {
    if minutes == 59 then (if hours == 23 then 0 else hours + 1, 0)
    else (hours, minutes + 1)
  }

  /** `n` consecutive calls of increase_time. */
  function AdvanceTime(hours: int, minutes: int, n: nat): (int, int)
    decreases n
  {
    if n == 0 then (hours, minutes)
    else
      var next := NextTime(hours, minutes);
      AdvanceTime(next.0, next.1, n - 1)
  }

  /** The key of a time of day lies in [0, 1439] and determines the time. */
  lemma TimeKeyInDay(h1: int, m1: int, h2: int, m2: int)
    requires InDay(h1, m1) && InDay(h2, m2)
    ensures 0 <= TimeKey(h1, m1) < 1440
    ensures TimeKey(h1, m1) == TimeKey(h2, m2) ==> h1 == h2 && m1 == m2
  {
  }

  /** increase_time keeps a time of day in range and moves its key on by one minute, modulo a day. */
  lemma NextTimeKey(hours: int, minutes: int)
    requires InDay(hours, minutes)
    ensures InDay(NextTime(hours, minutes).0, NextTime(hours, minutes).1)
    ensures TimeKey(NextTime(hours, minutes).0, NextTime(hours, minutes).1) == (TimeKey(hours, minutes) + 1) % 1440
  {
  }

  lemma {:induction false} AdvanceTimeKey(hours: int, minutes: int, n: nat)
    requires InDay(hours, minutes)
    ensures InDay(AdvanceTime(hours, minutes, n).0, AdvanceTime(hours, minutes, n).1)
    ensures TimeKey(AdvanceTime(hours, minutes, n).0, AdvanceTime(hours, minutes, n).1)
            == (TimeKey(hours, minutes) + n) % 1440
    decreases n
  {
    if n > 0 {
      var next := NextTime(hours, minutes);
      NextTimeKey(hours, minutes);
      AdvanceTimeKey(next.0, next.1, n - 1);
      var k := TimeKey(hours, minutes);
      assert (((k + 1) % 1440) + (n - 1)) % 1440 == (k + n) % 1440 by {
        if k + 1 == 1440 {
          assert (k + 1) % 1440 == 0;
          assert (k + n) == 1440 + (n - 1);
        } else {
          assert (k + 1) % 1440 == k + 1;
        }
      }
    }
  }

  /** Whole days of 1440 ticks bring the clock back to where it started. */
  lemma WholeDays(hours: int, minutes: int, days: nat)
    requires InDay(hours, minutes)
    ensures AdvanceTime(hours, minutes, 1440 * days) == (hours, minutes)
  {
    var n := 1440 * days;
    AdvanceTimeKey(hours, minutes, n);
    TimeKeyInDay(hours, minutes, hours, minutes);
    WholeDaysKey(TimeKey(hours, minutes), days);
    var back := AdvanceTime(hours, minutes, n);
    TimeKeyInDay(back.0, back.1, hours, minutes);
  }

  lemma WholeDaysKey(k: int, days: nat)
    requires 0 <= k < 1440
    ensures (k + 1440 * days) % 1440 == k
  {
    var x := k + 1440 * days;
    assert x == 1440 * days + k;
  }

  /** Clock: the simulated time of day, started at 5:00 by default. */
  class Clock {
    var hours: int
    var minutes: int

    constructor (hours: int, minutes: int)
      ensures this.hours == hours && this.minutes == minutes
    {
      this.hours := hours;
      this.minutes := minutes;
    }

    constructor Default()
      ensures hours == 5 && minutes == 0 && Valid()
    {
      hours := 5;
      minutes := 0;
    }

    predicate Valid()
      reads this
    {
      InDay(hours, minutes)
    }

    /** Clock.increase_hours: the next hour, 23 wrapping to 0, at minute 0. */
    method IncreaseHours()
      modifies this
      ensures hours == (if old(hours) == 23 then 0 else old(hours) + 1)
      ensures minutes == 0
    {
      if hours == 23 {
        hours := 0;
      } else {
        hours := hours + 1;
      }
      minutes := 0;
    }

    /** Clock.increase_minutes. */
    method IncreaseMinutes()
      modifies this
      ensures hours == old(hours) && minutes == old(minutes) + 1
    {
      minutes := minutes + 1;
    }

    /** Clock.get_time_in_minutes. */
    function TimeInMinutes(): (r: int)
      reads this
      ensures Valid() ==> 0 <= r < 1440
    {
      TimeKey(hours, minutes)
    }

    /** Clock.increase_time: minute 59 rolls into the next hour, any other minute just increments. */
    method IncreaseTime()
      modifies this
      ensures (hours, minutes) == NextTime(old(hours), old(minutes))
      ensures old(Valid()) ==> Valid()
    {
      if minutes == 59 {
        IncreaseHours();
      } else {
        IncreaseMinutes();
      }
    }
  }

  // ---------------------------------------------------------------------------
  // Scheduling pass (set_tram)

  /** The tram after the 04:00 check of set_tram. */
  function ResetAt(line: TramLine, t: Tram, hours: int, minutes: int): Tram
  {
    if minutes == 0 && hours == 4 then RestartStartTime(line, t) else t
  }

  /** The clock's key equals the tram's start time, read after the 04:00 check. */
  predicate Departs(line: TramLine, t: Tram, hours: int, minutes: int)
  {
    TimeKey(hours, minutes) == StartTime(line, ResetAt(line, t, hours, minutes))
  }

  /** The tram departs and has no marker yet, so create_tram runs for it. */
  predicate Creates(line: TramLine, t: Tram, hours: int, minutes: int)
  {
    Departs(line, t, hours, minutes) && !t.move
  }

  /**
   * The tram-side effects of create_tram: the direction chosen by parity, and
   * the position set to the coordinates of that direction's first stop.
   */
  function CreateTram(stops: seq<TramStop>, itinerary: seq<nat>, t: Tram): (r: Tram)
    requires |itinerary| > 0 && StopsIn(itinerary, |stops|)
    ensures r.itinerary == Directed(itinerary, t.number)
    ensures |r.itinerary| > 0 && StopsIn(r.itinerary, |stops|)
    ensures r.x == stops[r.itinerary[0]].x && r.y == stops[r.itinerary[0]].y
    ensures r == t.(itinerary := r.itinerary, x := r.x, y := r.y)
  {
    DirectedStopsIn(itinerary, t.number, |stops|);
    var t1 := SetItinerary(t, itinerary);
    var first := stops[t1.itinerary[0]];
    t1.(x := first.x, y := first.y)
  }

  /** One tram's update in set_tram, at clock time (hours, minutes). */
  function ScheduledTram(stops: seq<TramStop>, line: TramLine, t: Tram, hours: int, minutes: int): Tram
    requires |line.itinerary| > 0 && StopsIn(line.itinerary, |stops|)
  {
    var t1 := ResetAt(line, t, hours, minutes);
    if TimeKey(hours, minutes) == StartTime(line, t1) then
      var t2 := IncreaseTramInterval(line, t1);
      var t3 := if !t2.move then CreateTram(stops, line.itinerary, t2) else t2;
      t3.(activated := true, move := true)
    else t1
  }

  /**
   * What set_tram does to one tram.  Without a departure the tram is only
   * reset (at 04:00).  On a departure its start time moves on by one roster
   * cycle and it becomes activated and moving; create_tram runs only when
   * _move was still false, choosing the direction by parity and placing the
   * tram on that direction's first stop; a tram that already has a marker
   * keeps its itinerary and position.  _move is never cleared.
   */
  lemma ScheduledTramEffects(stops: seq<TramStop>, line: TramLine, t: Tram, hours: int, minutes: int)
    requires |line.itinerary| > 0 && StopsIn(line.itinerary, |stops|)
    ensures var r := ScheduledTram(stops, line, t, hours, minutes);
      && (!Departs(line, t, hours, minutes) ==> r == ResetAt(line, t, hours, minutes))
      && (Departs(line, t, hours, minutes) ==>
            && r.activated && r.move
            && StartTime(line, r) == StartTime(line, ResetAt(line, t, hours, minutes)) + |line.roster| * line.interval)
      && (Creates(line, t, hours, minutes) ==>
            && r.itinerary == Directed(line.itinerary, t.number)
            && r.x == stops[r.itinerary[0]].x && r.y == stops[r.itinerary[0]].y)
      && (Departs(line, t, hours, minutes) && t.move ==>
            r == ResetAt(line, t, hours, minutes).(offset := r.offset, activated := true))
      && (t.move ==> r.move)
      && (r.move <==> t.move || Departs(line, t, hours, minutes))
      && (r.activated <==> t.activated || Departs(line, t, hours, minutes))
      && r.number == t.number && r.cursor == t.cursor && r.lastStop == t.lastStop
      && (StopsIn(t.itinerary, |stops|) ==> StopsIn(r.itinerary, |stops|))
  {
    DirectedStopsIn(line.itinerary, t.number, |stops|);
  }

  /**
   * The roster indices that the first `k` iterations of set_tram append to
   * the moving list, in roster order.
   */
  function CreatedUpTo(line: TramLine, hours: int, minutes: int, k: nat): seq<nat>
    requires k <= |line.roster|
  {
    if k == 0 then []
    else
      CreatedUpTo(line, hours, minutes, k - 1)
      + (if Creates(line, line.roster[k - 1], hours, minutes) then [k - 1] else [])
  }

  /**
   * The trams set_tram's first `k` iterations append are exactly those among
   * the first `k` that create_tram places, each once and in roster order.
   */
  lemma {:induction false} CreatedUpToSpec(line: TramLine, hours: int, minutes: int, k: nat)
    requires k <= |line.roster|
    ensures forall j :: 0 <= j < |CreatedUpTo(line, hours, minutes, k)| ==>
      CreatedUpTo(line, hours, minutes, k)[j] < k
      && Creates(line, line.roster[CreatedUpTo(line, hours, minutes, k)[j]], hours, minutes)
    ensures forall i, j :: 0 <= i < j < |CreatedUpTo(line, hours, minutes, k)| ==>
      CreatedUpTo(line, hours, minutes, k)[i] < CreatedUpTo(line, hours, minutes, k)[j]
    ensures forall p :: 0 <= p < k && Creates(line, line.roster[p], hours, minutes) ==>
      p in CreatedUpTo(line, hours, minutes, k)
  {
    if k > 0 {
      CreatedUpToSpec(line, hours, minutes, k - 1);
    }
  }

  /** A line after set_tram has visited each of its trams once. */
  function ScheduledLine(stops: seq<TramStop>, line: TramLine, hours: int, minutes: int): TramLine
    requires |line.itinerary| > 0 && StopsIn(line.itinerary, |stops|)
  {
    line.(
      roster := seq(|line.roster|, k requires 0 <= k < |line.roster| =>
                      ScheduledTram(stops, line, line.roster[k], hours, minutes)),
      movingTrams := line.movingTrams + CreatedUpTo(line, hours, minutes, |line.roster|))
  }

  /** Every line after one call of set_tram. */
  function ScheduledLines(stops: seq<TramStop>, lines: seq<TramLine>, hours: int, minutes: int): seq<TramLine>
    requires WellFormed(stops, lines)
  {
    seq(|lines|, i requires 0 <= i < |lines| => ScheduledLine(stops, lines[i], hours, minutes))
  }

  /** A roster that agrees with ScheduledTram entry by entry is the scheduled roster. */
  lemma ScheduledRosterIs(stops: seq<TramStop>, line: TramLine, hours: int, minutes: int, roster: seq<Tram>)
    requires |line.itinerary| > 0 && StopsIn(line.itinerary, |stops|)
    requires |roster| == |line.roster|
    requires forall j :: 0 <= j < |roster| ==> roster[j] == ScheduledTram(stops, line, line.roster[j], hours, minutes)
    ensures roster == ScheduledLine(stops, line, hours, minutes).roster
  {
  }

  /**
   * The bookkeeping between a line's roster and its moving list: the moving
   * list names each tram whose _move flag is set, exactly once, and only an
   * already placed tram can be activated.
   */
  predicate MovingInv(line: TramLine)
  {
    && (forall j :: 0 <= j < |line.movingTrams| ==> line.movingTrams[j] < |line.roster|)
    && (forall i, j :: 0 <= i < j < |line.movingTrams| ==> line.movingTrams[i] != line.movingTrams[j])
    && (forall k :: 0 <= k < |line.roster| ==> (line.roster[k].move <==> k in line.movingTrams))
    && (forall k :: 0 <= k < |line.roster| ==> line.roster[k].activated ==> line.roster[k].move)
  }

  predicate Consistent(lines: seq<TramLine>)
  {
    forall i :: 0 <= i < |lines| ==> MovingInv(lines[i])
  }

  /** set_tram keeps each line well formed. */
  lemma ScheduledLinesWellFormed(stops: seq<TramStop>, lines: seq<TramLine>, hours: int, minutes: int)
    requires WellFormed(stops, lines)
    ensures |ScheduledLines(stops, lines, hours, minutes)| == |lines|
    ensures WellFormed(stops, ScheduledLines(stops, lines, hours, minutes))
  {
    var r := ScheduledLines(stops, lines, hours, minutes);
    forall i | 0 <= i < |lines|
      ensures LineWellFormed(r[i], |stops|)
    {
      var line := lines[i];
      var s := r[i];
      assert |s.roster| == |line.roster|;
      forall k | 0 <= k < |s.roster|
        ensures StopsIn(s.roster[k].itinerary, |stops|)
      {
        assert s.roster[k] == ScheduledTram(stops, line, line.roster[k], hours, minutes);
        ScheduledTramEffects(stops, line, line.roster[k], hours, minutes);
      }
      forall j | 0 <= j < |s.movingTrams|
        ensures s.movingTrams[j] < |s.roster|
      {
        if j >= |line.movingTrams| {
          CreatedUpToSpec(line, hours, minutes, |line.roster|);
          assert s.movingTrams[j] == CreatedUpTo(line, hours, minutes, |line.roster|)[j - |line.movingTrams|];
        }
      }
    }
  }

  /**
   * set_tram appends a tram to the moving list only when its _move flag was
   * false, and sets the flag when it does; so every tram is on the moving
   * list at most once, and the list stays in step with the flags.
   */
  lemma ScheduledLineKeepsMovingInv(stops: seq<TramStop>, line: TramLine, hours: int, minutes: int)
    requires |line.itinerary| > 0 && StopsIn(line.itinerary, |stops|)
    requires MovingInv(line)
    ensures MovingInv(ScheduledLine(stops, line, hours, minutes))
  {
    var s := ScheduledLine(stops, line, hours, minutes);
    var created := CreatedUpTo(line, hours, minutes, |line.roster|);
    CreatedUpToSpec(line, hours, minutes, |line.roster|);
    var n := |line.movingTrams|;
    assert s.movingTrams == line.movingTrams + created;
    forall k | 0 <= k < |s.roster|
      ensures s.roster[k].move <==> k in s.movingTrams
    {
      var t := line.roster[k];
      assert s.roster[k] == ScheduledTram(stops, line, t, hours, minutes);
      ScheduledTramEffects(stops, line, t, hours, minutes);
      if k in created {
        assert k in s.movingTrams;
      }
      if k in line.movingTrams {
        assert k in s.movingTrams;
      }
    }
    forall i, j | 0 <= i < j < |s.movingTrams|
      ensures s.movingTrams[i] != s.movingTrams[j]
    {
      if i < n && j >= n {
        var q := s.movingTrams[i];
        var p := s.movingTrams[j];
        assert q == line.movingTrams[i] && line.roster[q].move;
        assert p == created[j - n] && !line.roster[p].move;
      } else if i >= n {
        assert s.movingTrams[i] == created[i - n];
        assert s.movingTrams[j] == created[j - n];
      }
    }
    forall k | 0 <= k < |s.roster|
      ensures s.roster[k].activated ==> s.roster[k].move
    {
      assert s.roster[k] == ScheduledTram(stops, line, line.roster[k], hours, minutes);
      ScheduledTramEffects(stops, line, line.roster[k], hours, minutes);
    }
  }

  lemma ScheduledLinesKeepConsistent(stops: seq<TramStop>, lines: seq<TramLine>, hours: int, minutes: int)
    requires WellFormed(stops, lines) && Consistent(lines)
    ensures Consistent(ScheduledLines(stops, lines, hours, minutes))
  {
    forall i | 0 <= i < |lines|
      ensures MovingInv(ScheduledLines(stops, lines, hours, minutes)[i])
    {
      ScheduledLineKeepsMovingInv(stops, lines[i], hours, minutes);
    }
  }

  /**
   * At 04:00 the restart runs before the comparison, for every tram of every
   * line: each tram's direction is chosen afresh by parity, and its offset is
   * 0, or one roster cycle if the line's first departure is 04:00 itself.
   */
  lemma ResetAtFour(stops: seq<TramStop>, lines: seq<TramLine>, i: nat, k: nat)
    requires WellFormed(stops, lines)
    requires i < |lines| && k < |lines[i].roster|
    ensures
      var line := lines[i];
      var t := ScheduledLines(stops, lines, 4, 0)[i].roster[k];
      && t.itinerary == Directed(line.itinerary, line.roster[k].number)
      && t.offset == (if BaseMinutes(line) == 240 then |line.roster| * line.interval else 0)
  {
    var line := lines[i];
    assert ScheduledLines(stops, lines, 4, 0)[i].roster[k] == ScheduledTram(stops, line, line.roster[k], 4, 0);
    DirectedStopsIn(line.itinerary, line.roster[k].number, |stops|);
  }

  // ---------------------------------------------------------------------------
  // Movement pass (move_tram_in_tram_line)

  /** The exceptions a movement step can raise. */
  datatype Fault =
    | IndexError    // itinerary[-1] of an empty itinerary, or itinerary[cursor + 1] past its end
    | NotConnected  // get_distance found no connection and returned None (a TypeError in the division)
    | ZeroDistance  // a connection of distance 0 (ZeroDivisionError)

  /**
   * move_tram: the hop from itinerary[cursor] to itinerary[cursor + 1] needs a
   * connection of non-zero distance; on arrival the tram stands on the next
   * stop, which becomes its last stop, and the cursor moves on by one.
   */
  function MoveStep(stops: seq<TramStop>, t: Tram, arrived: bool): (r: Result<Tram, Fault>)
    requires StopsIn(t.itinerary, |stops|)
    ensures r.Ok? <==>
      t.cursor + 1 < |t.itinerary|
      && Distance(stops[t.itinerary[t.cursor]].connected, t.itinerary[t.cursor + 1]).Some?
      && Distance(stops[t.itinerary[t.cursor]].connected, t.itinerary[t.cursor + 1]) != Some(0)
    ensures r.Ok? && !arrived ==> r.value == t
    ensures r.Ok? && arrived ==>
      var next := t.itinerary[t.cursor + 1];
      r.value == t.(cursor := t.cursor + 1, lastStop := Some(next), x := stops[next].x, y := stops[next].y)
  {
    if t.cursor + 1 >= |t.itinerary| then Err(IndexError)
    else
      var last := t.itinerary[t.cursor];
      var next := t.itinerary[t.cursor + 1];
      match Distance(stops[last].connected, next)
      case None => Err(NotConnected)
      case Some(d) =>
        if d == 0 then Err(ZeroDistance)
        else if arrived then
          Ok(IncreaseLastTramStopNumber(t.(x := stops[next].x, y := stops[next].y, lastStop := Some(next))))
        else Ok(t)
  }

  /** The end-of-itinerary restart: deactivated, direction reversed, cursor back to 0. */
  function Bounce(t: Tram): Tram
  {
    t.(activated := false, itinerary := Reversed(t.itinerary), cursor := 0)
  }

  /** A tram that bounces twice is travelling in its original direction again. */
  lemma BounceTwice(t: Tram)
    ensures Bounce(Bounce(t)).itinerary == t.itinerary
    ensures Bounce(Bounce(t)) == Bounce(t).(itinerary := t.itinerary)
  {
    ReversedTwice(t.itinerary);
  }

  /** What move_tram_in_tram_line does to one tram of a moving list. */
  function PassStep(stops: seq<TramStop>, t: Tram, arrived: bool): (r: Result<Tram, Fault>)
    requires StopsIn(t.itinerary, |stops|)
    ensures !t.activated ==> r == Ok(t)
    ensures t.activated && |t.itinerary| == 0 ==> r == Err(IndexError)
    ensures t.activated && |t.itinerary| > 0 && t.lastStop != Some(t.itinerary[|t.itinerary| - 1]) ==>
      r == MoveStep(stops, t, arrived)
    ensures r.Ok? ==> StopsIn(r.value.itinerary, |stops|) && |r.value.itinerary| == |t.itinerary|
    ensures r.Ok? ==> r.value.move == t.move && r.value.number == t.number
    ensures r.Ok? && r.value.activated ==> t.activated
  {
    if !t.activated then Ok(t)
    else if |t.itinerary| == 0 then Err(IndexError)
    else if t.lastStop == Some(t.itinerary[|t.itinerary| - 1]) then Ok(Bounce(t))
    else MoveStep(stops, t, arrived)
  }

  /** An active tram standing on the last stop of its itinerary bounces. */
  lemma BounceAtEnd(stops: seq<TramStop>, t: Tram, arrived: bool)
    requires StopsIn(t.itinerary, |stops|)
    requires t.activated && |t.itinerary| > 0 && t.lastStop == Some(t.itinerary[|t.itinerary| - 1])
    ensures PassStep(stops, t, arrived) == Ok(Bounce(t))
    ensures !Bounce(t).activated && Bounce(t).cursor == 0
    ensures Bounce(t).itinerary[0] == t.itinerary[|t.itinerary| - 1]
  {
  }

  /**
   * The rest of the movement pass over one line, from entry `j` of its moving
   * list; `li` is the line's index, which with `j` selects the arrival answer.
   * A fault ends the pass and keeps what the earlier entries did.
   */
  function MoveFrom(stops: seq<TramStop>, line: TramLine, li: nat, j: nat, arrives: (nat, nat) -> bool)
    : (r: (TramLine, Option<Fault>))
    requires LineWellFormed(line, |stops|)
    ensures r.0 == line.(roster := r.0.roster) && |r.0.roster| == |line.roster|
    ensures LineWellFormed(r.0, |stops|)
    decreases |line.movingTrams| - j
  {
    if j >= |line.movingTrams| then (line, None)
    else
      var k := line.movingTrams[j];
      match PassStep(stops, line.roster[k], arrives(li, j))
      case Err(f) => (line, Some(f))
      case Ok(t) => MoveFrom(stops, line.(roster := line.roster[k := t]), li, j + 1, arrives)
  }

  /** The rest of the movement pass from line `i` on. */
  function MoveLinesFrom(stops: seq<TramStop>, lines: seq<TramLine>, i: nat, arrives: (nat, nat) -> bool)
    : (r: (seq<TramLine>, Option<Fault>))
    requires WellFormed(stops, lines)
    ensures |r.0| == |lines| && WellFormed(stops, r.0)
    decreases |lines| - i
  {
    if i >= |lines| then (lines, None)
    else
      var moved := MoveFrom(stops, lines[i], i, 0, arrives);
      if moved.1.Some? then (lines[i := moved.0], moved.1)
      else MoveLinesFrom(stops, lines[i := moved.0], i + 1, arrives)
  }

  /** One call of move_tram_in_tram_line. */
  function MovePass(stops: seq<TramStop>, lines: seq<TramLine>, arrives: (nat, nat) -> bool)
    : (r: (seq<TramLine>, Option<Fault>))
    requires WellFormed(stops, lines)
    ensures |r.0| == |lines| && WellFormed(stops, r.0)
    ensures forall i :: 0 <= i < |lines| ==> r.0[i] == lines[i].(roster := r.0[i].roster)
  {
    MoveLinesOnlyRosters(stops, lines, 0, arrives);
    MoveLinesFrom(stops, lines, 0, arrives)
  }

  /** The movement pass changes nothing about a line but its roster. */
  lemma MoveLinesOnlyRosters(stops: seq<TramStop>, lines: seq<TramLine>, i: nat, arrives: (nat, nat) -> bool)
    requires WellFormed(stops, lines)
    ensures forall k :: 0 <= k < |lines| ==>
      MoveLinesFrom(stops, lines, i, arrives).0[k] == lines[k].(roster := MoveLinesFrom(stops, lines, i, arrives).0[k].roster)
  {
    forall k | 0 <= k < |lines|
      ensures MoveLinesFrom(stops, lines, i, arrives).0[k] == lines[k].(roster := MoveLinesFrom(stops, lines, i, arrives).0[k].roster)
    {
      MoveLinesOnlyRoster(stops, lines, i, arrives, k);
    }
  }

  /** Line `k` after the movement pass from line `i` on differs from before only in its roster. */
  lemma {:induction false} MoveLinesOnlyRoster(stops: seq<TramStop>, lines: seq<TramLine>, i: nat,
                                               arrives: (nat, nat) -> bool, k: nat)
    requires WellFormed(stops, lines) && k < |lines|
    ensures MoveLinesFrom(stops, lines, i, arrives).0[k] == lines[k].(roster := MoveLinesFrom(stops, lines, i, arrives).0[k].roster)
    decreases |lines| - i
  {
    if i < |lines| {
      var moved := MoveFrom(stops, lines[i], i, 0, arrives);
      var next := lines[i := moved.0];
      assert next[k] == lines[k].(roster := next[k].roster);
      if moved.1.None? {
        assert MoveLinesFrom(stops, lines, i, arrives) == MoveLinesFrom(stops, next, i + 1, arrives);
        MoveLinesOnlyRoster(stops, next, i + 1, arrives, k);
      } else {
        assert MoveLinesFrom(stops, lines, i, arrives).0 == next;
      }
    }
  }

  /** The movement pass never touches a tram that is not on its line's moving list. */
  lemma {:induction false} MoveFromUntouched(stops: seq<TramStop>, line: TramLine, li: nat, j: nat,
                                             arrives: (nat, nat) -> bool, k: nat)
    requires LineWellFormed(line, |stops|)
    requires k < |line.roster| && forall p :: j <= p < |line.movingTrams| ==> line.movingTrams[p] != k
    ensures MoveFrom(stops, line, li, j, arrives).0.roster[k] == line.roster[k]
    decreases |line.movingTrams| - j
  {
    if j < |line.movingTrams| {
      var e := line.movingTrams[j];
      match PassStep(stops, line.roster[e], arrives(li, j))
      case Err(f) =>
      case Ok(t) =>
        MoveFromUntouched(stops, line.(roster := line.roster[e := t]), li, j + 1, arrives, k);
    }
  }

  /** Replacing a tram by one with the same _move flag, activated only if moving, keeps the bookkeeping. */
  lemma ReplaceTramKeepsMovingInv(line: TramLine, e: nat, t: Tram)
    requires MovingInv(line) && e < |line.roster|
    requires t.move == line.roster[e].move && (t.activated ==> t.move)
    ensures MovingInv(line.(roster := line.roster[e := t]))
  {
    var next := line.(roster := line.roster[e := t]);
    forall k | 0 <= k < |next.roster|
      ensures (next.roster[k].move <==> k in next.movingTrams)
      ensures next.roster[k].activated ==> next.roster[k].move
    {
      if k != e {
        assert next.roster[k] == line.roster[k];
      }
    }
  }

  /** The movement pass keeps the moving list in step with the flags. */
  lemma {:induction false} MoveFromKeepsMovingInv(stops: seq<TramStop>, line: TramLine, li: nat, j: nat,
                                                  arrives: (nat, nat) -> bool)
    requires LineWellFormed(line, |stops|) && MovingInv(line)
    ensures MovingInv(MoveFrom(stops, line, li, j, arrives).0)
    decreases |line.movingTrams| - j
  {
    if j < |line.movingTrams| {
      var e := line.movingTrams[j];
      var stepped := PassStep(stops, line.roster[e], arrives(li, j));
      if stepped.Ok? {
        var next := line.(roster := line.roster[e := stepped.value]);
        assert MoveFrom(stops, line, li, j, arrives) == MoveFrom(stops, next, li, j + 1, arrives);
        ReplaceTramKeepsMovingInv(line, e, stepped.value);
        MoveFromKeepsMovingInv(stops, next, li, j + 1, arrives);
      }
    }
  }

  lemma {:induction false} MoveLinesKeepConsistent(stops: seq<TramStop>, lines: seq<TramLine>, i: nat,
                                                   arrives: (nat, nat) -> bool)
    requires WellFormed(stops, lines) && Consistent(lines)
    ensures Consistent(MoveLinesFrom(stops, lines, i, arrives).0)
    decreases |lines| - i
  {
    if i < |lines| {
      var moved := MoveFrom(stops, lines[i], i, 0, arrives);
      MoveFromKeepsMovingInv(stops, lines[i], i, 0, arrives);
      var next := lines[i := moved.0];
      assert Consistent(next) by {
        forall k | 0 <= k < |next|
          ensures MovingInv(next[k])
        {
          if k != i {
            assert next[k] == lines[k];
          }
        }
      }
      if moved.1.None? {
        assert MoveLinesFrom(stops, lines, i, arrives) == MoveLinesFrom(stops, next, i + 1, arrives);
        MoveLinesKeepConsistent(stops, next, i + 1, arrives);
      } else {
        assert MoveLinesFrom(stops, lines, i, arrives).0 == next;
      }
    }
  }

  // ---------------------------------------------------------------------------
  // What the movement pass does to each tram

  /** No roster index appears twice on the list. */
  predicate Distinct(s: seq<nat>)
  {
    forall a, b :: 0 <= a < b < |s| ==> s[a] != s[b]
  }

  /**
   * The entry of the moving list, from `j` on, whose step faults first when
   * every tram is stepped from its state at the start of the pass; the
   * length of the list when none does.
   */
  function FirstFault(stops: seq<TramStop>, line: TramLine, li: nat, j: nat, arrives: (nat, nat) -> bool): (q: nat)
    requires LineWellFormed(line, |stops|) && j <= |line.movingTrams|
    ensures j <= q <= |line.movingTrams|
    ensures q < |line.movingTrams| ==> PassStep(stops, line.roster[line.movingTrams[q]], arrives(li, q)).Err?
    decreases |line.movingTrams| - j
  {
    if j == |line.movingTrams| then j
    else if PassStep(stops, line.roster[line.movingTrams[j]], arrives(li, j)).Err? then j
    else FirstFault(stops, line, li, j + 1, arrives)
  }

  /** FirstFault looks only at the trams of the entries from `j` on. */
  lemma {:induction false} FirstFaultFrame(stops: seq<TramStop>, line: TramLine, other: TramLine, li: nat, j: nat,
                                           arrives: (nat, nat) -> bool)
    requires LineWellFormed(line, |stops|) && LineWellFormed(other, |stops|) && j <= |line.movingTrams|
    requires other.movingTrams == line.movingTrams
    requires forall p :: j <= p < |line.movingTrams| ==>
      other.roster[line.movingTrams[p]] == line.roster[line.movingTrams[p]]
    ensures FirstFault(stops, other, li, j, arrives) == FirstFault(stops, line, li, j, arrives)
    decreases |line.movingTrams| - j
  {
    if j < |line.movingTrams| {
      FirstFaultFrame(stops, line, other, li, j + 1, arrives);
    }
  }

  /** One successful step of the pass over a line, unfolded. */
  lemma MoveFromNext(stops: seq<TramStop>, line: TramLine, li: nat, j: nat, arrives: (nat, nat) -> bool)
    requires LineWellFormed(line, |stops|) && Distinct(line.movingTrams) && j < |line.movingTrams|
    requires PassStep(stops, line.roster[line.movingTrams[j]], arrives(li, j)).Ok?
    ensures
      var e := line.movingTrams[j];
      var next := line.(roster := line.roster[e := PassStep(stops, line.roster[e], arrives(li, j)).value]);
      && LineWellFormed(next, |stops|)
      && MoveFrom(stops, line, li, j, arrives) == MoveFrom(stops, next, li, j + 1, arrives)
      && FirstFault(stops, next, li, j + 1, arrives) == FirstFault(stops, line, li, j, arrives)
  {
    var e := line.movingTrams[j];
    var next := line.(roster := line.roster[e := PassStep(stops, line.roster[e], arrives(li, j)).value]);
    assert FirstFault(stops, line, li, j, arrives) == FirstFault(stops, line, li, j + 1, arrives);
    FirstFaultFrame(stops, line, next, li, j + 1, arrives);
  }

  /** The pass over one line faults exactly when some entry's step does, with the first such fault. */
  lemma {:induction false} MoveFromFault(stops: seq<TramStop>, line: TramLine, li: nat, j: nat,
                                         arrives: (nat, nat) -> bool)
    requires LineWellFormed(line, |stops|) && Distinct(line.movingTrams) && j <= |line.movingTrams|
    ensures
      var q := FirstFault(stops, line, li, j, arrives);
      var r := MoveFrom(stops, line, li, j, arrives);
      && (r.1.None? <==> q == |line.movingTrams|)
      && (q < |line.movingTrams| ==> r.1 == Some(PassStep(stops, line.roster[line.movingTrams[q]], arrives(li, q)).error))
    decreases |line.movingTrams| - j
  {
    if j < |line.movingTrams| {
      var e := line.movingTrams[j];
      var s := PassStep(stops, line.roster[e], arrives(li, j));
      if s.Ok? {
        var next := line.(roster := line.roster[e := s.value]);
        MoveFromNext(stops, line, li, j, arrives);
        MoveFromFault(stops, next, li, j + 1, arrives);
        var q := FirstFault(stops, line, li, j, arrives);
        if q < |line.movingTrams| {
          assert next.roster[line.movingTrams[q]] == line.roster[line.movingTrams[q]];
        }
      }
    }
  }

  /**
   * Entry `p` of the moving list after the pass from entry `j` on: before
   * the first fault its tram is stepped from the state it had at the start;
   * from the faulting entry on, it is left as it was.
   */
  lemma {:induction false} MoveFromStep(stops: seq<TramStop>, line: TramLine, li: nat, j: nat,
                                        arrives: (nat, nat) -> bool, p: nat)
    requires LineWellFormed(line, |stops|) && Distinct(line.movingTrams) && j <= p < |line.movingTrams|
    ensures
      var k := line.movingTrams[p];
      var s := PassStep(stops, line.roster[k], arrives(li, p));
      var q := FirstFault(stops, line, li, j, arrives);
      var r := MoveFrom(stops, line, li, j, arrives);
      && (p < q ==> s.Ok? && r.0.roster[k] == s.value)
      && (q <= p ==> r.0.roster[k] == line.roster[k])
    decreases |line.movingTrams| - j
  {
    var e := line.movingTrams[j];
    var s := PassStep(stops, line.roster[e], arrives(li, j));
    if s.Ok? {
      var next := line.(roster := line.roster[e := s.value]);
      MoveFromNext(stops, line, li, j, arrives);
      if p == j {
        MoveFromUntouched(stops, next, li, j + 1, arrives, e);
      } else {
        assert next.roster[line.movingTrams[p]] == line.roster[line.movingTrams[p]];
        MoveFromStep(stops, next, li, j + 1, arrives, p);
      }
    } else {
      assert MoveFrom(stops, line, li, j, arrives).0 == line;
    }
  }

  /**
   * move_tram_in_tram_line on one line: every entry of the moving list up to
   * the first fault has its tram replaced by that tram's step, the pass
   * reports that fault, and the entries from it on are left as they were.
   */
  lemma MoveFromSteps(stops: seq<TramStop>, line: TramLine, li: nat, arrives: (nat, nat) -> bool)
    requires LineWellFormed(line, |stops|) && Distinct(line.movingTrams)
    ensures
      var q := FirstFault(stops, line, li, 0, arrives);
      var r := MoveFrom(stops, line, li, 0, arrives);
      && (r.1.None? <==> q == |line.movingTrams|)
      && (q < |line.movingTrams| ==> r.1 == Some(PassStep(stops, line.roster[line.movingTrams[q]], arrives(li, q)).error))
      && (forall p :: 0 <= p < q ==>
            && PassStep(stops, line.roster[line.movingTrams[p]], arrives(li, p)).Ok?
            && r.0.roster[line.movingTrams[p]] == PassStep(stops, line.roster[line.movingTrams[p]], arrives(li, p)).value)
      && (forall p :: q <= p < |line.movingTrams| ==> r.0.roster[line.movingTrams[p]] == line.roster[line.movingTrams[p]])
  {
    MoveFromFault(stops, line, li, 0, arrives);
    forall p | 0 <= p < |line.movingTrams|
      ensures
        var k := line.movingTrams[p];
        var s := PassStep(stops, line.roster[k], arrives(li, p));
        var q := FirstFault(stops, line, li, 0, arrives);
        var r := MoveFrom(stops, line, li, 0, arrives);
        && (p < q ==> s.Ok? && r.0.roster[k] == s.value)
        && (q <= p ==> r.0.roster[k] == line.roster[k])
    {
      MoveFromStep(stops, line, li, 0, arrives, p);
    }
  }

  /**
   * The line, from `i` on, whose pass faults first when every line is moved
   * from its state at the start; the number of lines when none does.
   */
  function FirstLineFault(stops: seq<TramStop>, lines: seq<TramLine>, i: nat, arrives: (nat, nat) -> bool): (q: nat)
    requires WellFormed(stops, lines) && i <= |lines|
    ensures i <= q <= |lines|
    ensures q < |lines| ==> MoveFrom(stops, lines[q], q, 0, arrives).1.Some?
    decreases |lines| - i
  {
    if i == |lines| then i
    else if MoveFrom(stops, lines[i], i, 0, arrives).1.Some? then i
    else FirstLineFault(stops, lines, i + 1, arrives)
  }

  /** FirstLineFault looks only at the lines from `i` on. */
  lemma {:induction false} FirstLineFaultFrame(stops: seq<TramStop>, lines: seq<TramLine>, other: seq<TramLine>, i: nat,
                                               arrives: (nat, nat) -> bool)
    requires WellFormed(stops, lines) && WellFormed(stops, other) && |other| == |lines| && i <= |lines|
    requires forall k :: i <= k < |lines| ==> other[k] == lines[k]
    ensures FirstLineFault(stops, other, i, arrives) == FirstLineFault(stops, lines, i, arrives)
    decreases |lines| - i
  {
    if i < |lines| {
      assert other[i] == lines[i];
      FirstLineFaultFrame(stops, lines, other, i + 1, arrives);
    }
  }

  /** One line's pass without a fault, unfolded. */
  lemma MoveLinesNext(stops: seq<TramStop>, lines: seq<TramLine>, i: nat, arrives: (nat, nat) -> bool)
    requires WellFormed(stops, lines) && i < |lines| && MoveFrom(stops, lines[i], i, 0, arrives).1.None?
    ensures
      var next := lines[i := MoveFrom(stops, lines[i], i, 0, arrives).0];
      && WellFormed(stops, next)
      && MoveLinesFrom(stops, lines, i, arrives) == MoveLinesFrom(stops, next, i + 1, arrives)
      && FirstLineFault(stops, next, i + 1, arrives) == FirstLineFault(stops, lines, i, arrives)
  {
    var next := lines[i := MoveFrom(stops, lines[i], i, 0, arrives).0];
    assert FirstLineFault(stops, lines, i, arrives) == FirstLineFault(stops, lines, i + 1, arrives);
    FirstLineFaultFrame(stops, lines, next, i + 1, arrives);
  }

  /** The pass over the lines from `i` on reports the fault of the first line whose pass faults. */
  lemma {:induction false} MoveLinesFault(stops: seq<TramStop>, lines: seq<TramLine>, i: nat, arrives: (nat, nat) -> bool)
    requires WellFormed(stops, lines) && i <= |lines|
    ensures
      var q := FirstLineFault(stops, lines, i, arrives);
      var r := MoveLinesFrom(stops, lines, i, arrives);
      r.1 == (if q < |lines| then MoveFrom(stops, lines[q], q, 0, arrives).1 else None)
    decreases |lines| - i
  {
    if i < |lines| {
      var moved := MoveFrom(stops, lines[i], i, 0, arrives);
      var next := lines[i := moved.0];
      if moved.1.None? {
        MoveLinesNext(stops, lines, i, arrives);
        MoveLinesFault(stops, next, i + 1, arrives);
        var q := FirstLineFault(stops, lines, i, arrives);
        if q < |lines| {
          assert next[q] == lines[q];
        }
      }
    }
  }

  /**
   * Line `k` after the pass over the lines from `i` on: up to and including
   * the first faulting line it is that line's own pass; before `i` and after
   * the fault it is left as it was.
   */
  lemma {:induction false} MoveLinesStep(stops: seq<TramStop>, lines: seq<TramLine>, i: nat,
                                         arrives: (nat, nat) -> bool, k: nat)
    requires WellFormed(stops, lines) && i <= |lines| && k < |lines|
    ensures
      var q := FirstLineFault(stops, lines, i, arrives);
      var r := MoveLinesFrom(stops, lines, i, arrives);
      && (i <= k <= q ==> r.0[k] == MoveFrom(stops, lines[k], k, 0, arrives).0)
      && (k < i || q < k ==> r.0[k] == lines[k])
    decreases |lines| - i
  {
    if i < |lines| {
      var moved := MoveFrom(stops, lines[i], i, 0, arrives);
      var next := lines[i := moved.0];
      if moved.1.None? {
        MoveLinesNext(stops, lines, i, arrives);
        MoveLinesStep(stops, next, i + 1, arrives, k);
        assert next[k] == if k == i then moved.0 else lines[k];
      } else {
        assert MoveLinesFrom(stops, lines, i, arrives).0 == next;
        assert FirstLineFault(stops, lines, i, arrives) == i;
      }
    }
  }

  /**
   * One call of move_tram_in_tram_line: every line up to and including the
   * first one whose pass faults has been through its own pass
   * (MoveFromSteps says what that does to each tram), the call reports
   * that line's fault, and every later line is left as it was.
   */
  lemma MovePassSteps(stops: seq<TramStop>, lines: seq<TramLine>, arrives: (nat, nat) -> bool)
    requires WellFormed(stops, lines)
    ensures
      var q := FirstLineFault(stops, lines, 0, arrives);
      var r := MovePass(stops, lines, arrives);
      && (r.1.None? <==> q == |lines|)
      && (q < |lines| ==> r.1 == MoveFrom(stops, lines[q], q, 0, arrives).1)
      && (forall k :: 0 <= k < |lines| && k <= q ==> r.0[k] == MoveFrom(stops, lines[k], k, 0, arrives).0)
      && (forall k :: q < k < |lines| ==> r.0[k] == lines[k])
  {
    MoveLinesFault(stops, lines, 0, arrives);
    forall k | 0 <= k < |lines|
      ensures
        var q := FirstLineFault(stops, lines, 0, arrives);
        var r := MoveLinesFrom(stops, lines, 0, arrives);
        && (k <= q ==> r.0[k] == MoveFrom(stops, lines[k], k, 0, arrives).0)
        && (q < k ==> r.0[k] == lines[k])
    {
      MoveLinesStep(stops, lines, 0, arrives, k);
    }
  }

  // ---------------------------------------------------------------------------
  // The window's engine state

  /** TramSimulatorWindow without its Qt scene: the network it animates and its clock. */
  class TramSimulatorWindow {
    const network: TramNetwork
    const clock: Clock

    constructor (network: TramNetwork, clock: Clock)
      ensures this.network == network && this.clock == clock
    {
      this.network := network;
      this.clock := clock;
    }

    /**
     * The body of set_tram's inner loop for one tram of `line`: the tram's
     * new record, and whether create_tram placed it (so that its roster index
     * goes on the moving list).
     */
    method SetTramAt(line: TramLine, tram: Tram) returns (r: Tram, created: bool)
      requires |line.itinerary| > 0 && StopsIn(line.itinerary, |network.stops|)
      ensures r == ScheduledTram(network.stops, line, tram, clock.hours, clock.minutes)
      ensures created == Creates(line, tram, clock.hours, clock.minutes)
    {
      r := tram;
      created := false;
      if clock.minutes == 0 && clock.hours == 4 {
        r := RestartStartTime(line, r);
      }
      if clock.TimeInMinutes() == StartTime(line, r) {
        r := IncreaseTramInterval(line, r);
        if !r.move {
          r := CreateTram(network.stops, line.itinerary, r);
          created := true;
        }
        r := r.(activated := true, move := true);
      }
    }

    /** The inner loop of set_tram over one line's roster: the line as the loop leaves it. */
    method SetTramsOfLine(line: TramLine) returns (cur: TramLine)
      requires |line.itinerary| > 0 && StopsIn(line.itinerary, |network.stops|)
      ensures cur == ScheduledLine(network.stops, line, clock.hours, clock.minutes)
    {
      ghost var stops, hours, minutes := network.stops, clock.hours, clock.minutes;
      var roster, moving := line.roster, line.movingTrams;
      var k := 0;
      while k < |line.roster|
        invariant 0 <= k <= |line.roster| == |roster|
        invariant forall j :: 0 <= j < k ==> roster[j] == ScheduledTram(stops, line, line.roster[j], hours, minutes)
        invariant forall j :: k <= j < |line.roster| ==> roster[j] == line.roster[j]
        invariant moving == line.movingTrams + CreatedUpTo(line, hours, minutes, k)
      {
        var tram, created := SetTramAt(line, line.roster[k]);
        ghost var before := CreatedUpTo(line, hours, minutes, k);
        assert CreatedUpTo(line, hours, minutes, k + 1) == before + (if created then [k] else []);
        if created {
          moving := moving + [k];
          assert moving == line.movingTrams + (before + [k]);
        } else {
          assert before + [] == before;
        }
        roster := roster[k := tram];
        k := k + 1;
      }
      ScheduledRosterIs(stops, line, hours, minutes, roster);
      cur := line.(roster := roster, movingTrams := moving);
    }

    /** set_tram: the per-tick activation pass over every tram of every line. */
    method SetTram()
      requires WellFormed(network.stops, network.lines)
      modifies network
      ensures network.stops == old(network.stops)
      ensures network.lines == ScheduledLines(network.stops, old(network.lines), clock.hours, clock.minutes)
    {
      ghost var lines0 := network.lines;
      var i := 0;
      while i < |network.lines|
        invariant 0 <= i <= |network.lines| == |lines0|
        invariant network.stops == old(network.stops)
        invariant forall p :: 0 <= p < i ==>
          network.lines[p] == ScheduledLine(network.stops, lines0[p], clock.hours, clock.minutes)
        invariant forall p :: i <= p < |network.lines| ==> network.lines[p] == lines0[p]
      {
        var cur := SetTramsOfLine(network.lines[i]);
        network.lines := network.lines[i := cur];
        i := i + 1;
      }
      assert network.lines == ScheduledLines(network.stops, lines0, clock.hours, clock.minutes);
    }

    /** move_tram for one tram: the new tram record, or the exception the step raises. */
    method MoveTram(tram: Tram, arrived: bool) returns (r: Result<Tram, Fault>)
      requires StopsIn(tram.itinerary, |network.stops|)
      ensures r == MoveStep(network.stops, tram, arrived)
    {
      if tram.cursor + 1 >= |tram.itinerary| {
        return Err(IndexError);
      }
      var last := tram.itinerary[tram.cursor];
      var next := tram.itinerary[tram.cursor + 1];
      var distance := network.GetDistance(last, next);
      if distance.None? {
        return Err(NotConnected);
      }
      if distance.value == 0 {
        return Err(ZeroDistance);
      }
      if arrived {
        var stop := network.stops[next];
        return Ok(IncreaseLastTramStopNumber(tram.(x := stop.x, y := stop.y, lastStop := Some(next))));
      }
      return Ok(tram);
    }

    /**
     * The body of move_tram_in_tram_line's inner loop for one tram: an
     * activated tram either bounces at the end of its itinerary or takes a
     * movement step; any other tram is left alone.
     */
    method MoveTramAt(tram: Tram, arrived: bool) returns (r: Result<Tram, Fault>)
      requires StopsIn(tram.itinerary, |network.stops|)
      ensures r == PassStep(network.stops, tram, arrived)
    {
      if !tram.activated {
        return Ok(tram);
      }
      if |tram.itinerary| == 0 {
        return Err(IndexError);
      }
      if tram.lastStop != Some(tram.itinerary[|tram.itinerary| - 1]) {
        r := MoveTram(tram, arrived);
      } else {
        r := Ok(tram.(activated := false, itinerary := Reversed(tram.itinerary), cursor := 0));
      }
    }

    /**
     * The inner loop of move_tram_in_tram_line over the moving list of line
     * number `li`: the line as the loop leaves it, and the fault that ended
     * the loop early, if any.
     */
    method MoveTramsOfLine(line: TramLine, li: nat, arrives: (nat, nat) -> bool)
      returns (cur: TramLine, fault: Option<Fault>)
      requires LineWellFormed(line, |network.stops|)
      ensures (cur, fault) == MoveFrom(network.stops, line, li, 0, arrives)
    {
      ghost var stops := network.stops;
      cur := line;
      var j := 0;
      while j < |line.movingTrams|
        invariant 0 <= j <= |line.movingTrams|
        invariant cur == line.(roster := cur.roster) && |cur.roster| == |line.roster|
        invariant LineWellFormed(cur, |stops|)
        invariant MoveFrom(stops, cur, li, j, arrives) == MoveFrom(stops, line, li, 0, arrives)
      {
        var k := cur.movingTrams[j];
        var stepped := MoveTramAt(cur.roster[k], arrives(li, j));
        if stepped.Err? {
          return cur, Some(stepped.error);
        }
        cur := cur.(roster := cur.roster[k := stepped.value]);
        j := j + 1;
      }
      return cur, None;
    }

    /**
     * move_tram_in_tram_line: every entry of every moving list, in order; the
     * arrival answer for entry j of line i is arrives(i, j).
     */
    method MoveTramInTramLine(arrives: (nat, nat) -> bool) returns (fault: Option<Fault>)
      requires WellFormed(network.stops, network.lines)
      modifies network
      ensures network.stops == old(network.stops)
      ensures (network.lines, fault) == MovePass(network.stops, old(network.lines), arrives)
    {
      var i := 0;
      while i < |network.lines|
        invariant 0 <= i <= |network.lines|
        invariant network.stops == old(network.stops)
        invariant WellFormed(network.stops, network.lines)
        invariant MoveLinesFrom(network.stops, network.lines, i, arrives)
                  == MovePass(network.stops, old(network.lines), arrives)
      {
        var cur, f := MoveTramsOfLine(network.lines[i], i, arrives);
        network.lines := network.lines[i := cur];
        if f.Some? {
          return f;
        }
        i := i + 1;
      }
      return None;
    }

    /**
     * One timer tick: setup_tram (set_tram, then move_tram_in_tram_line) and
     * the increase_time call of display_time.  The tick keeps the network
     * well formed and the moving lists in step with the trams' flags.
     */
    method Tick(arrives: (nat, nat) -> bool) returns (fault: Option<Fault>)
      requires WellFormed(network.stops, network.lines)
      modifies network, clock
      ensures network.stops == old(network.stops)
      ensures WellFormed(network.stops,
                         ScheduledLines(network.stops, old(network.lines), old(clock.hours), old(clock.minutes)))
      ensures (network.lines, fault) ==
        MovePass(network.stops,
                 ScheduledLines(network.stops, old(network.lines), old(clock.hours), old(clock.minutes)),
                 arrives)
      ensures (clock.hours, clock.minutes) == NextTime(old(clock.hours), old(clock.minutes))
      ensures WellFormed(network.stops, network.lines)
      ensures old(Consistent(network.lines)) ==> Consistent(network.lines)
    {
      ghost var lines0 := network.lines;
      SetTram();
      ScheduledLinesWellFormed(network.stops, lines0, clock.hours, clock.minutes);
      if Consistent(lines0) {
        ScheduledLinesKeepConsistent(network.stops, lines0, clock.hours, clock.minutes);
      }
      ghost var lines1 := network.lines;
      fault := MoveTramInTramLine(arrives);
      if Consistent(lines1) {
        MoveLinesKeepConsistent(network.stops, lines1, 0, arrives);
      }
      clock.IncreaseTime();
    }
  }
}
