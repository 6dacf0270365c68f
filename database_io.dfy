/**
 * The three configuration readers.  A file is given as its sequence of lines;
 * every line is right-stripped and split on commas before it is read.  An
 * exception the Python readers raise is an error value here, and a reader
 * stops at the first one.
 */
module DatabaseIo {
  import opened Wrappers
  import opened Strings
  import opened Database

  /**
   * MalformedDataError, InvalidTramStopPositionError and
   * ConnectionAlreadySetError are the readers' own; UnboundStop is the
   * UnboundLocalError of a connection row naming an unknown stop before any
   * stop was found; ValueError is the uncaught int() failure of the line
   * reader; LineRejected carries TramLine's own constructor error.
   */
  datatype ReadError =
    | MalformedData
    | InvalidTramStopPosition
    | ConnectionAlreadySet
    | UnboundStop
    | ValueError
    | LineRejected(cause: LineError)

  /** line.rstrip().split(','). */
  function Fields(row: string): (r: seq<string>)
    ensures |r| >= 1
  {
    Split(RStrip(row), ',')
  }

  // ---------------------------------------------------------------------------
  // Stops

  /**
   * One stop row: exactly four fields (otherwise the tuple unpacking fails),
   * the last two of them integers; the stop starts with no connections.
   */
  function ParseStopRow(row: string): (r: Result<TramStop, ReadError>)
    ensures r.Err? ==> r.error == MalformedData
    ensures r.Ok? <==>
      var t := Fields(row);
      |t| == 4 && IsIntLiteral(t[2]) && IsIntLiteral(t[3])
    ensures r.Ok? ==>
      var t := Fields(row);
      && r.value.id == t[0] && r.value.name == t[1]
      && ParseInt(t[2]) == Some(r.value.x) && ParseInt(t[3]) == Some(r.value.y)
      && r.value.connected == []
  {
    var t := Fields(row);
    if |t| != 4 then Err(MalformedData)
    else
      var x := ParseInt(t[2]);
      var y := ParseInt(t[3]);
      if x.None? || y.None? then Err(MalformedData)
      else Ok(TramStop(t[0], t[1], x.value, y.value, []))
  }

  /** Some stop already read stands at (x, y). */
  predicate PositionTaken(stops: seq<TramStop>, x: int, y: int)
  {
    exists i :: 0 <= i < |stops| && stops[i].x == x && stops[i].y == y
  }

  /** No two stops share a position. */
  predicate DistinctPositions(stops: seq<TramStop>)
  {
    forall i, j :: 0 <= i < j < |stops| ==> stops[i].x != stops[j].x || stops[i].y != stops[j].y
  }

  /** The list after one more stop row. */
  function StopRow(list: seq<TramStop>, row: string): Result<seq<TramStop>, ReadError>
  {
    match ParseStopRow(row)
    case Err(e) => Err(e)
    case Ok(s) => if PositionTaken(list, s.x, s.y) then Err(InvalidTramStopPosition) else Ok(list + [s])
  }

  /** read_tram_stop on the given lines. */
  function ReadStops(rows: seq<string>): (r: Result<seq<TramStop>, ReadError>)
    ensures r.Err? ==> r.error == MalformedData || r.error == InvalidTramStopPosition
  {
    if |rows| == 0 then Ok([])
    else
      match ReadStops(rows[..|rows| - 1])
      case Err(e) => Err(e)
      case Ok(list) => StopRow(list, rows[|rows| - 1])
  }

  predicate AllStopRowsParse(rows: seq<string>)
  {
    forall i :: 0 <= i < |rows| ==> ParseStopRow(rows[i]).Ok?
  }

  /** The stops the rows describe, when every row parses. */
  function ParsedStops(rows: seq<string>): (r: seq<TramStop>)
    requires AllStopRowsParse(rows)
    ensures |r| == |rows|
  {
    seq(|rows|, i requires 0 <= i < |rows| && AllStopRowsParse(rows) => ParseStopRow(rows[i]).value)
  }

  /** Parsing a longer file parses its first rows the same way. */
  lemma ParsedStopsPrefix(rows: seq<string>, n: nat)
    requires AllStopRowsParse(rows) && n <= |rows|
    ensures AllStopRowsParse(rows[..n])
    ensures ParsedStops(rows[..n]) == ParsedStops(rows)[..n]
  {
    assert forall i :: 0 <= i < n ==> rows[..n][i] == rows[i];
  }

  /**
   * The stop reader succeeds exactly when every row is a well-formed stop
   * row and no two rows put a stop at the same position; it then returns
   * those stops, one per row, in file order.
   */
  lemma ReadStopsOk(rows: seq<string>)
    ensures ReadStops(rows).Ok? <==> AllStopRowsParse(rows) && DistinctPositions(ParsedStops(rows))
    ensures ReadStops(rows).Ok? ==> ReadStops(rows).value == ParsedStops(rows)
  {
    if AllStopRowsParse(rows) && DistinctPositions(ParsedStops(rows)) {
      ReadStopsComplete(rows);
    }
    if ReadStops(rows).Ok? {
      ReadStopsSound(rows);
    }
  }

  /** A read that succeeds parsed every row and found every position free. */
  lemma {:induction false} ReadStopsSound(rows: seq<string>)
    requires ReadStops(rows).Ok?
    ensures AllStopRowsParse(rows)
    ensures ReadStops(rows).value == ParsedStops(rows)
    ensures DistinctPositions(ParsedStops(rows))
  {
    if |rows| > 0 {
      var n := |rows| - 1;
      var init := rows[..n];
      ReadStopsSound(init);
      var prev := ParsedStops(init);
      assert StopRow(prev, rows[n]).Ok?;
      var s := ParseStopRow(rows[n]).value;
      ParsedStopsAppend(rows);
      DistinctAppend(prev, s);
    }
  }

  /** One more parsing row adds its stop at the end. */
  lemma ParsedStopsAppend(rows: seq<string>)
    requires |rows| > 0 && AllStopRowsParse(rows[..|rows| - 1]) && ParseStopRow(rows[|rows| - 1]).Ok?
    ensures AllStopRowsParse(rows)
    ensures ParsedStops(rows) == ParsedStops(rows[..|rows| - 1]) + [ParseStopRow(rows[|rows| - 1]).value]
  {
    var n := |rows| - 1;
    assert forall i :: 0 <= i < n ==> rows[..n][i] == rows[i];
  }

  /** A stop at a free position keeps the positions distinct. */
  lemma DistinctAppend(prev: seq<TramStop>, s: TramStop)
    requires DistinctPositions(prev) && !PositionTaken(prev, s.x, s.y)
    ensures DistinctPositions(prev + [s])
  {
    var all := prev + [s];
    forall i, j | 0 <= i < j < |all|
      ensures all[i].x != all[j].x || all[i].y != all[j].y
    {
      if j == |prev| {
        assert all[i] == prev[i];
      } else {
        assert all[i] == prev[i] && all[j] == prev[j];
      }
    }
  }

  /** When every row parses and every position is distinct, the read succeeds. */
  lemma {:induction false} ReadStopsComplete(rows: seq<string>)
    requires AllStopRowsParse(rows) && DistinctPositions(ParsedStops(rows))
    ensures ReadStops(rows).Ok?
  {
    if |rows| > 0 {
      var n := |rows| - 1;
      var init := rows[..n];
      var all := ParsedStops(rows);
      ParsedStopsPrefix(rows, n);
      var prev := ParsedStops(init);
      assert DistinctPositions(prev) by {
        assert forall i :: 0 <= i < n ==> prev[i] == all[i];
      }
      ReadStopsComplete(init);
      ReadStopsSound(init);
      var s := ParseStopRow(rows[n]).value;
      assert s == all[n];
    }
  }

  /** A failing row ends the read: no later row changes the error. */
  lemma {:induction false} ReadStopsErrorSticks(rows: seq<string>, more: seq<string>)
    requires ReadStops(rows).Err?
    ensures ReadStops(rows + more) == ReadStops(rows)
  {
    if |more| == 0 {
      assert rows + more == rows;
    } else {
      var m := more[..|more| - 1];
      ReadStopsErrorSticks(rows, m);
      assert (rows + more)[..|rows + more| - 1] == rows + m;
    }
  }

  /** When every row parses, the only way the read can fail is a taken position. */
  lemma {:induction false} ParsedRowsFailOnPosition(rows: seq<string>)
    requires AllStopRowsParse(rows)
    ensures ReadStops(rows).Err? ==> ReadStops(rows).error == InvalidTramStopPosition
  {
    if |rows| > 0 {
      var n := |rows| - 1;
      assert AllStopRowsParse(rows[..n]) by {
        assert forall i :: 0 <= i < n ==> rows[..n][i] == rows[i];
      }
      ParsedRowsFailOnPosition(rows[..n]);
      assert ParseStopRow(rows[n]).Ok?;
    }
  }

  /**
   * A file of well-formed rows that puts two stops at one position fails
   * with InvalidTramStopPosition, not with MalformedData.
   */
  lemma ReadStopsClash(rows: seq<string>)
    requires AllStopRowsParse(rows) && !DistinctPositions(ParsedStops(rows))
    ensures ReadStops(rows) == Err(InvalidTramStopPosition)
  {
    ReadStopsOk(rows);
    ParsedRowsFailOnPosition(rows);
  }

  /**
   * The row at which a read that was going well fails decides the error: a
   * malformed row gives MalformedData, a well-formed row at a taken position
   * gives InvalidTramStopPosition.
   */
  lemma ReadStopsFirstError(rows: seq<string>, i: nat)
    requires i < |rows| && ReadStops(rows[..i]).Ok?
    ensures ParseStopRow(rows[i]).Err? ==> ReadStops(rows) == Err(MalformedData)
    ensures
      var s := ParseStopRow(rows[i]);
      s.Ok? && PositionTaken(ReadStops(rows[..i]).value, s.value.x, s.value.y) ==>
      ReadStops(rows) == Err(InvalidTramStopPosition)
  {
    var pre := rows[..i + 1];
    var list := ReadStops(rows[..i]).value;
    assert pre[..i] == rows[..i] && pre[i] == rows[i];
    assert ReadStops(pre) == StopRow(list, rows[i]);
    if StopRow(list, rows[i]).Err? {
      ReadStopsErrorSticks(pre, rows[i + 1..]);
      assert pre + rows[i + 1..] == rows;
    }
  }

  /** The row text that describes a stop: id, name, x and y separated by commas. */
  function StopRowText(s: TramStop): string
  {
    s.id + "," + s.name + "," + Show(s.x) + "," + Show(s.y)
  }

  lemma ShowEndsInDigit(n: int)
    ensures |Show(n)| > 0 && IsDigit(Show(n)[|Show(n)| - 1])
  {
    if n < 0 {
      assert Show(n)[|Show(n)| - 1] == ShowNat(-n)[|ShowNat(-n)| - 1];
    }
  }

  lemma ShowHasNoComma(n: int)
    ensures ',' !in Show(n)
  {
    if n < 0 {
      assert forall i :: 1 <= i < |Show(n)| ==> Show(n)[i] == ShowNat(-n)[i - 1];
    }
  }

  /**
   * A stop whose id and name hold no comma is read back from its own row
   * text unchanged (with no connections yet).
   */
  lemma StopRowRoundTrip(s: TramStop)
    requires ',' !in s.id && ',' !in s.name && s.connected == []
    ensures ParseStopRow(StopRowText(s)) == Ok(s)
  {
    ShowEndsInDigit(s.y);
    ShowHasNoComma(s.x);
    ShowHasNoComma(s.y);
    FourFields(s.id, s.name, Show(s.x), Show(s.y));
    ParseShow(s.x);
    ParseShow(s.y);
  }

  /** Four comma-free pieces joined by commas, ending in a digit, are read back as four fields. */
  lemma FourFields(a: string, b: string, c: string, d: string)
    requires ',' !in a && ',' !in b && ',' !in c && ',' !in d
    requires |d| > 0 && IsDigit(d[|d| - 1])
    ensures Fields(a + "," + b + "," + c + "," + d) == [a, b, c, d]
  {
    var row := a + "," + b + "," + c + "," + d;
    assert row[|row| - 1] == d[|d| - 1];
    RStripEndsInDigit(row);
    SplitFour(a, b, c, d);
  }

  lemma SplitFour(a: string, b: string, c: string, d: string)
    requires ',' !in a && ',' !in b && ',' !in c && ',' !in d
    ensures Split(a + "," + b + "," + c + "," + d, ',') == [a, b, c, d]
  {
    var p3 := c + [','] + d;
    var p2 := b + [','] + p3;
    var p1 := a + [','] + p2;
    assert a + "," + b + "," + c + "," + d == p1;
    SplitNoSep(d, ',');
    SplitAfterPiece(c, d, ',');
    SplitAfterPiece(b, p3, ',');
    SplitAfterPiece(a, p2, ',');
  }

  /** CheckPosition: the scan of the stops read so far for one at (x, y). */
  method CheckPosition(stops: seq<TramStop>, x: int, y: int) returns (taken: bool)
    ensures taken <==> PositionTaken(stops, x, y)
  {
    var i := 0;
    while i < |stops|
      invariant 0 <= i <= |stops|
      invariant forall k :: 0 <= k < i ==> stops[k].x != x || stops[k].y != y
    {
      if stops[i].x == x && stops[i].y == y {
        return true;
      }
      i := i + 1;
    }
    return false;
  }

  /** read_tram_stop: the stops of the file, or the first error. */
  method ReadTramStop(rows: seq<string>) returns (r: Result<seq<TramStop>, ReadError>)
    ensures r == ReadStops(rows)
  {
    var list: seq<TramStop> := [];
    var i := 0;
    while i < |rows|
      invariant 0 <= i <= |rows|
      invariant ReadStops(rows[..i]) == Ok(list)
    {
      assert rows[..i + 1][..i] == rows[..i];
      var t := Fields(rows[i]);
      if |t| != 4 {
        ReadStopsErrorSticks(rows[..i + 1], rows[i + 1..]);
        assert rows[..i + 1] + rows[i + 1..] == rows;
        return Err(MalformedData);
      }
      var x := ParseInt(t[2]);
      var y := ParseInt(t[3]);
      if x.None? || y.None? {
        ReadStopsErrorSticks(rows[..i + 1], rows[i + 1..]);
        assert rows[..i + 1] + rows[i + 1..] == rows;
        return Err(MalformedData);
      }
      var taken := CheckPosition(list, x.value, y.value);
      if taken {
        ReadStopsErrorSticks(rows[..i + 1], rows[i + 1..]);
        assert rows[..i + 1] + rows[i + 1..] == rows;
        return Err(InvalidTramStopPosition);
      }
      list := list + [TramStop(t[0], t[1], x.value, y.value, [])];
      i := i + 1;
    }
    assert rows[..i] == rows;
    return Ok(list);
  }

  // ---------------------------------------------------------------------------
  // Connections

  /**
   * The stop the reader's lookup loop leaves in its variable: the last stop
   * with the id, or, when none has it, whatever the variable held before.
   */
  function LastWithId(stops: seq<TramStop>, id: string, prev: Option<nat>): (r: Option<nat>)
    ensures (exists i :: 0 <= i < |stops| && stops[i].id == id) ==>
      && r.Some? && r.value < |stops| && stops[r.value].id == id
      && forall j :: r.value < j < |stops| ==> stops[j].id != id
    ensures (forall i :: 0 <= i < |stops| ==> stops[i].id != id) ==> r == prev
  {
    if |stops| == 0 then prev
    else if stops[|stops| - 1].id == id then Some(|stops| - 1)
    else
      var r := LastWithId(stops[..|stops| - 1], id, prev);
      assert forall i :: 0 <= i < |stops| - 1 ==> stops[..|stops| - 1][i] == stops[i];
      r
  }

  /**
   * What the connection reader carries from row to row: the stops, and the
   * two lookup variables, which keep their values between rows.
   */
  datatype ConnState = ConnState(stops: seq<TramStop>, a: Option<nat>, b: Option<nat>)

  predicate ConnStateValid(st: ConnState)
  {
    && (st.a.Some? ==> st.a.value < |st.stops|)
    && (st.b.Some? ==> st.b.value < |st.stops|)
  }

  /** The errors the connection reader can raise. */
  predicate ConnectionReadError(e: ReadError)
  {
    e == MalformedData || e == UnboundStop || e == ConnectionAlreadySet
  }

  /**
   * One connection row: exactly three fields; both stop variables bound; the
   * pair not yet recorded on the second stop (check_connection); an integer
   * time; then add_connected_stop.
   */
  function ConnectRow(st: ConnState, row: string): (r: Result<ConnState, ReadError>)
    requires ConnStateValid(st)
    ensures r.Ok? ==> ConnStateValid(r.value) && |r.value.stops| == |st.stops|
    ensures |Fields(row)| != 3 ==> r == Err(MalformedData)
    ensures r.Ok? ==> IsIntLiteral(Fields(row)[2])
    ensures r.Err? ==> ConnectionReadError(r.error)
    ensures
      var t := Fields(row);
      |t| == 3 && (LastWithId(st.stops, t[0], st.a).None? || LastWithId(st.stops, t[1], st.b).None?) ==>
      r == Err(UnboundStop)
  {
    var t := Fields(row);
    if |t| != 3 then Err(MalformedData)
    else
      var a := LastWithId(st.stops, t[0], st.a);
      var b := LastWithId(st.stops, t[1], st.b);
      if a.None? || b.None? then Err(UnboundStop)
      else if Linked(st.stops[b.value], a.value) then Err(ConnectionAlreadySet)
      else
        match ParseInt(t[2])
        case None => Err(MalformedData)
        case Some(d) => Ok(ConnState(Connect(st.stops, a.value, b.value, d), a, b))
  }

  /**
   * The connection rows from `st` on: the stops as they are when the reader
   * stops, and the error that stopped it, if any.  Connections made before a
   * failing row stay made.
   */
  function ApplyConnections(st: ConnState, rows: seq<string>): (r: (seq<TramStop>, Option<ReadError>))
    requires ConnStateValid(st)
    ensures |r.0| == |st.stops|
    ensures r.1.Some? ==> ConnectionReadError(r.1.value)
    decreases |rows|
  {
    if |rows| == 0 then (st.stops, None)
    else
      match ConnectRow(st, rows[0])
      case Err(e) => (st.stops, Some(e))
      case Ok(next) => ApplyConnections(next, rows[1..])
  }

  /** read_tram_stop_connection on a network whose stops are `stops`. */
  function ReadConnections(stops: seq<TramStop>, rows: seq<string>): (r: (seq<TramStop>, Option<ReadError>))
    ensures |r.0| == |stops|
    ensures r.1.Some? ==> ConnectionReadError(r.1.value)
    ensures |rows| == 0 ==> r == (stops, None)
  {
    ApplyConnections(ConnState(stops, None, None), rows)
  }

  /** Two stop lists agree on everything but their connections. */
  predicate SameStops(s: seq<TramStop>, t: seq<TramStop>)
  {
    && |s| == |t|
    && forall i :: 0 <= i < |s| ==> s[i].id == t[i].id && s[i].name == t[i].name && s[i].x == t[i].x && s[i].y == t[i].y
  }

  /** Every stop of `t` keeps the connections it has in `s` as a prefix. */
  predicate Extends(s: seq<TramStop>, t: seq<TramStop>)
  {
    && SameStops(s, t)
    && forall i :: 0 <= i < |s| ==> s[i].connected <= t[i].connected
  }

  lemma ExtendsTransitive(s: seq<TramStop>, t: seq<TramStop>, u: seq<TramStop>)
    requires Extends(s, t) && Extends(t, u)
    ensures Extends(s, u)
  {
    forall i | 0 <= i < |s|
      ensures s[i].connected <= u[i].connected
    {
      assert s[i].connected <= t[i].connected <= u[i].connected;
    }
  }

  /**
   * The connection reader only ever appends connections: no stop changes its
   * id, name or position, and no connection is removed or reordered.
   */
  lemma {:induction false} ApplyConnectionsExtends(st: ConnState, rows: seq<string>)
    requires ConnStateValid(st)
    ensures Extends(st.stops, ApplyConnections(st, rows).0)
    decreases |rows|
  {
    if |rows| > 0 {
      match ConnectRow(st, rows[0])
      case Err(_) =>
      case Ok(next) =>
        ConnectRowExtends(st, rows[0]);
        ApplyConnectionsExtends(next, rows[1..]);
        ExtendsTransitive(st.stops, next.stops, ApplyConnections(next, rows[1..]).0);
    }
  }

  /** add_connected_stop appends to the two stops' lists and changes nothing else. */
  lemma ConnectExtends(stops: seq<TramStop>, a: nat, b: nat, d: int)
    requires a < |stops| && b < |stops|
    ensures Extends(stops, Connect(stops, a, b, d))
  {
    var r := Connect(stops, a, b, d);
    forall i | 0 <= i < |stops|
      ensures r[i].id == stops[i].id && r[i].name == stops[i].name && r[i].x == stops[i].x && r[i].y == stops[i].y
      ensures stops[i].connected <= r[i].connected
    {
    }
  }

  lemma ConnectRowExtends(st: ConnState, row: string)
    requires ConnStateValid(st) && ConnectRow(st, row).Ok?
    ensures Extends(st.stops, ConnectRow(st, row).value.stops)
  {
    var t := Fields(row);
    var a := LastWithId(st.stops, t[0], st.a);
    var b := LastWithId(st.stops, t[1], st.b);
    var d := ParseInt(t[2]).value;
    assert ConnectRow(st, row).value.stops == Connect(st.stops, a.value, b.value, d);
    ConnectExtends(st.stops, a.value, b.value, d);
  }

  /** The connection reader keeps every connection recorded on both of its stops. */
  lemma {:induction false} ApplyConnectionsKeepSymmetric(st: ConnState, rows: seq<string>)
    requires ConnStateValid(st) && Symmetric(st.stops)
    ensures Symmetric(ApplyConnections(st, rows).0)
    decreases |rows|
  {
    if |rows| > 0 {
      var r := ConnectRow(st, rows[0]);
      if r.Ok? {
        ConnectRowKeepsSymmetric(st, rows[0]);
        ApplyConnectionsKeepSymmetric(r.value, rows[1..]);
      }
    }
  }

  lemma ConnectRowKeepsSymmetric(st: ConnState, row: string)
    requires ConnStateValid(st) && Symmetric(st.stops)
    requires ConnectRow(st, row).Ok?
    ensures Symmetric(ConnectRow(st, row).value.stops)
  {
    var t := Fields(row);
    var next := ConnectRow(st, row).value;
    var d := ParseInt(t[2]).value;
    assert next.stops == Connect(st.stops, next.a.value, next.b.value, d);
    ConnectKeepsSymmetric(st.stops, next.a.value, next.b.value, d);
  }

  /** Stops read from a stop file have no connections, so they are trivially symmetric. */
  lemma UnconnectedSymmetric(stops: seq<TramStop>)
    requires forall i :: 0 <= i < |stops| ==> stops[i].connected == []
    ensures Symmetric(stops)
  {
    forall a, b | 0 <= a < |stops| && 0 <= b < |stops|
      ensures !Linked(stops[a], b) && !Linked(stops[b], a)
    {
    }
  }

  /**
   * A row fails on an unbound stop variable exactly when it has three fields
   * and one of its ids names no stop while no earlier row has set that
   * variable.
   */
  lemma ConnectRowUnbound(st: ConnState, row: string)
    requires ConnStateValid(st)
    ensures ConnectRow(st, row) == Err(UnboundStop) <==>
      var t := Fields(row);
      && |t| == 3
      && (|| (st.a.None? && forall i :: 0 <= i < |st.stops| ==> st.stops[i].id != t[0])
          || (st.b.None? && forall i :: 0 <= i < |st.stops| ==> st.stops[i].id != t[1]))
  {
    var t := Fields(row);
    if ConnectRow(st, row) == Err(UnboundStop) {
      if LastWithId(st.stops, t[0], st.a).None? {
        assert st.a.None?;
      } else {
        assert LastWithId(st.stops, t[1], st.b).None?;
      }
    }
  }

  /**
   * A three-field row is accepted exactly when both stop variables are bound
   * after the lookups, the second stop does not yet list the first, and the
   * time is an integer; the stops are then connected at that time, and the
   * looked-up stops are carried to the next row.
   */
  lemma ConnectRowAccepted(st: ConnState, row: string)
    requires ConnStateValid(st) && |Fields(row)| == 3
    ensures
      var t := Fields(row);
      var a := LastWithId(st.stops, t[0], st.a);
      var b := LastWithId(st.stops, t[1], st.b);
      && (ConnectRow(st, row).Ok? <==>
            a.Some? && b.Some? && !Linked(st.stops[b.value], a.value) && ParseInt(t[2]).Some?)
      && (ConnectRow(st, row).Ok? ==>
            ConnectRow(st, row).value == ConnState(Connect(st.stops, a.value, b.value, ParseInt(t[2]).value), a, b))
  {
  }

  /**
   * In a symmetric network a row naming an already connected pair is
   * rejected whichever way round it names them.
   */
  lemma ConnectRowRejectsKnownPair(st: ConnState, row: string)
    requires ConnStateValid(st) && Symmetric(st.stops)
    requires |Fields(row)| == 3
    requires
      var t := Fields(row);
      var a := LastWithId(st.stops, t[0], st.a);
      var b := LastWithId(st.stops, t[1], st.b);
      a.Some? && b.Some? && Linked(st.stops[a.value], b.value)
    ensures ConnectRow(st, row) == Err(ConnectionAlreadySet)
  {
  }

  /**
   * A row naming two bound, unconnected stops with a time that is not an
   * integer fails with MalformedData (int() raises ValueError).
   */
  lemma ConnectRowBadTime(st: ConnState, row: string)
    requires ConnStateValid(st) && |Fields(row)| == 3
    requires
      var t := Fields(row);
      var a := LastWithId(st.stops, t[0], st.a);
      var b := LastWithId(st.stops, t[1], st.b);
      a.Some? && b.Some? && !Linked(st.stops[b.value], a.value) && !IsIntLiteral(t[2])
    ensures ConnectRow(st, row) == Err(MalformedData)
  {
  }

  /**
   * In a symmetric network an accepted row makes get_distance read the row's
   * time in both directions.
   */
  lemma ConnectRowFreshDistance(st: ConnState, row: string)
    requires ConnStateValid(st) && Symmetric(st.stops)
    requires ConnectRow(st, row).Ok?
    ensures
      var next := ConnectRow(st, row).value;
      var d := ParseInt(Fields(row)[2]);
      && d.Some?
      && Distance(next.stops[next.a.value].connected, next.b.value) == d
      && Distance(next.stops[next.b.value].connected, next.a.value) == d
  {
    var t := Fields(row);
    var next := ConnectRow(st, row).value;
    ConnectFreshDistance(st.stops, next.a.value, next.b.value, ParseInt(t[2]).value);
  }

  /** The lookup loop of the connection reader, for both ids at once. */
  method FindStops(stops: seq<TramStop>, idA: string, idB: string, prevA: Option<nat>, prevB: Option<nat>)
    returns (a: Option<nat>, b: Option<nat>)
    ensures a == LastWithId(stops, idA, prevA)
    ensures b == LastWithId(stops, idB, prevB)
  {
    a, b := prevA, prevB;
    var k := 0;
    while k < |stops|
      invariant 0 <= k <= |stops|
      invariant a == LastWithId(stops[..k], idA, prevA)
      invariant b == LastWithId(stops[..k], idB, prevB)
    {
      assert stops[..k + 1][..k] == stops[..k];
      if idA == stops[k].id {
        a := Some(k);
      }
      if idB == stops[k].id {
        b := Some(k);
      }
      k := k + 1;
    }
    assert stops[..k] == stops;
  }

  /** check_connection: whether stop `b` already lists stop `a`. */
  method CheckConnection(stops: seq<TramStop>, a: nat, b: nat) returns (linked: bool)
    requires b < |stops|
    ensures linked <==> Linked(stops[b], a)
  {
    var connected := stops[b].connected;
    var i := 0;
    while i < |connected|
      invariant 0 <= i <= |connected|
      invariant forall k :: 0 <= k < i ==> connected[k].stop != a
    {
      if connected[i].stop == a {
        return true;
      }
      i := i + 1;
    }
    return false;
  }

  /**
   * read_tram_stop_connection: the network's stops end as the rows leave
   * them, and the error that stopped the reader is returned.
   */
  method ReadTramStopConnection(rows: seq<string>, network: TramNetwork) returns (err: Option<ReadError>)
    modifies network
    ensures (network.stops, err) == ReadConnections(old(network.stops), rows)
    ensures network.lines == old(network.lines)
  {
    var a: Option<nat> := None;
    var b: Option<nat> := None;
    var i := 0;
    while i < |rows|
      invariant 0 <= i <= |rows|
      invariant ConnStateValid(ConnState(network.stops, a, b))
      invariant ApplyConnections(ConnState(network.stops, a, b), rows[i..]) == ReadConnections(old(network.stops), rows)
      invariant network.lines == old(network.lines)
    {
      var t := Fields(rows[i]);
      if |t| != 3 {
        return Some(MalformedData);
      }
      a, b := FindStops(network.stops, t[0], t[1], a, b);
      if a.None? || b.None? {
        return Some(UnboundStop);
      }
      var linked := CheckConnection(network.stops, a.value, b.value);
      if linked {
        return Some(ConnectionAlreadySet);
      }
      var d := ParseInt(t[2]);
      if d.None? {
        return Some(MalformedData);
      }
      network.AddConnectedStop(a.value, b.value, d.value);
      assert rows[i..][1..] == rows[i + 1..];
      i := i + 1;
    }
    return None;
  }

  // ---------------------------------------------------------------------------
  // Lines

  /** The indices of the stops with the id, in network order. */
  function MatchesOf(stops: seq<TramStop>, id: string): seq<nat>
  {
    if |stops| == 0 then []
    else
      var n := |stops| - 1;
      var p := MatchesOf(stops[..n], id);
      if stops[n].id == id then p + [n] else p
  }

  /**
   * MatchesOf lists every stop carrying the id and no other, each once, in
   * increasing order.
   */
  lemma {:induction false} MatchesOfSpec(stops: seq<TramStop>, id: string)
    ensures forall j :: 0 <= j < |MatchesOf(stops, id)| ==>
      MatchesOf(stops, id)[j] < |stops| && stops[MatchesOf(stops, id)[j]].id == id
    ensures forall j, k :: 0 <= j < k < |MatchesOf(stops, id)| ==> MatchesOf(stops, id)[j] < MatchesOf(stops, id)[k]
    ensures forall i :: 0 <= i < |stops| && stops[i].id == id ==> i in MatchesOf(stops, id)
  {
    if |stops| > 0 {
      var n := |stops| - 1;
      MatchesOfSpec(stops[..n], id);
      assert forall i :: 0 <= i < n ==> stops[..n][i] == stops[i];
    }
  }

  /**
   * The line's itinerary: for each id in turn, every stop of the network that
   * carries it; an id no stop carries contributes nothing.
   */
  function ResolveIds(stops: seq<TramStop>, ids: seq<string>): seq<nat>
  {
    if |ids| == 0 then []
    else ResolveIds(stops, ids[..|ids| - 1]) + MatchesOf(stops, ids[|ids| - 1])
  }

  /** Every stop of a resolved itinerary is a stop of the network. */
  lemma {:induction false} ResolveIdsInRange(stops: seq<TramStop>, ids: seq<string>)
    ensures StopsIn(ResolveIds(stops, ids), |stops|)
  {
    if |ids| > 0 {
      var a := ResolveIds(stops, ids[..|ids| - 1]);
      var b := MatchesOf(stops, ids[|ids| - 1]);
      ResolveIdsInRange(stops, ids[..|ids| - 1]);
      MatchesOfSpec(stops, ids[|ids| - 1]);
      var r := ResolveIds(stops, ids);
      assert r == a + b;
      forall j | 0 <= j < |r|
        ensures r[j] < |stops|
      {
        if j < |a| {
          assert r[j] == a[j] && a[j] < |stops|;
        } else {
          var k := j - |a|;
          assert 0 <= k < |b| && r[j] == b[k];
          assert b[k] < |stops|;
        }
      }
    }
  }

  /** Resolving the ids of two lists one after the other is resolving their concatenation. */
  lemma {:induction false} ResolveIdsAppend(stops: seq<TramStop>, ids: seq<string>, more: seq<string>)
    ensures ResolveIds(stops, ids + more) == ResolveIds(stops, ids) + ResolveIds(stops, more)
  {
    if |more| == 0 {
      assert ids + more == ids;
    } else {
      var m := more[..|more| - 1];
      var last := more[|more| - 1];
      ResolveIdsAppend(stops, ids, m);
      var all := ids + more;
      assert all[..|all| - 1] == ids + m && all[|all| - 1] == last;
      assert ResolveIds(stops, all) == ResolveIds(stops, ids + m) + MatchesOf(stops, last);
      assert ResolveIds(stops, more) == ResolveIds(stops, m) + MatchesOf(stops, last);
    }
  }

  lemma NoMatches(stops: seq<TramStop>, id: string)
    requires forall i :: 0 <= i < |stops| ==> stops[i].id != id
    ensures MatchesOf(stops, id) == []
  {
    MatchesOfSpec(stops, id);
  }

  /** An id that no stop carries is dropped from the itinerary. */
  lemma ResolveIdsDropsUnknown(stops: seq<TramStop>, ids: seq<string>, id: string, more: seq<string>)
    requires forall i :: 0 <= i < |stops| ==> stops[i].id != id
    ensures ResolveIds(stops, ids + [id] + more) == ResolveIds(stops, ids + more)
  {
    var a := ResolveIds(stops, ids);
    var b := ResolveIds(stops, more);
    ResolveIdsAppend(stops, ids + [id], more);
    ResolveIdsAppend(stops, ids, [id]);
    ResolveIdsAppend(stops, ids, more);
    NoMatches(stops, id);
    assert [id][..0] == [];
    assert ResolveIds(stops, [id]) == [];
    assert ResolveIds(stops, ids + [id]) == a;
  }

  /** Every stop carries its own id. */
  predicate UniqueIds(stops: seq<TramStop>)
  {
    forall i, j :: 0 <= i < j < |stops| ==> stops[i].id != stops[j].id
  }

  /** Every id names some stop. */
  predicate KnownIds(stops: seq<TramStop>, ids: seq<string>)
  {
    forall k :: 0 <= k < |ids| ==> exists i :: 0 <= i < |stops| && stops[i].id == ids[k]
  }

  lemma {:induction false} SingleMatch(stops: seq<TramStop>, id: string, i: nat)
    requires UniqueIds(stops) && i < |stops| && stops[i].id == id
    ensures MatchesOf(stops, id) == [i]
  {
    var n := |stops| - 1;
    var init := stops[..n];
    assert forall k :: 0 <= k < n ==> init[k] == stops[k];
    if n == i {
      NoMatches(init, id);
    } else {
      assert stops[i].id != stops[n].id;
      SingleMatch(init, id, i);
    }
  }

  /**
   * With one stop per id and every id known, the itinerary lists exactly the
   * named stops, one per id, in the order of the row.
   */
  lemma {:induction false} ResolveIdsUnique(stops: seq<TramStop>, ids: seq<string>)
    requires UniqueIds(stops) && KnownIds(stops, ids)
    ensures StopsIn(ResolveIds(stops, ids), |stops|)
    ensures |ResolveIds(stops, ids)| == |ids|
    ensures forall k :: 0 <= k < |ids| ==> stops[ResolveIds(stops, ids)[k]].id == ids[k]
  {
    ResolveIdsInRange(stops, ids);
    if |ids| > 0 {
      var n := |ids| - 1;
      var init := ids[..n];
      assert KnownIds(stops, init) by {
        assert forall k :: 0 <= k < n ==> init[k] == ids[k];
      }
      ResolveIdsUnique(stops, init);
      assert exists i :: 0 <= i < |stops| && stops[i].id == ids[n];
      var i :| 0 <= i < |stops| && stops[i].id == ids[n];
      SingleMatch(stops, ids[n], i);
      var r := ResolveIds(stops, ids);
      ResolveIdsInRange(stops, ids);
      ResolveIdsInRange(stops, init);
      assert r == ResolveIds(stops, init) + [i];
      forall k | 0 <= k < |ids|
        ensures stops[r[k]].id == ids[k]
      {
        if k < n {
          assert r[k] == ResolveIds(stops, init)[k] && init[k] == ids[k];
        }
      }
    }
  }

  /** The errors the line reader can raise. */
  predicate LineReadError(e: ReadError)
  {
    e == MalformedData || e == ValueError || e.LineRejected?
  }

  /** Each of the hour, minute and interval fields that the row has is an integer. */
  predicate TimetableFieldsParse(t: seq<string>)
  {
    && (|t| > 1 ==> IsIntLiteral(t[1]))
    && (|t| > 2 ==> IsIntLiteral(t[2]))
    && (|t| > 3 ==> IsIntLiteral(t[3]))
  }

  /**
   * One line row: the name, then the start hour, start minute and interval
   * (a missing field is MalformedData, a field that is not an integer is an
   * uncaught ValueError, checked field by field in that order), then the
   * stop ids; TramLine's constructor then checks the timetable.
   */
  function LineRow(stops: seq<TramStop>, row: string): (r: Result<TramLine, ReadError>)
    ensures r.Ok? ==>
      var t := Fields(row);
      && |t| >= 4
      && r.value.name == t[0]
      && ParseInt(t[1]) == Some(r.value.hoursStart)
      && ParseInt(t[2]) == Some(r.value.minutesStart)
      && ParseInt(t[3]) == Some(r.value.interval)
      && r.value.itinerary == ResolveIds(stops, t[4..])
      && r.value.roster == [] && r.value.movingTrams == []
      && ValidTimetable(r.value)
    ensures r == Err(MalformedData) ==> |Fields(row)| < 4
    ensures
      var t := Fields(row);
      |t| >= 4 && IsIntLiteral(t[1]) && IsIntLiteral(t[2]) && IsIntLiteral(t[3]) ==>
        (r.Ok? <==> 0 <= ParseInt(t[1]).value <= 23 && 0 <= ParseInt(t[2]).value <= 59 && ParseInt(t[3]).value > 0)
    ensures r.Err? ==> LineReadError(r.error)
  {
    var t := Fields(row);
    if |t| < 2 then Err(MalformedData)
    else if ParseInt(t[1]).None? then Err(ValueError)
    else if |t| < 3 then Err(MalformedData)
    else if ParseInt(t[2]).None? then Err(ValueError)
    else if |t| < 4 then Err(MalformedData)
    else if ParseInt(t[3]).None? then Err(ValueError)
    else
      match NewTramLine(t[0], ResolveIds(stops, t[4..]), ParseInt(t[1]).value, ParseInt(t[2]).value, ParseInt(t[3]).value)
      case Err(e) => Err(LineRejected(e))
      case Ok(line) => Ok(line)
  }

  /**
   * Which error a line row raises: ValueError exactly when a hour, minute or
   * interval field that is present is not an integer; MalformedData when the
   * row stops before its interval (the IndexError the reader catches); and
   * otherwise TramLine's constructor decides, the time before the interval.
   */
  lemma LineRowErrors(stops: seq<TramStop>, row: string)
    ensures LineRow(stops, row) == Err(ValueError) <==> !TimetableFieldsParse(Fields(row))
    ensures TimetableFieldsParse(Fields(row)) && |Fields(row)| < 4 ==> LineRow(stops, row) == Err(MalformedData)
    ensures
      var t := Fields(row);
      |t| >= 4 && IsIntLiteral(t[1]) && IsIntLiteral(t[2]) && IsIntLiteral(t[3])
      && !(0 <= ParseInt(t[1]).value <= 23 && 0 <= ParseInt(t[2]).value <= 59) ==>
        LineRow(stops, row) == Err(LineRejected(InvalidTime))
    ensures
      var t := Fields(row);
      |t| >= 4 && IsIntLiteral(t[1]) && IsIntLiteral(t[2]) && IsIntLiteral(t[3])
      && 0 <= ParseInt(t[1]).value <= 23 && 0 <= ParseInt(t[2]).value <= 59 && ParseInt(t[3]).value <= 0 ==>
        LineRow(stops, row) == Err(LineRejected(InvalidInterval))
  {
  }

  /** read_tram_line on the given lines, resolving ids against `stops`. */
  function ReadLines(stops: seq<TramStop>, rows: seq<string>): (r: Result<seq<TramLine>, ReadError>)
    ensures r.Err? ==> LineReadError(r.error)
    ensures |rows| == 0 ==> r == Ok([])
  {
    if |rows| == 0 then Ok([])
    else
      match ReadLines(stops, rows[..|rows| - 1])
      case Err(e) => Err(e)
      case Ok(lines) =>
        match LineRow(stops, rows[|rows| - 1])
        case Err(e) => Err(e)
        case Ok(line) => Ok(lines + [line])
  }

  predicate AllLineRowsParse(stops: seq<TramStop>, rows: seq<string>)
  {
    forall i :: 0 <= i < |rows| ==> LineRow(stops, rows[i]).Ok?
  }

  /**
   * The line reader succeeds exactly when every row is an acceptable line
   * row; it then gives one line per row, each the row's own line.
   */
  lemma ReadLinesOk(stops: seq<TramStop>, rows: seq<string>)
    ensures ReadLines(stops, rows).Ok? <==> AllLineRowsParse(stops, rows)
    ensures ReadLines(stops, rows).Ok? ==>
      && |ReadLines(stops, rows).value| == |rows|
      && forall i :: 0 <= i < |rows| ==> LineRow(stops, rows[i]) == Ok(ReadLines(stops, rows).value[i])
  {
    if AllLineRowsParse(stops, rows) {
      ReadLinesComplete(stops, rows);
    }
    if ReadLines(stops, rows).Ok? {
      ReadLinesSound(stops, rows);
    }
  }

  /** A successful line read gives one line per row, each the row's own line. */
  lemma ReadLinesSound(stops: seq<TramStop>, rows: seq<string>)
    requires ReadLines(stops, rows).Ok?
    ensures |ReadLines(stops, rows).value| == |rows|
    ensures forall i :: 0 <= i < |rows| ==> LineRow(stops, rows[i]) == Ok(ReadLines(stops, rows).value[i])
  {
    ReadLinesLength(stops, rows);
    forall i | 0 <= i < |rows|
      ensures LineRow(stops, rows[i]) == Ok(ReadLines(stops, rows).value[i])
    {
      ReadLinesRow(stops, rows, i);
    }
  }

  /** A successful line read gives one line per row. */
  lemma {:induction false} ReadLinesLength(stops: seq<TramStop>, rows: seq<string>)
    requires ReadLines(stops, rows).Ok?
    ensures |ReadLines(stops, rows).value| == |rows|
  {
    if |rows| > 0 {
      ReadLinesLast(stops, rows);
      ReadLinesLength(stops, rows[..|rows| - 1]);
    }
  }

  /** Line `i` of a successful read is the line of row `i`. */
  lemma {:induction false} ReadLinesRow(stops: seq<TramStop>, rows: seq<string>, i: nat)
    requires ReadLines(stops, rows).Ok? && i < |rows|
    ensures |ReadLines(stops, rows).value| == |rows|
    ensures LineRow(stops, rows[i]) == Ok(ReadLines(stops, rows).value[i])
  {
    var n := |rows| - 1;
    var init := rows[..n];
    ReadLinesLast(stops, rows);
    ReadLinesLength(stops, init);
    if i < n {
      ReadLinesRow(stops, init, i);
      assert init[i] == rows[i];
    }
  }

  /** A successful read of a non-empty file read its first rows, then its last row. */
  lemma ReadLinesLast(stops: seq<TramStop>, rows: seq<string>)
    requires |rows| > 0 && ReadLines(stops, rows).Ok?
    ensures ReadLines(stops, rows[..|rows| - 1]).Ok? && LineRow(stops, rows[|rows| - 1]).Ok?
    ensures ReadLines(stops, rows).value ==
      ReadLines(stops, rows[..|rows| - 1]).value + [LineRow(stops, rows[|rows| - 1]).value]
  {
  }

  /** When every row is an acceptable line row, the read succeeds. */
  lemma {:induction false} ReadLinesComplete(stops: seq<TramStop>, rows: seq<string>)
    requires AllLineRowsParse(stops, rows)
    ensures ReadLines(stops, rows).Ok?
  {
    if |rows| > 0 {
      var n := |rows| - 1;
      assert AllLineRowsParse(stops, rows[..n]) by {
        assert forall i :: 0 <= i < n ==> rows[..n][i] == rows[i];
      }
      ReadLinesComplete(stops, rows[..n]);
    }
  }

  /** A failing line row ends the read: no later row changes the error. */
  lemma {:induction false} ReadLinesErrorSticks(stops: seq<TramStop>, rows: seq<string>, more: seq<string>)
    requires ReadLines(stops, rows).Err?
    ensures ReadLines(stops, rows + more) == ReadLines(stops, rows)
  {
    if |more| == 0 {
      assert rows + more == rows;
    } else {
      var m := more[..|more| - 1];
      ReadLinesErrorSticks(stops, rows, m);
      assert (rows + more)[..|rows + more| - 1] == rows + m;
    }
  }

  /** The nested loops that turn the row's ids into the line's stops. */
  method ResolveStopIds(stops: seq<TramStop>, ids: seq<string>) returns (itinerary: seq<nat>)
    ensures itinerary == ResolveIds(stops, ids)
  {
    itinerary := [];
    var i := 0;
    while i < |ids|
      invariant 0 <= i <= |ids|
      invariant itinerary == ResolveIds(stops, ids[..i])
    {
      assert ids[..i + 1][..i] == ids[..i];
      var matches := MatchingStops(stops, ids[i]);
      itinerary := itinerary + matches;
      i := i + 1;
    }
    assert ids[..i] == ids;
  }

  /** The inner loop: every stop whose id equals `id`, in network order. */
  method MatchingStops(stops: seq<TramStop>, id: string) returns (matches: seq<nat>)
    ensures matches == MatchesOf(stops, id)
  {
    matches := [];
    var k := 0;
    while k < |stops|
      invariant 0 <= k <= |stops|
      invariant matches == MatchesOf(stops[..k], id)
    {
      assert stops[..k + 1][..k] == stops[..k];
      if id == stops[k].id {
        matches := matches + [k];
      }
      k := k + 1;
    }
    assert stops[..k] == stops;
  }

  /** read_tram_line: the lines of the file, or the first error. */
  method ReadTramLine(rows: seq<string>, network: TramNetwork) returns (r: Result<seq<TramLine>, ReadError>)
    ensures r == ReadLines(network.stops, rows)
  {
    var list: seq<TramLine> := [];
    var i := 0;
    while i < |rows|
      invariant 0 <= i <= |rows|
      invariant ReadLines(network.stops, rows[..i]) == Ok(list)
    {
      assert rows[..i + 1][..i] == rows[..i];
      var row := LineRowOf(network.stops, rows[i]);
      if row.Err? {
        ReadLinesErrorSticks(network.stops, rows[..i + 1], rows[i + 1..]);
        assert rows[..i + 1] + rows[i + 1..] == rows;
        return Err(row.error);
      }
      list := list + [row.value];
      i := i + 1;
    }
    assert rows[..i] == rows;
    return Ok(list);
  }

  /** The body of read_tram_line's loop for one row. */
  method LineRowOf(stops: seq<TramStop>, row: string) returns (r: Result<TramLine, ReadError>)
    ensures r == LineRow(stops, row)
  {
    var t := Fields(row);
    if |t| < 2 {
      return Err(MalformedData);
    }
    var hours := ParseInt(t[1]);
    if hours.None? {
      return Err(ValueError);
    }
    if |t| < 3 {
      return Err(MalformedData);
    }
    var minutes := ParseInt(t[2]);
    if minutes.None? {
      return Err(ValueError);
    }
    if |t| < 4 {
      return Err(MalformedData);
    }
    var interval := ParseInt(t[3]);
    if interval.None? {
      return Err(ValueError);
    }
    var itinerary := ResolveStopIds(stops, t[4..]);
    var line := NewTramLine(t[0], itinerary, hours.value, minutes.value, interval.value);
    if line.Err? {
      return Err(LineRejected(line.error));
    }
    return Ok(line.value);
  }
}
