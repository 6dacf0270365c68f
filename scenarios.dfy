/**
 * The readers on the inputs of the repository's unit tests
 * (test_database_io.py).
 *
 * A note on style: the lemmas below take their rows, stops and numbers as
 * parameters pinned by `requires` (`requires n == 20`, `requires r1 == "..."`)
 * rather than writing the literals in the ensures.  A call whose arguments
 * are all literals is unfolded by the verifier eagerly and without limit
 * (the whole reader evaluated on the literal text at once), which runs out
 * of resources; a parameter equal to a literal is only unfolded as far as
 * the proof steps ask, so each helper below proves one small step.
 */
module Scenarios {
  import opened Wrappers
  import opened Strings
  import opened Database
  import opened DatabaseIo

  /** A row whose fields are `parts`: none holds a comma, and the row ends in a digit. */
  lemma FieldsOfRow(parts: seq<string>, row: string)
    requires |parts| >= 1 && row == Join(parts, ',')
    requires forall i :: 0 <= i < |parts| ==> ',' !in parts[i]
    requires |row| > 0 && IsDigit(row[|row| - 1])
    ensures Fields(row) == parts
  {
    RStripEndsInDigit(row);
    SplitOfJoin(parts, ',');
  }

  lemma ShowTens(d: nat)
    requires 1 <= d <= 9
    ensures ShowNat(10 * d) == [('0' as int + d) as char, '0']
  {
    assert ShowNat(10 * d) == ShowNat(d) + "0";
  }

  lemma StopRowOf(stop: TramStop, row: string)
    requires ',' !in stop.id && ',' !in stop.name && stop.connected == []
    requires row == StopRowText(stop)
    ensures ParseStopRow(row) == Ok(stop)
  {
    StopRowRoundTrip(stop);
  }

  /** Two rows that each parse, at different positions, give their two stops. */
  lemma TwoStopRows(s1: TramStop, s2: TramStop, r1: string, r2: string)
    requires ParseStopRow(r1) == Ok(s1) && ParseStopRow(r2) == Ok(s2)
    requires s1.x != s2.x || s1.y != s2.y
    ensures ReadStops([r1, r2]) == Ok([s1, s2])
  {
    assert [r1, r2][..1] == [r1];
    assert [r1][..0] == [];
    var first := StopRow([], r1);
    assert first.Ok? && first.value == [s1];
    assert ReadStops([]) == Ok([]);
    assert ReadStops([r1]) == first;
    var second := StopRow([s1], r2);
    assert second.Ok? && second.value == [s1, s2];
    assert ReadStops([r1, r2]) == second;
  }

  /** The row text of a stop, given the text of its coordinates. */
  lemma TextOf(s: TramStop, xs: string, ys: string)
    requires Show(s.x) == xs && Show(s.y) == ys
    ensures StopRowText(s) == s.id + "," + s.name + "," + xs + "," + ys
  {
  }

  lemma ShowTwenty(n: int)
    requires n == 20
    ensures Show(n) == "20"
  {
    ShowTens(2);
  }

  lemma ShowMinusSeventy(n: int)
    requires n == -70
    ensures Show(n) == "-70"
  {
    ShowTens(7);
  }

  lemma ShowEighty(n: int)
    requires n == 80
    ensures Show(n) == "80"
  {
    ShowTens(8);
  }

  lemma ShowMinusHundredTen(n: int)
    requires n == -110
    ensures Show(n) == "-110"
  {
    assert ShowNat(11) == ShowNat(1) + "1" == "11";
    assert ShowNat(110) == ShowNat(11) + "0" == "110";
  }

  lemma FirstRowText(a: string, b: string, c: string, d: string)
    requires a == "1" && b == "Teatr Bagatela" && c == "20" && d == "-70"
    ensures a + "," + b + "," + c + "," + d == "1,Teatr Bagatela,20,-70"
  {
  }

  lemma SecondRowText(a: string, b: string, c: string, d: string)
    requires a == "2" && b == "Stary Kleparz" && c == "80" && d == "-110"
    ensures a + "," + b + "," + c + "," + d == "2,Stary Kleparz,80,-110"
  {
  }

  lemma TextOfFirstStop(s: TramStop)
    requires s == TramStop("1", "Teatr Bagatela", 20, -70, [])
    ensures StopRowText(s) == "1,Teatr Bagatela,20,-70"
  {
    ShowTwenty(s.x);
    ShowMinusSeventy(s.y);
    TextOf(s, "20", "-70");
    FirstRowText(s.id, s.name, "20", "-70");
  }

  lemma TextOfSecondStop(s: TramStop)
    requires s == TramStop("2", "Stary Kleparz", 80, -110, [])
    ensures StopRowText(s) == "2,Stary Kleparz,80,-110"
  {
    ShowEighty(s.x);
    ShowMinusHundredTen(s.y);
    TextOf(s, "80", "-110");
    SecondRowText(s.id, s.name, "80", "-110");
  }

  /** test_read_tram_stop, test_read_tram_stop_position: two stops, read in order. */
  lemma ReadTwoStops(s1: TramStop, s2: TramStop, r1: string, r2: string)
    requires s1 == TramStop("1", "Teatr Bagatela", 20, -70, [])
    requires s2 == TramStop("2", "Stary Kleparz", 80, -110, [])
    requires r1 == "1,Teatr Bagatela,20,-70" && r2 == "2,Stary Kleparz,80,-110"
    ensures ReadStops([r1, r2]) == Ok([s1, s2])
  {
    TextOfFirstStop(s1);
    TextOfSecondStop(s2);
    StopRowOf(s1, r1);
    StopRowOf(s2, r2);
    TwoStopRows(s1, s2, r1, r2);
  }

  /** A first stop row that fails fails the read of two rows the same way. */
  lemma FirstStopRowFails(r1: string, r2: string)
    requires StopRow([], r1).Err?
    ensures ReadStops([r1, r2]) == Err(StopRow([], r1).error)
  {
    assert [r1][..0] == [];
    assert ReadStops([]) == Ok([]);
    assert ReadStops([r1]) == StopRow([], r1);
    ReadStopsErrorSticks([r1], [r2]);
  }

  lemma ShowZero()
    ensures Show(0) == "0"
  {
  }

  lemma TextOfOriginStop1(s: TramStop)
    requires s == TramStop("1", "Teatr Bagatela", 0, 0, [])
    ensures StopRowText(s) == "1,Teatr Bagatela,0,0"
  {
    ShowZero();
  }

  lemma TextOfOriginStop2(s: TramStop)
    requires s == TramStop("2", "Stary Kleparz", 0, 0, [])
    ensures StopRowText(s) == "2,Stary Kleparz,0,0"
  {
    ShowZero();
  }

  /** Two rows that each parse, at the same position: the second is rejected. */
  lemma SamePositionRows(s1: TramStop, s2: TramStop, r1: string, r2: string)
    requires ParseStopRow(r1) == Ok(s1) && ParseStopRow(r2) == Ok(s2)
    requires s1.x == s2.x && s1.y == s2.y
    ensures ReadStops([r1, r2]) == Err(InvalidTramStopPosition)
  {
    assert [r1, r2][..1] == [r1];
    assert [r1][..0] == [];
    var first := StopRow([], r1);
    assert first.Ok? && first.value == [s1];
    assert ReadStops([]) == Ok([]);
    assert ReadStops([r1]) == first;
    assert [s1][0].x == s2.x && [s1][0].y == s2.y;
    assert PositionTaken([s1], s2.x, s2.y);
  }

  /** test_read_tram_stop_invalid_position: two stops at the origin are rejected. */
  lemma StopsAtSamePosition(s1: TramStop, s2: TramStop, r1: string, r2: string)
    requires s1 == TramStop("1", "Teatr Bagatela", 0, 0, [])
    requires s2 == TramStop("2", "Stary Kleparz", 0, 0, [])
    requires r1 == "1,Teatr Bagatela,0,0" && r2 == "2,Stary Kleparz,0,0"
    ensures ReadStops([r1, r2]) == Err(InvalidTramStopPosition)
  {
    TextOfOriginStop1(s1);
    TextOfOriginStop2(s2);
    StopRowOf(s1, r1);
    StopRowOf(s2, r2);
    SamePositionRows(s1, s2, r1, r2);
  }

  /** test_read_tram_stop_invalid: a stop row with three fields is malformed. */
  lemma ThreeFieldStopRow(r1: string, r2: string)
    requires r1 == "1,Teatr Bagatela,20" && r2 == "2,Stary Kleparz,80,-110"
    ensures ReadStops([r1, r2]) == Err(MalformedData)
  {
    assert Join(["20"], ',') == "20";
    assert ["Teatr Bagatela", "20"][1..] == ["20"];
    assert Join(["Teatr Bagatela", "20"], ',') == "Teatr Bagatela,20";
    assert ["1", "Teatr Bagatela", "20"][1..] == ["Teatr Bagatela", "20"];
    assert Join(["1", "Teatr Bagatela", "20"], ',') == r1;
    FieldsOfRow(["1", "Teatr Bagatela", "20"], r1);
    assert StopRow([], r1) == Err(MalformedData);
    FirstStopRowFails(r1, r2);
  }

  /** The three stops of the connection tests. */
  predicate TestStops(stops: seq<TramStop>)
  {
    stops == [ TramStop("1", "Teatr Bagatela", 0, 0, []),
               TramStop("2", "Stary Kleparz", 0, 0, []),
               TramStop("3", "Teatr S\U{142}owackiego", 0, 0, []) ]
  }

  /** With one stop per id, the lookup finds the stop that carries the id. */
  lemma LookupUnique(stops: seq<TramStop>, id: string, prev: Option<nat>, i: nat)
    requires UniqueIds(stops) && i < |stops| && stops[i].id == id
    ensures LastWithId(stops, id, prev) == Some(i)
  {
  }

  lemma ConnectionFields(row: string, a: string, b: string, d: string)
    requires |a| == 1 && |b| == 1 && 1 <= |d| <= 2 && IsDigit(a[0]) && IsDigit(b[0]) && AllDigits(d)
    requires row == a + "," + b + "," + d
    ensures Fields(row) == [a, b, d]
  {
    assert Join([d], ',') == d;
    assert [b, d][1..] == [d] && Join([b, d], ',') == b + "," + d;
    assert [a, b, d][1..] == [b, d] && Join([a, b, d], ',') == a + "," + (b + "," + d);
    assert row == Join([a, b, d], ',');
    assert IsDigit(row[|row| - 1]);
    FieldsOfRow([a, b, d], row);
  }

  /** Two rows applied one after the other. */
  lemma TwoRows(st: ConnState, r1: string, r2: string, n1: ConnState)
    requires ConnStateValid(st) && ConnectRow(st, r1) == Ok(n1)
    ensures ApplyConnections(st, [r1, r2]) == ApplyConnections(n1, [r2])
  {
    assert [r1, r2][1..] == [r2];
  }

  /** "1,2,4" on the three test stops connects stop 1 to stop 2 at distance 4. */
  lemma FirstTestConnection(stops: seq<TramStop>, r1: string)
    requires TestStops(stops) && r1 == "1,2,4"
    ensures ConnectRow(ConnState(stops, None, None), r1) == Ok(ConnState(Connect(stops, 0, 1, 4), Some(0), Some(1)))
  {
    ConnectionFields(r1, "1", "2", "4");
    assert ParseInt("4") == Some(4);
    assert UniqueIds(stops);
    LookupUnique(stops, "1", None, 0);
    LookupUnique(stops, "2", None, 1);
    ConnectRowAccepted(ConnState(stops, None, None), r1);
  }

  /** Then "1,3,5" connects stop 1 to stop 3 at distance 5. */
  lemma SecondTestConnection(stops: seq<TramStop>, s1: seq<TramStop>, r2: string)
    requires TestStops(stops) && s1 == Connect(stops, 0, 1, 4) && r2 == "1,3,5"
    ensures ConnectRow(ConnState(s1, Some(0), Some(1)), r2) == Ok(ConnState(Connect(s1, 0, 2, 5), Some(0), Some(2)))
  {
    ConnectionFields(r2, "1", "3", "5");
    assert ParseInt("5") == Some(5);
    assert s1[0].id == "1" && s1[1].id == "2" && s1[2] == stops[2];
    assert UniqueIds(s1);
    LookupUnique(s1, "1", Some(0), 0);
    LookupUnique(s1, "3", Some(1), 2);
    ConnectRowAccepted(ConnState(s1, Some(0), Some(1)), r2);
  }

  /** The first stop's list after the two test connections. */
  lemma TestConnectionsList(stops: seq<TramStop>, s2: seq<TramStop>)
    requires TestStops(stops) && s2 == Connect(Connect(stops, 0, 1, 4), 0, 2, 5)
    ensures s2[0].connected == [Connection(1, 4), Connection(2, 5)]
  {
  }

  /**
   * test_read_tram_stop_connection: after "1,2,4" and "1,3,5" stop 1 lists
   * stop 2 at 4 and stop 3 at 5, in that order, and nothing failed.
   */
  lemma ReadTestConnections(stops: seq<TramStop>, r1: string, r2: string)
    requires TestStops(stops)
    requires r1 == "1,2,4" && r2 == "1,3,5"
    ensures ReadConnections(stops, [r1, r2]).1 == None
    ensures ReadConnections(stops, [r1, r2]).0[0].connected == [Connection(1, 4), Connection(2, 5)]
  {
    var st := ConnState(stops, None, None);
    var s1 := Connect(stops, 0, 1, 4);
    var next := ConnState(s1, Some(0), Some(1));
    var s2 := Connect(s1, 0, 2, 5);
    var last := ConnState(s2, Some(0), Some(2));
    FirstTestConnection(stops, r1);
    SecondTestConnection(stops, s1, r2);
    TwoRows(st, r1, r2, next);
    assert [r2][1..] == [];
    assert ApplyConnections(next, [r2]) == ApplyConnections(last, []);
    TestConnectionsList(stops, s2);
  }

  /** The two stops of the repeated-connection test. */
  predicate PairStops(stops: seq<TramStop>)
  {
    stops == [TramStop("1", "Teatr Bagatela", 0, 0, []), TramStop("2", "Stary Kleparz", 0, 0, [])]
  }

  lemma FirstPairConnection(stops: seq<TramStop>, r1: string)
    requires PairStops(stops) && r1 == "1,2,4"
    ensures ConnectRow(ConnState(stops, None, None), r1) == Ok(ConnState(Connect(stops, 0, 1, 4), Some(0), Some(1)))
  {
    ConnectionFields(r1, "1", "2", "4");
    assert ParseInt("4") == Some(4);
    assert UniqueIds(stops);
    LookupUnique(stops, "1", None, 0);
    LookupUnique(stops, "2", None, 1);
    ConnectRowAccepted(ConnState(stops, None, None), r1);
  }

  lemma SecondPairConnection(stops: seq<TramStop>, s1: seq<TramStop>, r2: string)
    requires PairStops(stops) && s1 == Connect(stops, 0, 1, 4) && r2 == "1,2,5"
    ensures ConnectRow(ConnState(s1, Some(0), Some(1)), r2) == Err(ConnectionAlreadySet)
  {
    ConnectionFields(r2, "1", "2", "5");
    assert s1[0].id == "1" && s1[1].id == "2";
    assert UniqueIds(s1);
    LookupUnique(s1, "1", Some(0), 0);
    LookupUnique(s1, "2", Some(1), 1);
    assert s1[1].connected == [Connection(0, 4)];
    assert Linked(s1[1], 0);
  }

  /** test_read_tram_stop_connection_already_set: the second "1,2" row is rejected. */
  lemma RepeatedConnection(stops: seq<TramStop>, r1: string, r2: string)
    requires PairStops(stops)
    requires r1 == "1,2,4" && r2 == "1,2,5"
    ensures ReadConnections(stops, [r1, r2]).1 == Some(ConnectionAlreadySet)
  {
    var s1 := Connect(stops, 0, 1, 4);
    var next := ConnState(s1, Some(0), Some(1));
    FirstPairConnection(stops, r1);
    SecondPairConnection(stops, s1, r2);
    TwoRows(ConnState(stops, None, None), r1, r2, next);
  }

  /** test_read_tram_stop_connection_invalid: a row with four fields is malformed. */
  lemma FourFieldConnection(stops: seq<TramStop>, r1: string, r2: string)
    requires TestStops(stops)
    requires r1 == "1,2,4,5" && r2 == "1,3,5"
    ensures ReadConnections(stops, [r1, r2]) == (stops, Some(MalformedData))
  {
    assert Join(["5"], ',') == "5";
    assert ["4", "5"][1..] == ["5"] && Join(["4", "5"], ',') == "4,5";
    assert ["2", "4", "5"][1..] == ["4", "5"] && Join(["2", "4", "5"], ',') == "2,4,5";
    assert ["1", "2", "4", "5"][1..] == ["2", "4", "5"] && Join(["1", "2", "4", "5"], ',') == r1;
    FieldsOfRow(["1", "2", "4", "5"], r1);
  }

  lemma SplitLeading(row: string, f0: string, f1: string, f2: string, f3: string, rest: string)
    requires ',' !in f0 && ',' !in f1 && ',' !in f2 && ',' !in f3
    requires row == f0 + "," + (f1 + "," + (f2 + "," + (f3 + "," + rest)))
    ensures Split(row, ',') == [f0, f1, f2, f3] + Split(rest, ',')
  {
    var p3 := f3 + [','] + rest;
    var p2 := f2 + [','] + p3;
    var p1 := f1 + [','] + p2;
    assert row == f0 + [','] + p1;
    SplitAfterPiece(f3, rest, ',');
    SplitAfterPiece(f2, p3, ',');
    SplitAfterPiece(f1, p2, ',');
    SplitAfterPiece(f0, p1, ',');
  }

  /** The first four fields of a row, when they hold no comma. */
  lemma LeadingFields(row: string, f0: string, f1: string, f2: string, f3: string, rest: string)
    requires ',' !in f0 && ',' !in f1 && ',' !in f2 && ',' !in f3
    requires row == f0 + "," + (f1 + "," + (f2 + "," + (f3 + "," + rest)))
    requires |rest| > 0 && IsDigit(rest[|rest| - 1])
    ensures Fields(row) == [f0, f1, f2, f3] + Split(rest, ',')
  {
    assert row[|row| - 1] == rest[|rest| - 1];
    RStripEndsInDigit(row);
    SplitLeading(row, f0, f1, f2, f3, rest);
  }

  /** A row whose start minute is out of range is rejected by TramLine's constructor. */
  lemma MinuteOutOfRange(stops: seq<TramStop>, row: string, h: int, m: int, i: int)
    requires |Fields(row)| >= 4
    requires ParseInt(Fields(row)[1]) == Some(h) && ParseInt(Fields(row)[2]) == Some(m)
    requires ParseInt(Fields(row)[3]) == Some(i)
    requires 0 <= h <= 23 && !(0 <= m <= 59)
    ensures LineRow(stops, row) == Err(LineRejected(InvalidTime))
  {
  }

  /** A failing first row fails the read of two rows the same way. */
  lemma FirstLineRowFails(stops: seq<TramStop>, r1: string, r2: string)
    requires LineRow(stops, r1).Err?
    ensures ReadLines(stops, [r1, r2]) == Err(LineRow(stops, r1).error)
  {
    assert [r1][..0] == [];
    assert ReadLines(stops, [r1]) == Err(LineRow(stops, r1).error);
    ReadLinesErrorSticks(stops, [r1], [r2]);
  }

  /**
   * test_tram_line_invalid_time: a first row starting at minute 60 makes
   * TramLine's constructor reject the time, whatever stop ids follow, and
   * the read stops there.
   */
  lemma LineWithInvalidTime(stops: seq<TramStop>, ids: string, r1: string, r2: string)
    requires |ids| > 0 && IsDigit(ids[|ids| - 1])
    requires r1 == "1,5,60,20," + ids
    ensures ReadLines(stops, [r1, r2]) == Err(LineRejected(InvalidTime))
  {
    assert r1 == "1" + "," + ("5" + "," + ("60" + "," + ("20" + "," + ids)));
    assert ParseInt("5") == Some(5);
    TwoDigitValue("60", 60);
    TwoDigitValue("20", 20);
    RejectedLineText(stops, r1, "1", "5", "60", "20", ids, 5, 60, 20);
    FirstLineRowFails(stops, r1, r2);
  }

  /** A line row with four comma-free leading fields and a start minute out of range is rejected. */
  lemma RejectedLineText(stops: seq<TramStop>, row: string, f0: string, f1: string, f2: string, f3: string,
                         ids: string, h: int, m: int, i: int)
    requires ',' !in f0 && ',' !in f1 && ',' !in f2 && ',' !in f3
    requires row == f0 + "," + (f1 + "," + (f2 + "," + (f3 + "," + ids)))
    requires |ids| > 0 && IsDigit(ids[|ids| - 1])
    requires ParseInt(f1) == Some(h) && ParseInt(f2) == Some(m) && ParseInt(f3) == Some(i)
    requires 0 <= h <= 23 && !(0 <= m <= 59)
    ensures LineRow(stops, row) == Err(LineRejected(InvalidTime))
  {
    LeadingFields(row, f0, f1, f2, f3, ids);
    MinuteOutOfRange(stops, row, h, m, i);
  }

  /** test_tram_line_invalid: a row with only a name, an hour and a minute is malformed. */
  lemma ShortLineRow(stops: seq<TramStop>, r1: string, r2: string)
    requires TestStops(stops)
    requires r1 == "1,5,0" && r2 == "2,5,30,15,50,49,14,13,1,2,3,8,9,18,19"
    ensures ReadLines(stops, [r1, r2]) == Err(MalformedData)
  {
    ConnectionFields(r1, "1", "5", "0");
    assert ParseInt("5") == Some(5) && ParseInt("0") == Some(0);
    assert LineRow(stops, r1) == Err(MalformedData);
    FirstLineRowFails(stops, r1, r2);
  }

  /** A row with a valid timetable becomes its line, with the stops its ids name. */
  lemma AcceptedLineRow(stops: seq<TramStop>, row: string, f0: string, f1: string, f2: string, f3: string, ids: string,
                        h: int, m: int, i: int)
    requires Fields(row) == [f0, f1, f2, f3] + Split(ids, ',')
    requires ParseInt(f1) == Some(h) && ParseInt(f2) == Some(m) && ParseInt(f3) == Some(i)
    requires 0 <= h <= 23 && 0 <= m <= 59 && i > 0
    ensures LineRow(stops, row) == Ok(TramLine(f0, ResolveIds(stops, Split(ids, ',')), h, m, i, [], []))
  {
    assert Fields(row)[4..] == Split(ids, ',');
  }

  lemma TwoLineRows(stops: seq<TramStop>, r1: string, r2: string, l1: TramLine, l2: TramLine)
    requires LineRow(stops, r1) == Ok(l1) && LineRow(stops, r2) == Ok(l2)
    ensures ReadLines(stops, [r1, r2]) == Ok([l1, l2])
  {
    assert [r1, r2][..1] == [r1];
    assert [r1][..0] == [];
    assert ReadLines(stops, []) == Ok([]);
    assert ReadLines(stops, [r1]) == Ok([] + [l1]);
    assert [] + [l1] == [l1];
    assert ReadLines(stops, [r1, r2]) == Ok([l1] + [l2]);
    assert [l1] + [l2] == [l1, l2];
  }

  /** Two-digit fields read as their values. */
  lemma TwoDigitValue(s: string, n: int)
    requires |s| == 2 && IsDigit(s[0]) && IsDigit(s[1])
    requires n == 10 * (s[0] as int - '0' as int) + (s[1] as int - '0' as int)
    ensures ParseInt(s) == Some(n)
  {
    var d := s[..1];
    assert d == [s[0]] && d[..0] == [];
    assert DigitsValue(d) == s[0] as int - '0' as int;
    assert DigitsValue(s) == n;
  }

  /** A line row with four comma-free leading fields and a valid timetable becomes its line. */
  lemma AcceptedLineText(stops: seq<TramStop>, row: string, f0: string, f1: string, f2: string, f3: string,
                         ids: string, h: int, m: int, i: int)
    requires ',' !in f0 && ',' !in f1 && ',' !in f2 && ',' !in f3
    requires row == f0 + "," + (f1 + "," + (f2 + "," + (f3 + "," + ids)))
    requires |ids| > 0 && IsDigit(ids[|ids| - 1])
    requires ParseInt(f1) == Some(h) && ParseInt(f2) == Some(m) && ParseInt(f3) == Some(i)
    requires 0 <= h <= 23 && 0 <= m <= 59 && i > 0
    ensures LineRow(stops, row) == Ok(TramLine(f0, ResolveIds(stops, Split(ids, ',')), h, m, i, [], []))
  {
    LeadingFields(row, f0, f1, f2, f3, ids);
    AcceptedLineRow(stops, row, f0, f1, f2, f3, ids, h, m, i);
  }

  lemma FirstTestLine(stops: seq<TramStop>, ids: string, r1: string)
    requires |ids| > 0 && IsDigit(ids[|ids| - 1])
    requires r1 == "1,5,0,20," + ids
    ensures LineRow(stops, r1) == Ok(TramLine("1", ResolveIds(stops, Split(ids, ',')), 5, 0, 20, [], []))
  {
    assert r1 == "1" + "," + ("5" + "," + ("0" + "," + ("20" + "," + ids)));
    TwoDigitValue("20", 20);
    assert ParseInt("5") == Some(5) && ParseInt("0") == Some(0);
    AcceptedLineText(stops, r1, "1", "5", "0", "20", ids, 5, 0, 20);
  }

  lemma SecondTestLine(stops: seq<TramStop>, ids: string, r2: string)
    requires |ids| > 0 && IsDigit(ids[|ids| - 1])
    requires r2 == "2,5,30,15," + ids
    ensures LineRow(stops, r2) == Ok(TramLine("2", ResolveIds(stops, Split(ids, ',')), 5, 30, 15, [], []))
  {
    assert r2 == "2" + "," + ("5" + "," + ("30" + "," + ("15" + "," + ids)));
    TwoDigitValue("30", 30);
    TwoDigitValue("15", 15);
    assert ParseInt("5") == Some(5);
    AcceptedLineText(stops, r2, "2", "5", "30", "15", ids, 5, 30, 15);
  }

  /**
   * test_tram_line: the two rows of the test give two lines, 5:00 every 20
   * minutes and 5:30 every 15 minutes, whose itineraries are the stops their
   * ids name.
   */
  lemma ReadTestLines(stops: seq<TramStop>, ids1: string, ids2: string, r1: string, r2: string)
    requires |ids1| > 0 && IsDigit(ids1[|ids1| - 1]) && |ids2| > 0 && IsDigit(ids2[|ids2| - 1])
    requires r1 == "1,5,0,20," + ids1 && r2 == "2,5,30,15," + ids2
    ensures ReadLines(stops, [r1, r2]) == Ok([
      TramLine("1", ResolveIds(stops, Split(ids1, ',')), 5, 0, 20, [], []),
      TramLine("2", ResolveIds(stops, Split(ids2, ',')), 5, 30, 15, [], [])])
  {
    FirstTestLine(stops, ids1, r1);
    SecondTestLine(stops, ids2, r2);
    TwoLineRows(stops, r1, r2,
      TramLine("1", ResolveIds(stops, Split(ids1, ',')), 5, 0, 20, [], []),
      TramLine("2", ResolveIds(stops, Split(ids2, ',')), 5, 30, 15, [], []));
  }
}
