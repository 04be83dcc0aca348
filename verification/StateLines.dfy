/**
 When an answer to `show servers state` is accepted, and as which servers, said of its lines alone
 (provider/haproxy/drain_recovery.go:71-117).
 */
module StateLines {
  import opened Prelude
  import opened Text
  import opened DrainModel
  import S = ServerStates

  // ---------------------------------------------------------------------------------------
  // Headings and rows
  // ---------------------------------------------------------------------------------------

  predicate IsHeading(line: string) {
    |line| >= 2 && line[0] == '#' && line[1] == ' '
  }

  /** Line `h` is the last heading among the first `n` lines. */
  predicate HeadedBy(lines: seq<string>, h: nat, n: nat)
    requires n <= |lines|
  {
    h < n && IsHeading(lines[h]) && forall g :: h < g < n ==> !IsHeading(lines[g])
  }

  function Columns(heading: string): seq<string>
    requires IsHeading(heading)
  {
    Fields(heading[2..])
  }

  /** The last column of that name. */
  predicate LastAt(columns: seq<string>, name: string, c: nat) {
    c < |columns| && columns[c] == name && forall d :: c < d < |columns| ==> columns[d] != name
  }

  /** The value is under it, or there is no such column and no value. */
  predicate CellIs(columns: seq<string>, values: seq<string>, name: string, value: string)
    requires |columns| == |values|
  {
    if name in columns then exists c :: 0 <= c < |columns| && LastAt(columns, name, c) && values[c] == value
    else value == ""
  }

  ghost predicate CellDenotes(columns: seq<string>, values: seq<string>, name: string, n: int)
    requires |columns| == |values|
  {
    exists text :: CellIs(columns, values, name, text) && Denotes(text, n)
  }

  ghost predicate IsKeyOf(columns: seq<string>, values: seq<string>, key: Key, name: string)
    requires |columns| == |values|
  {
    exists backend :: CellIs(columns, values, "be_name", backend) && backend != "" && key == backend + "/" + name
  }

  /** A row with one value for each column says a server's state. */
  ghost predicate RowSays(columns: seq<string>, values: seq<string>, key: Key, sv: ServerState) {
    && |columns| == |values|
    && IsKeyOf(columns, values, key, sv.name)
    && CellIs(columns, values, "srv_name", sv.name) && sv.name != ""
    && CellDenotes(columns, values, "srv_uweight", sv.weight) && 0 <= sv.weight <= 256
    && CellDenotes(columns, values, "srv_iweight", sv.initialWeight) && 0 <= sv.initialWeight <= 256
    && CellDenotes(columns, values, "srv_admin_state", sv.admin) && sv.admin >= 0
    && CellDenotes(columns, values, "srv_op_state", sv.operational) && 0 <= sv.operational <= 3
  }

  /** A line below a heading that is neither a heading nor blank. */
  predicate IsRow(lines: seq<string>, i: nat)
    requires i < |lines|
  {
    !IsHeading(lines[i]) && !Blank(lines[i]) && exists h :: 0 <= h < i && IsHeading(lines[h])
  }

  /** The row says it under the heading closest to it. */
  ghost predicate LineSays(lines: seq<string>, i: nat, key: Key, sv: ServerState)
    requires i < |lines|
  {
    && IsRow(lines, i)
    && exists h :: 0 <= h < i && HeadedBy(lines, h, i) && RowSays(Columns(lines[h]), Fields(lines[i]), key, sv)
  }

  ghost predicate SaysKey(lines: seq<string>, i: nat, key: Key)
    requires i < |lines|
  {
    exists sv :: LineSays(lines, i, key, sv)
  }

  ghost predicate SaysSomething(lines: seq<string>, i: nat)
    requires i < |lines|
  {
    exists key :: SaysKey(lines, i, key)
  }

  /** The last of the first `n` lines that says something of the key. */
  ghost predicate LastSays(lines: seq<string>, n: nat, key: Key, sv: ServerState)
    requires n <= |lines|
  {
    exists i :: 0 <= i < n && LineSays(lines, i, key, sv) && forall j :: i < j < n ==> !SaysKey(lines, j, key)
  }

  // ---------------------------------------------------------------------------------------
  // One row
  // ---------------------------------------------------------------------------------------

  lemma {:induction false} LastCell(columns: seq<string>, values: seq<string>, name: string) returns (c: nat)
    requires |columns| == |values| && name in columns
    ensures LastAt(columns, name, c) && S.Cell(columns, values, name) == values[c]
  {
    var n := |columns| - 1;
    if columns[n] == name {
      c := n;
    } else {
      assert columns == columns[..n] + [columns[n]];
      c := LastCell(columns[..n], values[..n], name);
      forall d | c < d < n ensures columns[d] != name {
        assert columns[..n][d] == columns[d];
      }
    }
  }

  lemma {:induction false} NoCell(columns: seq<string>, values: seq<string>, name: string)
    requires |columns| == |values| && name !in columns
    ensures S.Cell(columns, values, name) == ""
  {
    if columns != [] {
      NoCell(columns[..|columns| - 1], values[..|columns| - 1], name);
    }
  }

  lemma CellIff(columns: seq<string>, values: seq<string>, name: string, value: string)
    requires |columns| == |values|
    ensures CellIs(columns, values, name, value) <==> S.Cell(columns, values, name) == value
  {
    hide S.Cell;
    if name in columns {
      var c := LastCell(columns, values, name);
    } else {
      NoCell(columns, values, name);
    }
  }

  lemma CellDenotesIff(columns: seq<string>, values: seq<string>, name: string, n: int)
    requires |columns| == |values|
    ensures CellDenotes(columns, values, name, n) <==> Denotes(S.Cell(columns, values, name), n)
  {
    hide CellIs, Denotes;
    forall text ensures CellIs(columns, values, name, text) <==> S.Cell(columns, values, name) == text {
      CellIff(columns, values, name, text);
    }
  }

  lemma KeyIff(columns: seq<string>, values: seq<string>, key: Key, name: string)
    requires |columns| == |values|
    ensures IsKeyOf(columns, values, key, name) <==>
            S.Cell(columns, values, "be_name") != "" && key == S.Cell(columns, values, "be_name") + "/" + name
  {
    hide CellIs;
    forall text ensures CellIs(columns, values, "be_name", text) <==> S.Cell(columns, values, "be_name") == text {
      CellIff(columns, values, "be_name", text);
    }
  }

  lemma RowSaysIff(columns: seq<string>, values: seq<string>, key: Key, sv: ServerState)
    requires |columns| == |values|
    ensures RowSays(columns, values, key, sv) <==> S.ReadRow(columns, values) == Some((key, sv))
  {
    hide CellIs, CellDenotes, IsKeyOf, Denotes, S.Cell;
    KeyIff(columns, values, key, sv.name);
    CellIff(columns, values, "srv_name", sv.name);
    CellDenotesIff(columns, values, "srv_uweight", sv.weight);
    CellDenotesIff(columns, values, "srv_iweight", sv.initialWeight);
    CellDenotesIff(columns, values, "srv_admin_state", sv.admin);
    CellDenotesIff(columns, values, "srv_op_state", sv.operational);
    S.RowOfIff(S.Cell(columns, values, "be_name"), S.Cell(columns, values, "srv_name"),
               S.Cell(columns, values, "srv_uweight"), S.Cell(columns, values, "srv_iweight"),
               S.Cell(columns, values, "srv_admin_state"), S.Cell(columns, values, "srv_op_state"), key, sv);
    AdminInRange(S.Cell(columns, values, "srv_admin_state"), sv.admin);
  }

  lemma AdminInRange(text: string, n: int)
    ensures Denotes(text, n) ==> n <= MAX_INT
  {
  }

  // ---------------------------------------------------------------------------------------
  // All lines
  // ---------------------------------------------------------------------------------------

  /** The columns read so far are those of the last heading. */
  predicate HeaderIs(lines: seq<string>, n: nat, header: Option<seq<string>>)
    requires n <= |lines|
  {
    match header
    case None => forall h :: 0 <= h < n ==> !IsHeading(lines[h])
    case Some(columns) => exists h :: 0 <= h < n && HeadedBy(lines, h, n) && columns == Columns(lines[h])
  }

  ghost predicate RowsSay(lines: seq<string>, n: nat)
    requires n <= |lines|
  {
    forall i :: 0 <= i < n && IsRow(lines, i) ==> SaysSomething(lines, i)
  }

  ghost predicate StatesAre(lines: seq<string>, n: nat, states: Servers)
    requires n <= |lines|
  {
    forall key, sv :: (key in states && states[key] == sv) <==> LastSays(lines, n, key, sv)
  }

  ghost predicate HasScanned(lines: seq<string>, n: nat, s: S.Scan)
    requires n <= |lines|
  {
    HeaderIs(lines, n, s.header) && StatesAre(lines, n, s.states)
  }

  lemma HeadingNext(lines: seq<string>, n: nat, s: S.Scan)
    requires n < |lines| && HasScanned(lines, n, s) && IsHeading(lines[n])
    ensures S.ScanLine(s, lines[n]) == Ok(S.Scan(Some(Columns(lines[n])), s.states))
    ensures HasScanned(lines, n + 1, S.Scan(Some(Columns(lines[n])), s.states))
  {
    hide LineSays, Columns;
    assert HeadedBy(lines, n, n + 1);
    SaysNothingNext(lines, n, s.states);
    HeadingRead(s, lines[n]);
  }

  lemma HeadingRead(s: S.Scan, line: string)
    requires IsHeading(line)
    ensures S.ScanLine(s, line) == Ok(S.Scan(Some(Columns(line)), s.states))
  {
  }

  lemma NoRowSaysNothing(lines: seq<string>, n: nat, key: Key)
    requires n < |lines| && !IsRow(lines, n)
    ensures !SaysKey(lines, n, key)
  {
    hide IsRow, RowSays, HeadedBy;
  }

  lemma LineSaysKey(lines: seq<string>, n: nat, key: Key, sv: ServerState)
    requires n < |lines|
    ensures LineSays(lines, n, key, sv) ==> SaysKey(lines, n, key)
  {
    hide LineSays;
  }

  lemma LastNext(lines: seq<string>, n: nat, key: Key, sv: ServerState)
    requires n < |lines|
    ensures LastSays(lines, n + 1, key, sv) <==>
            LineSays(lines, n, key, sv) || (LastSays(lines, n, key, sv) && !SaysKey(lines, n, key))
  {
    hide LineSays, SaysKey;
    if LastSays(lines, n + 1, key, sv) && !LineSays(lines, n, key, sv) {
      var i :| 0 <= i < n + 1 && LineSays(lines, i, key, sv) && forall j :: i < j < n + 1 ==> !SaysKey(lines, j, key);
      assert i < n;
    }
  }

  lemma SaysNothingNext(lines: seq<string>, n: nat, states: Servers)
    requires n < |lines| && StatesAre(lines, n, states) && !IsRow(lines, n)
    ensures StatesAre(lines, n + 1, states)
  {
    hide IsRow, LineSays, SaysKey, LastSays;
    var m := n + 1;
    forall key, sv ensures LastSays(lines, m, key, sv) <==> LastSays(lines, n, key, sv) {
      NoRowSaysNothing(lines, n, key);
      LineSaysKey(lines, n, key, sv);
      LastNext(lines, n, key, sv);
    }
  }

  // ---------------------------------------------------------------------------------------
  // The next line
  // ---------------------------------------------------------------------------------------

  lemma HeaderStays(lines: seq<string>, n: nat, header: Option<seq<string>>)
    requires n < |lines| && HeaderIs(lines, n, header) && !IsHeading(lines[n])
    ensures HeaderIs(lines, n + 1, header)
  {
    hide IsHeading, Columns;
    if header.Some? {
      var h :| 0 <= h < n && HeadedBy(lines, h, n) && header.value == Columns(lines[h]);
      assert HeadedBy(lines, h, n + 1);
    }
  }

  lemma SkippedNext(lines: seq<string>, n: nat, s: S.Scan)
    requires n < |lines| && HasScanned(lines, n, s) && !IsHeading(lines[n]) && !IsRow(lines, n)
    ensures S.ScanLine(s, lines[n]) == Ok(s) && HasScanned(lines, n + 1, s)
  {
    hide StatesAre, Columns, Fields, TrimSpace;
    HeaderStays(lines, n, s.header);
    SaysNothingNext(lines, n, s.states);
  }

  lemma OneHeading(lines: seq<string>, h: nat, h': nat, n: nat)
    requires n <= |lines| && HeadedBy(lines, h, n) && HeadedBy(lines, h', n)
    ensures h == h'
  {
    hide IsHeading;
  }

  /** A row under the columns that were read says what is read from it. */
  lemma RowIsRead(lines: seq<string>, n: nat, header: seq<string>, key: Key, sv: ServerState)
    requires n < |lines| && HeaderIs(lines, n, Some(header)) && IsRow(lines, n)
    ensures LineSays(lines, n, key, sv) <==>
            |header| == |Fields(lines[n])| && S.ReadRow(header, Fields(lines[n])) == Some((key, sv))
  {
    hide IsHeading, Columns, Fields, RowSays, S.ReadRow, IsRow;
    var h :| 0 <= h < n && HeadedBy(lines, h, n) && header == Columns(lines[h]);
    RowHasCount(header, Fields(lines[n]), key, sv);
    if |header| == |Fields(lines[n])| {
      RowSaysIff(header, Fields(lines[n]), key, sv);
    }
    if LineSays(lines, n, key, sv) {
      var h' :| 0 <= h' < n && HeadedBy(lines, h', n) && RowSays(Columns(lines[h']), Fields(lines[n]), key, sv);
      OneHeading(lines, h, h', n);
    }
  }

  lemma RowHasCount(columns: seq<string>, values: seq<string>, key: Key, sv: ServerState)
    ensures RowSays(columns, values, key, sv) ==> |columns| == |values|
  {
  }

  lemma RowHasHeader(lines: seq<string>, n: nat, header: Option<seq<string>>)
    requires n < |lines| && HeaderIs(lines, n, header) && IsRow(lines, n)
    ensures header.Some?
  {
    hide Columns;
  }

  lemma RowScanned(s: S.Scan, line: string)
    requires s.header.Some? && !IsHeading(line) && !Blank(line)
    ensures S.ScanLine(s, line) ==
            if |Fields(line)| != |s.header.value| || S.ReadRow(s.header.value, Fields(line)).None? then Err
            else
              var row := S.ReadRow(s.header.value, Fields(line)).value;
              Ok(s.(states := s.states[row.0 := row.1]))
  {
    hide Fields, S.ReadRow, TrimSpace;
  }

  lemma SomethingIff(lines: seq<string>, n: nat)
    requires n < |lines|
    ensures SaysSomething(lines, n) <==> exists key, sv :: LineSays(lines, n, key, sv)
  {
    hide LineSays;
    if key, sv :| LineSays(lines, n, key, sv) {
      assert SaysKey(lines, n, key);
    }
  }

  lemma RowNext(lines: seq<string>, n: nat, s: S.Scan)
    requires n < |lines| && HasScanned(lines, n, s) && IsRow(lines, n)
    ensures SaysSomething(lines, n) <==> S.ScanLine(s, lines[n]).Ok?
    ensures S.ScanLine(s, lines[n]).Ok? ==> HasScanned(lines, n + 1, S.ScanLine(s, lines[n]).value)
  {
    hide Columns, Fields, S.ReadRow, HeaderIs, LastSays, LineSays, S.ScanLine, HeadedBy, Blank, SaysSomething;
    RowHasHeader(lines, n, s.header);
    RowScanned(s, lines[n]);
    HeaderStays(lines, n, s.header);
    forall key, sv
      ensures LineSays(lines, n, key, sv) <==>
              |s.header.value| == |Fields(lines[n])| && S.ReadRow(s.header.value, Fields(lines[n])) == Some((key, sv))
    {
      RowIsRead(lines, n, s.header.value, key, sv);
    }
    SomethingIff(lines, n);
    if S.ScanLine(s, lines[n]).Ok? {
      var row := S.ReadRow(s.header.value, Fields(lines[n])).value;
      assert LineSays(lines, n, row.0, row.1);
      StatesNext(lines, n, s.states, row.0, row.1);
    }
  }

  lemma StatesNext(lines: seq<string>, n: nat, states: Servers, key: Key, sv: ServerState)
    requires n < |lines| && StatesAre(lines, n, states)
    requires forall k, v :: LineSays(lines, n, k, v) <==> k == key && v == sv
    ensures StatesAre(lines, n + 1, states[key := sv])
  {
    hide LineSays, LastSays;
    assert SaysKey(lines, n, key) by {
      assert LineSays(lines, n, key, sv);
    }
    var states', m := states[key := sv], n + 1;
    forall k, v ensures (k in states' && states'[k] == v) <==> LastSays(lines, m, k, v) {
      LineSaysKey(lines, n, k, v);
      LastNext(lines, n, k, v);
      assert (k in states && states[k] == v) <==> LastSays(lines, n, k, v);
    }
  }

  lemma LineNext(lines: seq<string>, n: nat, s: S.Scan)
    requires n < |lines| && HasScanned(lines, n, s)
    ensures (IsRow(lines, n) ==> SaysSomething(lines, n)) <==> S.ScanLine(s, lines[n]).Ok?
    ensures S.ScanLine(s, lines[n]).Ok? ==> HasScanned(lines, n + 1, S.ScanLine(s, lines[n]).value)
  {
    hide HasScanned, S.ScanLine, SaysSomething;
    if IsRow(lines, n) {
      RowNext(lines, n, s);
    } else if IsHeading(lines[n]) {
      HeadingNext(lines, n, s);
    } else {
      SkippedNext(lines, n, s);
    }
  }

  lemma NothingScanned(lines: seq<string>)
    ensures HasScanned(lines, 0, S.Scan(None, map[])) && RowsSay(lines, 0)
  {
    hide LineSays;
  }

  lemma {:induction false} Scanned(lines: seq<string>, n: nat)
    requires n <= |lines|
    ensures S.ScanLines(lines[..n]).Ok? <==> RowsSay(lines, n)
    ensures S.ScanLines(lines[..n]).Ok? ==> HasScanned(lines, n, S.ScanLines(lines[..n]).value)
  {
    hide HasScanned, S.ScanLine, SaysSomething, IsRow;
    if n == 0 {
      NothingScanned(lines);
    } else {
      Scanned(lines, n - 1);
      assert lines[..n] == lines[..n - 1] + [lines[n - 1]];
      S.FoldNext(S.ScanLine, lines[..n - 1], lines[n - 1]);
      if RowsSay(lines, n - 1) {
        LineNext(lines, n - 1, S.ScanLines(lines[..n - 1]).value);
      }
    }
  }

  // ---------------------------------------------------------------------------------------
  // The whole answer
  // ---------------------------------------------------------------------------------------

  predicate IsComplete(columns: seq<string>) {
    && "be_name" in columns && "srv_name" in columns && "srv_uweight" in columns
    && "srv_iweight" in columns && "srv_admin_state" in columns && "srv_op_state" in columns
  }

  lemma CompleteIff(columns: seq<string>)
    ensures S.HasRequired(columns) <==> IsComplete(columns)
  {
    if S.HasRequired(columns) {
      S.RequiredColumns(columns);
    }
  }

  /** An answer is accepted if and only if it has a heading, the last one names all six columns, and
      every row says something under the heading closest to it. */
  lemma AcceptedIff(lines: seq<string>)
    ensures S.ParseTable(lines).Ok? <==>
            && (exists h :: 0 <= h < |lines| && HeadedBy(lines, h, |lines|) && IsComplete(Columns(lines[h])))
            && forall i :: 0 <= i < |lines| && IsRow(lines, i) ==> SaysSomething(lines, i)
  {
    hide Columns, SaysSomething, S.ScanLines, S.HasRequired, IsRow, StatesAre, IsComplete;
    Scanned(lines, |lines|);
    assert lines[..|lines|] == lines;
    if S.ScanLines(lines).Ok? && S.ScanLines(lines).value.header.Some? {
      CompleteIff(S.ScanLines(lines).value.header.value);
      var h :| 0 <= h < |lines| && HeadedBy(lines, h, |lines|)
               && S.ScanLines(lines).value.header.value == Columns(lines[h]);
      forall h' | 0 <= h' < |lines| && HeadedBy(lines, h', |lines|) ensures h' == h {
        OneHeading(lines, h, h', |lines|);
      }
    }
  }

  /** And then each server has the state that the last row for its key says; there are no others. */
  lemma StatesAreLastRows(lines: seq<string>, key: Key, sv: ServerState)
    requires S.ParseTable(lines).Ok?
    ensures (key in S.ParseTable(lines).value && S.ParseTable(lines).value[key] == sv) <==>
            LastSays(lines, |lines|, key, sv)
  {
    hide LastSays, S.ScanLines, HeaderIs, RowsSay, S.HasRequired;
    Scanned(lines, |lines|);
    assert lines[..|lines|] == lines;
  }
}
