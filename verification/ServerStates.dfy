/** Reading the `show servers state` table (provider/haproxy/drain_recovery.go:71-117). */
module ServerStates {
  import opened Prelude
  import opened Text
  import opened DrainModel

  const REQUIRED: seq<string> :=
    ["be_name", "srv_name", "srv_uweight", "srv_iweight", "srv_admin_state", "srv_op_state"]

  /** The cell under the last column with the name, or "" without such a column. */
  function Cell(header: seq<string>, values: seq<string>, column: string): string
    requires |header| == |values|
  {
    if header == [] then ""
    else if header[|header| - 1] == column then values[|values| - 1]
    else Cell(header[..|header| - 1], values[..|values| - 1], column)
  }

  /** A row with its key, or None if a field is missing, malformed or out of range. */
  function RowOf(backend: string, name: string, uweight: string, iweight: string, adminState: string, opState: string)
    : (row: Option<(Key, ServerState)>)
    ensures row.Some? ==> ValidState(row.value.1)
  {
    var weight, initial, admin, op := Atoi(uweight), Atoi(iweight), Atoi(adminState), Atoi(opState);
    if backend == "" || name == "" || weight.None? || initial.None? || admin.None? || op.None? then None
    else if weight.value < 0 || weight.value > 256 || initial.value < 0 || initial.value > 256 then None
    else if admin.value < 0 || op.value < 0 || op.value > 3 then None
    else Some((backend + "/" + name, ServerState(name, weight.value, initial.value, admin.value, op.value)))
  }

  /** Exactly which rows are accepted, and as what. */
  lemma RowOfIff(backend: string, name: string, uweight: string, iweight: string, adminState: string, opState: string,
        key: Key, sv: ServerState)
    ensures RowOf(backend, name, uweight, iweight, adminState, opState) == Some((key, sv)) <==>
            && backend != "" && name != "" && key == backend + "/" + name && sv.name == name && ValidState(sv)
            && Denotes(uweight, sv.weight) && Denotes(iweight, sv.initialWeight)
            && Denotes(adminState, sv.admin) && Denotes(opState, sv.operational)
  {
    hide Denotes, Atoi;
    AtoiIff(uweight, sv.weight);
    AtoiIff(iweight, sv.initialWeight);
    AtoiIff(adminState, sv.admin);
    AtoiIff(opState, sv.operational);
  }

  function ReadRow(header: seq<string>, values: seq<string>): (row: Option<(Key, ServerState)>)
    requires |header| == |values|
    ensures row.Some? ==> ValidState(row.value.1)
  {
    RowOf(Cell(header, values, "be_name"), Cell(header, values, "srv_name"), Cell(header, values, "srv_uweight"),
          Cell(header, values, "srv_iweight"), Cell(header, values, "srv_admin_state"),
          Cell(header, values, "srv_op_state"))
  }

  predicate ValidState(sv: ServerState) {
    0 <= sv.weight <= 256 && 0 <= sv.initialWeight <= 256 && sv.admin <= MAX_INT && 0 <= sv.operational <= 3
  }

  datatype Scan = Scan(header: Option<seq<string>>, states: Servers)

  function ScanLine(s: Scan, line: string): Result<Scan> {
    if HasPrefix(line, "# ") then Ok(s.(header := Some(Fields(line[2..]))))
    else if s.header.None? || TrimSpace(line) == "" then Ok(s)
    else if |Fields(line)| != |s.header.value| then Err
    else
      var row := ReadRow(s.header.value, Fields(line));
      if row.None? then Err else Ok(s.(states := s.states[row.value.0 := row.value.1]))
  }

  /** Reads lines one after the other until one is refused. */
  function Fold(read: (Scan, string) -> Result<Scan>, lines: seq<string>): Result<Scan> {
    if lines == [] then Ok(Scan(None, map[]))
    else
      var front := Fold(read, lines[..|lines| - 1]);
      if front.Err? then Err else read(front.value, lines[|lines| - 1])
  }

  function ScanLines(lines: seq<string>): Result<Scan> {
    Fold(ScanLine, lines)
  }

  predicate HasRequired(header: seq<string>) {
    forall i :: 0 <= i < |REQUIRED| ==> REQUIRED[i] in header
  }

  lemma RequiredColumns(header: seq<string>)
    requires HasRequired(header)
    ensures "be_name" in header && "srv_name" in header && "srv_uweight" in header
    ensures "srv_iweight" in header && "srv_admin_state" in header && "srv_op_state" in header
  {
    assert REQUIRED[0] in header && REQUIRED[1] in header && REQUIRED[2] in header;
    assert REQUIRED[3] in header && REQUIRED[4] in header && REQUIRED[5] in header;
  }

  function ParseTable(lines: seq<string>): Result<Servers> {
    var s := ScanLines(lines);
    if s.Err? || s.value.header.None? || !HasRequired(s.value.header.value) then Err else Ok(s.value.states)
  }

  // ---------------------------------------------------------------------------------------
  // The loops of readServerStates
  // ---------------------------------------------------------------------------------------

  lemma FoldNext(read: (Scan, string) -> Result<Scan>, front: seq<string>, last: string)
    ensures Fold(read, front + [last]) == if Fold(read, front).Err? then Err else read(Fold(read, front).value, last)
  {
    assert (front + [last])[..|front|] == front;
  }

  lemma {:induction false} ErrorStays(read: (Scan, string) -> Result<Scan>, lines: seq<string>, n: nat)
    requires n <= |lines| && Fold(read, lines[..n]).Err?
    ensures Fold(read, lines).Err?
  {
    if n == |lines| {
      assert lines[..n] == lines;
    } else {
      var front := lines[..|lines| - 1];
      assert front[..n] == lines[..n];
      ErrorStays(read, front, n);
    }
  }

  function Field(fields: map<string, string>, column: string): string {
    if column in fields then fields[column] else ""
  }

  method ReadFields(header: seq<string>, values: seq<string>) returns (fields: map<string, string>)
    requires |header| == |values|
    ensures forall c :: Field(fields, c) == Cell(header, values, c)
  {
    fields := map[];
    for i := 0 to |header|
      invariant forall c :: Field(fields, c) == Cell(header[..i], values[..i], c)
    {
      fields := fields[header[i] := values[i]];
      assert header[..i + 1][..i] == header[..i] && values[..i + 1][..i] == values[..i];
    }
    assert header[..|header|] == header && values[..|values|] == values;
  }

  method ReadValues(header: seq<string>, values: seq<string>) returns (row: Option<(Key, ServerState)>)
    requires |header| == |values|
    ensures row == ReadRow(header, values)
  {
    var fields := ReadFields(header, values);
    row := RowOf(Field(fields, "be_name"), Field(fields, "srv_name"), Field(fields, "srv_uweight"),
                 Field(fields, "srv_iweight"), Field(fields, "srv_admin_state"), Field(fields, "srv_op_state"));
  }

  /** One round of the line loop. */
  method ReadLine(header: Option<seq<string>>, states: Servers, line: string) returns (r: Result<Scan>)
    ensures r == ScanLine(Scan(header, states), line)
  {
    if HasPrefix(line, "# ") {
      return Ok(Scan(Some(Fields(line[2..])), states));
    }
    if header.None? || TrimSpace(line) == "" {
      return Ok(Scan(header, states));
    }
    var values := Fields(line);
    if |values| != |header.value| {
      return Err;
    }
    var row := ReadValues(header.value, values);
    if row.None? {
      return Err;
    }
    return Ok(Scan(header, states[row.value.0 := row.value.1]));
  }

  method ReadServerStates(lines: seq<string>) returns (r: Result<Servers>)
    ensures r == ParseTable(lines)
  {
    hide ScanLine;
    var states: Servers := map[];
    var header: Option<seq<string>> := None;
    for i := 0 to |lines|
      invariant ScanLines(lines[..i]) == Ok(Scan(header, states))
    {
      var next := ReadLine(header, states, lines[i]);
      assert lines[..i + 1] == lines[..i] + [lines[i]];
      FoldNext(ScanLine, lines[..i], lines[i]);
      if next.Err? {
        ErrorStays(ScanLine, lines, i + 1);
        return Err;
      }
      header, states := next.value.header, next.value.states;
    }
    assert lines[..|lines|] == lines;
    if header.None? {
      return Err;
    }
    for i := 0 to |REQUIRED|
      invariant forall j :: 0 <= j < i ==> REQUIRED[j] in header.value
    {
      if REQUIRED[i] !in header.value {
        return Err;
      }
    }
    return Ok(states);
  }

  // ---------------------------------------------------------------------------------------
  // What HAProxy prints
  // ---------------------------------------------------------------------------------------

  /** One word that does not make a line look like a heading. */
  predicate IsPlain(s: string) {
    IsToken(s) && s != "#"
  }

  /** A backend or server name: one word, without '/' or '#'. */
  predicate IsName(s: string) {
    IsToken(s) && '/' !in s && '#' !in s
  }

  function BackendPart(key: Key): string {
    var n := |key| - |NameOf(key)| - 1;
    if 0 <= n then key[..n] else ""
  }

  lemma {:induction false} KeyParts(key: Key)
    requires '/' in key
    ensures |NameOf(key)| < |key|
    ensures BackendPart(key) + "/" + NameOf(key) == key
  {
    if '/' in key[1..] {
      KeyParts(key[1..]);
      assert key == [key[0]] + key[1..];
    }
  }

  lemma {:induction false} NameOfKey(backend: string, name: string)
    requires '/' !in name
    ensures NameOf(backend + "/" + name) == name
  {
    var key := backend + "/" + name;
    if backend == "" {
      assert key[1..] == name;
      assert key[0] == '/';
    } else {
      NameOfKey(backend[1..], name);
      assert key[1..] == backend[1..] + "/" + name;
      assert (backend[1..] + "/" + name)[|backend| - 1] == '/';
    }
  }

  /** The servers of a process, as HAProxy keeps them. */
  predicate Printable(servers: Servers) {
    forall k | k in servers :: PrintableServer(k, servers[k])
  }

  predicate PrintableServer(key: Key, sv: ServerState) {
    '/' in key && IsName(BackendPart(key)) && IsName(NameOf(key)) && sv.name == NameOf(key) && ValidState(sv)
  }

  predicate Distinct<T(==)>(xs: seq<T>) {
    forall i, j :: 0 <= i < j < |xs| ==> xs[i] != xs[j]
  }

  /** Columns in any order, the required ones among them. */
  predicate ValidColumns(columns: seq<string>) {
    && Distinct(columns)
    && (forall i :: 0 <= i < |columns| ==> IsToken(columns[i]))
    && HasRequired(columns)
  }

  function PrintCell(key: Key, sv: ServerState, column: string, extra: (Key, string) -> string): string {
    if column == "be_name" then BackendPart(key)
    else if column == "srv_name" then sv.name
    else if column == "srv_uweight" then Itoa(sv.weight)
    else if column == "srv_iweight" then Itoa(sv.initialWeight)
    else if column == "srv_admin_state" then Itoa(sv.admin)
    else if column == "srv_op_state" then Itoa(sv.operational)
    else extra(key, column)
  }

  function PrintRow(key: Key, sv: ServerState, columns: seq<string>, extra: (Key, string) -> string): seq<string> {
    seq(|columns|, i requires 0 <= i < |columns| => PrintCell(key, sv, columns[i], extra))
  }

  function PrintRows(servers: Servers, order: seq<Key>, columns: seq<string>,
        extra: (Key, string) -> string): seq<string>
    requires forall i :: 0 <= i < |order| ==> order[i] in servers
  {
    seq(|order|, i requires 0 <= i < |order| => Join(PrintRow(order[i], servers[order[i]], columns, extra), " "))
  }

  // ---------------------------------------------------------------------------------------
  // Every answer that is accepted is in range
  // ---------------------------------------------------------------------------------------

  lemma {:induction false} ScannedStatesValid(lines: seq<string>, key: Key)
    requires ScanLines(lines).Ok? && key in ScanLines(lines).value.states
    ensures ValidState(ScanLines(lines).value.states[key])
  {
    if lines == [] {
      assert false;
    } else {
      var front := lines[..|lines| - 1];
      if key in ScanLines(front).value.states {
        ScannedStatesValid(front, key);
      }
    }
  }

  /** Any successful parse yields weights in 0..256 and operational states in 0..3 only. */
  lemma ParsedStatesValid(lines: seq<string>, key: Key)
    requires ParseTable(lines).Ok? && key in ParseTable(lines).value
    ensures var sv := ParseTable(lines).value[key];
            0 <= sv.weight <= 256 && 0 <= sv.initialWeight <= 256 && 0 <= sv.operational <= 3
  {
    ScannedStatesValid(lines, key);
  }

  // ---------------------------------------------------------------------------------------
  // Round trip
  // ---------------------------------------------------------------------------------------

  lemma {:induction false} CellOfColumn(header: seq<string>, values: seq<string>, i: nat)
    requires |header| == |values| && Distinct(header) && i < |header|
    ensures Cell(header, values, header[i]) == values[i]
  {
    var n := |header| - 1;
    if i < n {
      assert header[..n][i] == header[i] && values[..n][i] == values[i];
      CellOfColumn(header[..n], values[..n], i);
    }
  }

  lemma {:induction false} BlankHasNoFields(s: string)
    requires Blank(s)
    ensures Fields(s) == []
  {
    if s != "" {
      BlankHasNoFields(s[1..]);
    }
  }

  lemma HashFirst(s: string)
    requires HasPrefix(s, "# ")
    ensures Fields(s) != [] && Fields(s)[0] == "#"
  {
    assert s == "#" + s[1..];
    WordLengthOf("#", s[1..]);
  }

  lemma NumberIsPlain(n: nat)
    requires n <= MAX_INT
    ensures Atoi(Itoa(n)) == Some(n) && IsPlain(Itoa(n))
  {
    AtoiOfItoa(n);
    assert IsDigit(Digits(n)[0]);
  }

  lemma NameIsPlain(s: string)
    requires IsName(s)
    ensures IsPlain(s)
  {
    assert '#' in "#";
  }

  lemma CellIsPlain(key: Key, sv: ServerState, column: string, extra: (Key, string) -> string)
    requires PrintableServer(key, sv) && IsPlain(extra(key, column))
    ensures IsPlain(PrintCell(key, sv, column, extra))
  {
    hide IsPlain, Itoa, BackendPart, NameOf;
    NameIsPlain(BackendPart(key));
    NameIsPlain(sv.name);
    NumberIsPlain(sv.weight);
    NumberIsPlain(sv.initialWeight);
    NumberIsPlain(sv.admin);
    NumberIsPlain(sv.operational);
  }

  lemma CellRead(key: Key, sv: ServerState, columns: seq<string>, extra: (Key, string) -> string, column: string)
    requires ValidColumns(columns) && column in columns
    ensures Cell(columns, PrintRow(key, sv, columns, extra), column) == PrintCell(key, sv, column, extra)
  {
    var i :| 0 <= i < |columns| && columns[i] == column;
    CellOfColumn(columns, PrintRow(key, sv, columns, extra), i);
  }

  lemma RowRoundTrip(key: Key, sv: ServerState, columns: seq<string>, extra: (Key, string) -> string)
    requires PrintableServer(key, sv) && ValidColumns(columns)
    ensures ReadRow(columns, PrintRow(key, sv, columns, extra)) == Some((key, sv))
  {
    RequiredColumns(columns);
    CellRead(key, sv, columns, extra, "be_name");
    CellRead(key, sv, columns, extra, "srv_name");
    CellRead(key, sv, columns, extra, "srv_uweight");
    CellRead(key, sv, columns, extra, "srv_iweight");
    CellRead(key, sv, columns, extra, "srv_admin_state");
    CellRead(key, sv, columns, extra, "srv_op_state");
    NumberIsPlain(sv.weight);
    NumberIsPlain(sv.initialWeight);
    NumberIsPlain(sv.admin);
    NumberIsPlain(sv.operational);
    KeyParts(key);
  }

  lemma RowLineRead(s: Scan, key: Key, sv: ServerState, columns: seq<string>, extra: (Key, string) -> string)
    requires PrintableServer(key, sv) && ValidColumns(columns) && s.header == Some(columns)
    requires forall c :: IsPlain(extra(key, c))
    ensures ScanLine(s, Join(PrintRow(key, sv, columns, extra), " ")) == Ok(s.(states := s.states[key := sv]))
  {
    var row := PrintRow(key, sv, columns, extra);
    var line := Join(row, " ");
    forall i | 0 <= i < |row| ensures IsPlain(row[i]) {
      CellIsPlain(key, sv, columns[i], extra);
    }
    FieldsOfJoin(row);
    RequiredColumns(columns);
    if HasPrefix(line, "# ") {
      HashFirst(line);
    }
    if Blank(line) {
      BlankHasNoFields(line);
    }
    RowRoundTrip(key, sv, columns, extra);
  }

  lemma {:induction false} PreambleRead(preamble: seq<string>)
    requires forall i :: 0 <= i < |preamble| ==> !HasPrefix(preamble[i], "# ")
    ensures ScanLines(preamble) == Ok(Scan(None, map[]))
  {
    if preamble != [] {
      PreambleRead(preamble[..|preamble| - 1]);
    }
  }

  function Listed(servers: Servers, order: seq<Key>): Servers {
    map k | k in servers && k in order :: servers[k]
  }

  lemma ListedNext(servers: Servers, order: seq<Key>)
    requires order != [] && order[|order| - 1] in servers
    ensures Listed(servers, order) ==
            Listed(servers, order[..|order| - 1])[order[|order| - 1] := servers[order[|order| - 1]]]
  {
    assert order == order[..|order| - 1] + [order[|order| - 1]];
  }

  lemma {:induction false} FoldSteps(read: (Scan, string) -> Result<Scan>, lines: seq<string>, rows: seq<string>,
        scans: seq<Scan>)
    requires |scans| == |rows| + 1 && Fold(read, lines) == Ok(scans[0])
    requires forall i :: 0 <= i < |rows| ==> read(scans[i], rows[i]) == Ok(scans[i + 1])
    ensures Fold(read, lines + rows) == Ok(scans[|rows|])
  {
    if rows == [] {
      assert lines + rows == lines;
    } else {
      var n := |rows| - 1;
      FoldSteps(read, lines, rows[..n], scans[..n + 1]);
      assert lines + rows == (lines + rows[..n]) + [rows[n]];
      FoldNext(read, lines + rows[..n], rows[n]);
    }
  }

  function ScanOf(servers: Servers, order: seq<Key>, columns: seq<string>): Scan {
    Scan(Some(columns), Listed(servers, order))
  }

  lemma NextRowRead(servers: Servers, order: seq<Key>, columns: seq<string>, extra: (Key, string) -> string)
    requires order != [] && order[|order| - 1] in servers && ValidColumns(columns) && Printable(servers)
    requires forall k, c :: IsPlain(extra(k, c))
    ensures var k := order[|order| - 1];
            ScanLine(ScanOf(servers, order[..|order| - 1], columns),
                     Join(PrintRow(k, servers[k], columns, extra), " ")) ==
            Ok(ScanOf(servers, order, columns))
  {
    var k := order[|order| - 1];
    RowLineRead(ScanOf(servers, order[..|order| - 1], columns), k, servers[k], columns, extra);
    ListedNext(servers, order);
  }

  lemma RowsRead(lines: seq<string>, servers: Servers, order: seq<Key>, columns: seq<string>,
        extra: (Key, string) -> string)
    requires ScanLines(lines) == Ok(Scan(Some(columns), map[])) && ValidColumns(columns) && Printable(servers)
    requires forall i :: 0 <= i < |order| ==> order[i] in servers
    requires forall k, c :: IsPlain(extra(k, c))
    ensures ScanLines(lines + PrintRows(servers, order, columns, extra)) == Ok(ScanOf(servers, order, columns))
  {
    hide Join, PrintRow, ScanLine, ValidColumns, Printable, IsPlain;
    var rows := PrintRows(servers, order, columns, extra);
    var scans := seq(|order| + 1, i requires 0 <= i <= |order| => ScanOf(servers, order[..i], columns));
    assert ScanOf(servers, order[..0], columns) == Scan(Some(columns), map[]);
    forall i | 0 <= i < |rows| ensures ScanLine(scans[i], rows[i]) == Ok(scans[i + 1]) {
      assert order[..i + 1][..i] == order[..i];
      NextRowRead(servers, order[..i + 1], columns, extra);
    }
    FoldSteps(ScanLine, lines, rows, scans);
    assert order[..|order|] == order;
  }

  lemma {:induction false} BlanksSkipped(lines: seq<string>, blanks: seq<string>)
    requires ScanLines(lines).Ok? && ScanLines(lines).value.header.Some?
    requires forall i :: 0 <= i < |blanks| ==> Blank(blanks[i])
    ensures ScanLines(lines + blanks) == ScanLines(lines)
  {
    hide Blank, ScanLine, Fold;
    if blanks == [] {
      assert lines + blanks == lines;
    } else {
      var n := |blanks| - 1;
      BlanksSkipped(lines, blanks[..n]);
      assert lines + blanks == (lines + blanks[..n]) + [blanks[n]];
      FoldNext(ScanLine, lines + blanks[..n], blanks[n]);
      BlankLineSkipped(ScanLines(lines).value, blanks[n]);
    }
  }

  lemma BlankLineSkipped(s: Scan, line: string)
    requires s.header.Some? && Blank(line)
    ensures ScanLine(s, line) == Ok(s)
  {
    assert "# "[0] == '#' && !IsSpace('#');
  }

  /** Whatever the order of columns and rows, and whatever other columns there are, reading the
      printed table gives back the servers. Blank lines may follow, as one ends every answer. */
  lemma TableRoundTrip(preamble: seq<string>, servers: Servers, order: seq<Key>, columns: seq<string>,
        extra: (Key, string) -> string, blanks: seq<string>)
    requires forall i :: 0 <= i < |preamble| ==> !HasPrefix(preamble[i], "# ")
    requires ValidColumns(columns) && Printable(servers)
    requires forall k :: k in order <==> k in servers
    requires forall i :: 0 <= i < |order| ==> order[i] in servers
    requires forall k, c :: IsPlain(extra(k, c))
    requires forall i :: 0 <= i < |blanks| ==> Blank(blanks[i])
    ensures ParseTable(preamble + ["# " + Join(columns, " ")] + PrintRows(servers, order, columns, extra) + blanks) ==
            Ok(servers)
  {
    hide ScanLine, IsPlain, Join, Blank, PrintRows, HasRequired, Printable, Listed, HasPrefix, ScanLines;
    var lines := preamble + ["# " + Join(columns, " ")];
    HeadedRead(preamble, columns);
    RowsRead(lines, servers, order, columns, extra);
    BlanksSkipped(lines + PrintRows(servers, order, columns, extra), blanks);
    AllListed(servers, order);
  }

  lemma AllListed(servers: Servers, order: seq<Key>)
    requires forall k :: k in order <==> k in servers
    ensures Listed(servers, order) == servers
  {
  }

  lemma HeadedRead(preamble: seq<string>, columns: seq<string>)
    requires forall i :: 0 <= i < |preamble| ==> !HasPrefix(preamble[i], "# ")
    requires forall i :: 0 <= i < |columns| ==> IsToken(columns[i])
    ensures ScanLines(preamble + ["# " + Join(columns, " ")]) == Ok(Scan(Some(columns), map[]))
  {
    hide ScanLine, Join, IsToken;
    PreambleRead(preamble);
    HeadingRead(columns);
    FoldNext(ScanLine, preamble, "# " + Join(columns, " "));
  }

  lemma HeadingRead(columns: seq<string>)
    requires forall i :: 0 <= i < |columns| ==> IsToken(columns[i])
    ensures ScanLine(Scan(None, map[]), "# " + Join(columns, " ")) == Ok(Scan(Some(columns), map[]))
  {
    var heading := "# " + Join(columns, " ");
    assert heading[2..] == Join(columns, " ");
    FieldsOfJoin(columns);
  }
}
