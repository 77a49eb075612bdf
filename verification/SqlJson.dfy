/** The result-set printer and the two string escapers. */
module SqlJson {

  import opened Common
  import opened JsonText

  // -------------------------------------------------------------- escaping

  function HexDigit(d: nat): char
    requires d < 16
  {
    "0123456789abcdef"[d]
  }

  function Escape(c: char): string {
    if c == '"' then "\\\""
    else if c == '\\' then "\\\\"
    else if c == 8 as char then "\\b"
    else if c == 12 as char then "\\f"
    else if c == '\n' then "\\n"
    else if c == '\r' then "\\r"
    else if c == '\t' then "\\t"
    else if c < ' ' then ['\\', 'u', '0', '0', HexDigit(c as int / 16), HexDigit(c as int % 16)]
    else [c]
  }

  /** Section 7 of RFC 8259, as the printer uses it: only the quote, the backslash and
      the 32 control characters are escaped, five of these by a letter and the others by
      the four hexadecimal digits, in lower case, of their number. */
  lemma EscapeMeaning(c: char)
    ensures Escape(c) == [c] <==> c as int >= 32 && c as int != 34 && c as int != 92
    ensures c as int == 34 || c as int == 92 ==> Escape(c) == ['\\', c]
    ensures c as int == 8 ==> Escape(c) == "\\b"
    ensures c as int == 9 ==> Escape(c) == "\\t"
    ensures c as int == 10 ==> Escape(c) == "\\n"
    ensures c as int == 12 ==> Escape(c) == "\\f"
    ensures c as int == 13 ==> Escape(c) == "\\r"
    ensures c as int < 32 && c as int !in {8, 9, 10, 12, 13} ==>
              && |Escape(c)| == 6 && Escape(c)[..4] == "\\u00"
              && "0123456789abcdef"[c as int / 16] == Escape(c)[4]
              && "0123456789abcdef"[c as int % 16] == Escape(c)[5]
  {
  }

  function Escaped(s: string): string {
    if s == "" then "" else Escape(s[0]) + Escaped(s[1..])
  }

  function Quoted(s: string): string {
    "\"" + Escaped(s) + "\""
  }

  /** The reader's next step on `s` yields `c` and consumes `n`. */
  predicate StepReads(s: string, c: char, n: nat) {
    && 0 < n <= |s| && s[0] != '"'
    && if s[0] == '\\' then Unescape(s) == Some((c, n)) else s[0] == c && c >= ' ' && n == 1
  }

  /** One escaped character is one step of the reader. */
  lemma EscapeIsRead(c: char, rest: string)
    ensures StepReads(Escape(c) + rest, c, |Escape(c)|)
  {
    var s := Escape(c) + rest;
    if c < ' ' && |Escape(c)| == 6 {
      ControlIsRead(c);
      assert s[2..6] == ['0', '0', HexDigit(c as int / 16), HexDigit(c as int % 16)];
    }
  }

  lemma ControlIsRead(c: char)
    requires c < ' '
    ensures Hex4(['0', '0', HexDigit(c as int / 16), HexDigit(c as int % 16)]) == Some(c)
  {
    HexDigitIsRead(c as int / 16);
    HexDigitIsRead(c as int % 16);
  }

  lemma HexDigitIsRead(d: nat)
    requires d < 16
    ensures HexValue(HexDigit(d)) == Some(d)
  {
  }

  /** What the reader sees behind an opening quote. */
  function Closed(s: string, rest: string): string {
    Escaped(s) + ("\"" + rest)
  }

  lemma ClosedStep(s: string, rest: string)
    requires s != ""
    ensures Closed(s, rest) == Escape(s[0]) + Closed(s[1..], rest)
  {
  }

  lemma ReadClose(rest: string)
    ensures ReadString(Closed("", rest)) == Some(("", rest))
  {
    assert Closed("", rest) == "\"" + rest && ("\"" + rest)[1..] == rest;
  }

  /** The reader inverts the escaper, whatever follows the closing quote. */
  lemma {:induction false} StringRoundTrip(s: string, rest: string)
    ensures ReadString(Closed(s, rest)) == Some((s, rest))
  {
    if s == "" {
      ReadClose(rest);
    } else {
      var more := Closed(s[1..], rest);
      StringRoundTrip(s[1..], rest);
      ClosedStep(s, rest);
      EscapeIsRead(s[0], more);
      ReadStep(Escape(s[0]), more, s[0], s[1..], rest);
      assert [s[0]] + s[1..] == s;
    }
  }

  lemma ReadStep(first: string, more: string, c: char, text: string, rest: string)
    requires StepReads(first + more, c, |first|) && ReadString(more) == Some((text, rest))
    ensures ReadString(first + more) == Some(([c] + text, rest))
  {
    assert (first + more)[|first|..] == more;
  }

  lemma QuotedIsRead(s: string, rest: string)
    ensures StartsWith(Quoted(s) + rest, '"')
    ensures ReadString((Quoted(s) + rest)[1..]) == Some((s, rest))
  {
    StringRoundTrip(s, rest);
    assert (Quoted(s) + rest)[1..] == Closed(s, rest);
  }

  /** Different strings are printed differently. */
  lemma EscapeInjective(a: string, b: string)
    requires Quoted(a) == Quoted(b)
    ensures a == b
  {
    QuotedIsRead(a, "");
    QuotedIsRead(b, "");
  }

  lemma {:induction false} EscapedAppend(a: string, b: string)
    ensures Escaped(a + b) == Escaped(a) + Escaped(b)
    decreases |a|
  {
    if a == "" {
      assert a + b == b;
    } else {
      assert (a + b)[1..] == a[1..] + b;
      EscapedAppend(a[1..], b);
      assert Escape(a[0]) + (Escaped(a[1..]) + Escaped(b)) == Escape(a[0]) + Escaped(a[1..]) + Escaped(b);
    }
  }

  lemma EscapedStep(s: string, i: nat)
    requires i < |s|
    ensures Escaped(s[..i + 1]) == Escaped(s[..i]) + Escape(s[i])
  {
    EscapedAppend(s[..i], [s[i]]);
    assert s[..i + 1] == s[..i] + [s[i]];
    assert [s[i]][1..] == "" && Escaped([s[i]]) == Escape(s[i]) + "";
  }

  lemma EscapedMore(builder: string, s: string, i: nat)
    requires i < |s|
    ensures builder + ("\"" + Escaped(s[..i])) + Escape(s[i]) == builder + ("\"" + Escaped(s[..i + 1]))
  {
    EscapedStep(s, i);
  }

  /** `json_escape` of the logger. */
  method JsonEscape(s: string) returns (res: string)
    ensures res == Escaped(s)
  {
    res := "";
    for i := 0 to |s|
      invariant res == Escaped(s[..i])
    {
      EscapedStep(s, i);
      res := res + Escape(s[i]);
    }
    assert s[..|s|] == s;
  }

  /** A byte as the compiler's signed `char` sees it. */
  function Signed(c: char): int {
    if c as int < 128 then c as int else c as int - 256
  }

  predicate IsBytes(s: string) {
    forall i :: 0 <= i < |s| ==> s[i] as int < 256
  }

  /** The switch of `append_escaped_json_string`, whose control-character test is on
      the signed value. */
  method AppendEscapedChar(builder: string, c: char) returns (out: string)
    requires c as int < 256
    ensures out == builder + Escape(c)
  {
    if c == '"' { out := builder + "\\\""; }
    else if c == '\\' { out := builder + "\\\\"; }
    else if c == 8 as char { out := builder + "\\b"; }
    else if c == 12 as char { out := builder + "\\f"; }
    else if c == '\n' { out := builder + "\\n"; }
    else if c == '\r' { out := builder + "\\r"; }
    else if c == '\t' { out := builder + "\\t"; }
    else if 0 <= Signed(c) <= 31 {
      out := builder + ['\\', 'u', '0', '0', HexDigit(c as int / 16), HexDigit(c as int % 16)];
    }
    else { out := builder + [c]; }
  }

  /** `append_escaped_json_string`: a quote, what `json_escape` makes, a quote. */
  method AppendEscaped(builder: string, s: string) returns (out: string)
    requires IsBytes(s)
    ensures out == builder + Quoted(s)
  {
    out := builder + "\"";
    for i := 0 to |s|
      invariant out == builder + ("\"" + Escaped(s[..i]))
    {
      EscapedMore(builder, s, i);
      out := AppendEscapedChar(out, s[i]);
    }
    assert s[..|s|] == s;
    out := out + "\"";
  }

  // -------------------------------------------------------------- printing

  datatype Column = Column(name: string, numeric: bool)

  /** A fetched cell; no value for SQL NULL. */
  type Cell = Option<string>

  function ValueText(column: Column, cell: Cell): string {
    if cell.None? then "null" else if column.numeric then cell.value else Quoted(cell.value)
  }

  function MemberText(column: Column, cell: Cell): string {
    Quoted(column.name) + ":" + ValueText(column, cell)
  }

  function Comma(between: bool): string {
    if between then "," else ""
  }

  /** The members from column `i` on with the commas between them, and the closing brace. */
  function MembersText(columns: seq<Column>, cells: seq<Cell>, i: nat): string
    requires i <= |columns| == |cells|
    decreases |columns| - i
  {
    if i == |columns| then "}"
    else MemberText(columns[i], cells[i]) + Comma(i + 1 < |columns|) + MembersText(columns, cells, i + 1)
  }

  function RowText(columns: seq<Column>, cells: seq<Cell>): string
    requires |columns| == |cells|
  {
    "{" + MembersText(columns, cells, 0)
  }

  predicate Fits(columns: seq<Column>, rows: seq<seq<Cell>>) {
    forall i :: 0 <= i < |rows| ==> |rows[i]| == |columns|
  }

  /** The rows from `i` on, each but the first after a comma, and the closing bracket. */
  function RowsText(columns: seq<Column>, rows: seq<seq<Cell>>, i: nat): string
    requires i <= |rows| && Fits(columns, rows)
    decreases |rows| - i
  {
    if i == |rows| then "]"
    else Comma(i > 0) + (RowText(columns, rows[i]) + RowsText(columns, rows, i + 1))
  }

  function ResultText(columns: seq<Column>, rows: seq<seq<Cell>>): string
    requires Fits(columns, rows)
  {
    if columns == [] then "[]" else "[" + RowsText(columns, rows, 0)
  }

  // ------------------------------------------------------ what was fetched

  function ValueOf(column: Column, cell: Cell): Json {
    if cell.None? then JNull else if column.numeric then JNumber(cell.value) else JString(cell.value)
  }

  function MemberOf(column: Column, cell: Cell): Member {
    Member(column.name, ValueOf(column, cell))
  }

  function RowOf(columns: seq<Column>, cells: seq<Cell>): (row: Row)
    requires |columns| == |cells|
    ensures |row| == |columns| && forall i :: 0 <= i < |row| ==> row[i] == MemberOf(columns[i], cells[i])
  {
    seq(|columns|, i requires 0 <= i < |columns| => MemberOf(columns[i], cells[i]))
  }

  function RowsOf(columns: seq<Column>, rows: seq<seq<Cell>>): (result: seq<Row>)
    requires Fits(columns, rows)
    ensures |result| == |rows| && forall i :: 0 <= i < |rows| ==> result[i] == RowOf(columns, rows[i])
  {
    seq(|rows|, i requires 0 <= i < |rows| => RowOf(columns, rows[i]))
  }

  /** The database gave a JSON number literal for every numeric cell. */
  predicate NumbersAreLiterals(columns: seq<Column>, rows: seq<seq<Cell>>)
    requires Fits(columns, rows)
  {
    forall i :: 0 <= i < |rows| ==> RowIsLiteral(columns, rows[i])
  }

  predicate RowIsLiteral(columns: seq<Column>, cells: seq<Cell>)
    requires |columns| == |cells|
  {
    forall j :: 0 <= j < |columns| && columns[j].numeric && cells[j].Some? ==> IsNumber(cells[j].value)
  }

  // ------------------------------------------------------------ round trip

  /** Text that ends a value: not a number character, not white space. */
  predicate Delimited(rest: string) {
    rest != "" && !IsNumberChar(rest[0]) && !IsSpace(rest[0])
  }

  lemma ValueRoundTrip(column: Column, cell: Cell, rest: string)
    requires Delimited(rest)
    requires column.numeric && cell.Some? ==> IsNumber(cell.value)
    ensures ReadValue(ValueText(column, cell) + rest) == Some((ValueOf(column, cell), rest))
  {
    var s := ValueText(column, cell) + rest;
    if cell.None? {
      assert "null" <= s && s[4..] == rest;
    } else if column.numeric {
      NumberIsText(cell.value);
      RunOfLiteral(cell.value, rest);
      assert s[0] == cell.value[0] && s[..|cell.value|] == cell.value && s[|cell.value|..] == rest;
    } else {
      QuotedIsRead(cell.value, rest);
    }
  }

  /** What the reader has after a member followed by `rest`. */
  function Continued(m: Member, rest: string): Option<(Row, string)> {
    if StartsWith(rest, '}') then Some(([m], rest[1..]))
    else if !StartsWith(rest, ',') then None
    else
      match ReadMembers(rest[1..])
      case None => None
      case Some((members, more)) => Some(([m] + members, more))
  }

  lemma ReadOneMember(s: string, key: string, afterKey: string, value: Json, rest: string)
    requires StartsWith(s, '"') && ReadString(s[1..]) == Some((key, ":" + afterKey))
    requires ReadValue(afterKey) == Some((value, rest))
    requires StartsWith(rest, '}') || StartsWith(rest, ',')
    ensures ReadMembers(s) == Continued(Member(key, value), rest)
  {
    var u := ":" + afterKey;
    assert u[1..] == afterKey;
    assert Skip(s) == s && Skip(u) == u && Skip(rest) == rest;
  }

  /** The reader takes one member and goes on behind its comma, or stops at the brace. */
  lemma MemberRoundTrip(column: Column, cell: Cell, rest: string)
    requires column.numeric && cell.Some? ==> IsNumber(cell.value)
    requires StartsWith(rest, '}') || StartsWith(rest, ',')
    ensures StartsWith(MemberText(column, cell) + rest, '"')
    ensures ReadMembers(MemberText(column, cell) + rest)
            == Continued(MemberOf(column, cell), rest)
  {
    var s, value := MemberText(column, cell) + rest, ValueText(column, cell) + rest;
    QuotedIsRead(column.name, ":" + value);
    MemberTextSplits(column, cell, rest);
    ValueRoundTrip(column, cell, rest);
    ReadOneMember(s, column.name, value, ValueOf(column, cell), rest);
  }

  lemma MemberTextSplits(column: Column, cell: Cell, rest: string)
    ensures MemberText(column, cell) + rest == Quoted(column.name) + (":" + (ValueText(column, cell) + rest))
  {
    var a, b := Quoted(column.name), ValueText(column, cell);
    assert a + ":" + b + rest == a + (":" + (b + rest));
  }

  lemma Reassociate(a: string, b: string, c: string, d: string)
    ensures a + b + c + d == a + (b + (c + d))
  {
  }

  lemma {:induction false} MembersRoundTrip(columns: seq<Column>, cells: seq<Cell>, i: nat, rest: string)
    requires i < |columns| == |cells| && RowIsLiteral(columns, cells)
    ensures ReadMembers(MembersText(columns, cells, i) + rest) == Some((RowOf(columns, cells)[i..], rest))
    ensures StartsWith(MembersText(columns, cells, i) + rest, '"')
    decreases |columns| - i
  {
    var next := AfterMember(columns, cells, i, rest);
    if i + 1 < |columns| { MembersRoundTrip(columns, cells, i + 1, rest); }
    MemberRoundTrip(columns[i], cells[i], next);
    MembersFrom(columns, cells, i);
  }

  /** The text of the members from `i` on starts with member `i`; then comes a
      comma and the rest, or the closing brace. */
  lemma AfterMember(columns: seq<Column>, cells: seq<Cell>, i: nat, rest: string) returns (next: string)
    requires i < |columns| == |cells|
    ensures MembersText(columns, cells, i) + rest == MemberText(columns[i], cells[i]) + next
    ensures i + 1 == |columns| ==> StartsWith(next, '}') && next[1..] == rest
    ensures i + 1 < |columns| ==> StartsWith(next, ',') && next[1..] == MembersText(columns, cells, i + 1) + rest
  {
    var comma, tail := Comma(i + 1 < |columns|), MembersText(columns, cells, i + 1);
    Reassociate(MemberText(columns[i], cells[i]), comma, tail, rest);
    next := comma + (tail + rest);
  }

  lemma MembersFrom(columns: seq<Column>, cells: seq<Cell>, i: nat)
    requires i < |columns| == |cells|
    ensures RowOf(columns, cells)[i..] == [MemberOf(columns[i], cells[i])] + RowOf(columns, cells)[i + 1..]
    ensures i + 1 == |columns| ==> RowOf(columns, cells)[i..] == [MemberOf(columns[i], cells[i])]
  {
    var row := RowOf(columns, cells);
    assert row[i..] == [row[i]] + row[i + 1..];
  }

  lemma RowRoundTrip(columns: seq<Column>, cells: seq<Cell>, rest: string)
    requires |columns| == |cells| > 0 && RowIsLiteral(columns, cells)
    ensures StartsWith(RowText(columns, cells) + rest, '{')
    ensures ReadObject(RowText(columns, cells) + rest) == Some((RowOf(columns, cells), rest))
  {
    MembersRoundTrip(columns, cells, 0, rest);
    BraceIsRead(MembersText(columns, cells, 0), rest);
  }

  lemma BraceIsRead(members: string, rest: string)
    requires StartsWith(members + rest, '"')
    ensures StartsWith("{" + members + rest, '{')
    ensures ReadObject("{" + members + rest) == ReadMembers(members + rest)
  {
    assert ("{" + members + rest)[1..] == members + rest;
  }

  lemma ReadOneElement(s: string, row: Row, rest: string)
    requires ReadObject(s) == Some((row, "," + rest)) && ReadElements(rest).Some?
    ensures ReadElements(s) == Some(([row] + ReadElements(rest).value.0, ReadElements(rest).value.1))
  {
    assert ("," + rest)[1..] == rest && Skip("," + rest) == "," + rest;
  }

  lemma ReadLastElement(s: string, row: Row)
    requires ReadObject(s) == Some((row, "]"))
    ensures ReadElements(s) == Some(([row], ""))
  {
    assert "]"[1..] == "" && Skip("]") == "]";
  }

  /** The text of the rows from `i` on, without the comma before them. */
  function ElementsText(columns: seq<Column>, rows: seq<seq<Cell>>, i: nat): string
    requires i < |rows| && Fits(columns, rows)
  {
    RowText(columns, rows[i]) + RowsText(columns, rows, i + 1)
  }

  lemma TextAfterRow(columns: seq<Column>, rows: seq<seq<Cell>>, i: nat)
    requires i < |rows| && Fits(columns, rows)
    ensures RowsText(columns, rows, i + 1)
            == if i + 1 == |rows| then "]" else "," + ElementsText(columns, rows, i + 1)
  {
  }

  lemma FirstElement(columns: seq<Column>, rows: seq<seq<Cell>>, i: nat)
    requires columns != [] && i < |rows| && Fits(columns, rows) && NumbersAreLiterals(columns, rows)
    ensures StartsWith(ElementsText(columns, rows, i), '{')
    ensures ReadObject(ElementsText(columns, rows, i))
            == Some((RowOf(columns, rows[i]), RowsText(columns, rows, i + 1)))
  {
    RowRoundTrip(columns, rows[i], RowsText(columns, rows, i + 1));
  }

  lemma {:induction false} RowsRoundTrip(columns: seq<Column>, rows: seq<seq<Cell>>, i: nat)
    requires columns != [] && i < |rows| && Fits(columns, rows) && NumbersAreLiterals(columns, rows)
    ensures ReadElements(ElementsText(columns, rows, i)) == Some((RowsOf(columns, rows)[i..], ""))
    decreases |rows| - i
  {
    var row := RowOf(columns, rows[i]);
    FirstElement(columns, rows, i);
    TextAfterRow(columns, rows, i);
    RowsFrom(columns, rows, i);
    if i + 1 == |rows| {
      ReadLastElement(ElementsText(columns, rows, i), row);
    } else {
      RowsRoundTrip(columns, rows, i + 1);
      ReadOneElement(ElementsText(columns, rows, i), row, ElementsText(columns, rows, i + 1));
    }
  }

  lemma RowsFrom(columns: seq<Column>, rows: seq<seq<Cell>>, i: nat)
    requires i < |rows| && Fits(columns, rows)
    ensures RowsOf(columns, rows)[i..] == [RowOf(columns, rows[i])] + RowsOf(columns, rows)[i + 1..]
    ensures i + 1 == |rows| ==> RowsOf(columns, rows)[i..] == [RowOf(columns, rows[i])]
  {
    var all := RowsOf(columns, rows);
    assert all[i..] == [all[i]] + all[i + 1..];
  }

  lemma BracketIsRead(elements: string)
    requires StartsWith(elements, '{')
    ensures ReadRows("[" + elements)
            == match ReadElements(elements)
               case None => None
               case Some((rows, rest)) => if Skip(rest) == "" then Some(rows) else None
  {
    assert ("[" + elements)[1..] == elements;
  }

  /** Without columns the text is an empty array, and reads as no rows. */
  lemma NoColumns(rows: seq<seq<Cell>>)
    requires Fits([], rows)
    ensures ReadRows(ResultText([], rows)) == Some([]) && NumbersAreLiterals([], rows)
  {
    assert "[]"[1..] == "]" && "]"[1..] == "";
  }

  lemma RowsAreRead(columns: seq<Column>, rows: seq<seq<Cell>>)
    requires columns != [] && Fits(columns, rows) && NumbersAreLiterals(columns, rows)
    ensures ReadRows(ResultText(columns, rows)) == Some(RowsOf(columns, rows))
  {
    if rows == [] {
      assert "[]"[1..] == "]" && "]"[1..] == "";
    } else {
      FirstElement(columns, rows, 0);
      RowsRoundTrip(columns, rows, 0);
      BracketIsRead(ElementsText(columns, rows, 0));
      assert RowsText(columns, rows, 0) == ElementsText(columns, rows, 0);
    }
  }

  /** The reader gets back the rows, column names and cell bytes exactly when every
      numeric cell was a JSON number literal, and rows have columns. */
  lemma ResultRoundTrip(columns: seq<Column>, rows: seq<seq<Cell>>)
    requires Fits(columns, rows)
    ensures ReadRows(ResultText(columns, rows)) == Some(RowsOf(columns, rows))
            <==> NumbersAreLiterals(columns, rows) && (columns == [] ==> rows == [])
  {
    if columns == [] {
      NoColumns(rows);
    } else if NumbersAreLiterals(columns, rows) {
      RowsAreRead(columns, rows);
    } else {
      BadNumberIsLost(columns, rows);
    }
  }

  /** A reader never yields a number that is not one. */
  lemma BadNumberIsLost(columns: seq<Column>, rows: seq<seq<Cell>>)
    requires Fits(columns, rows) && !NumbersAreLiterals(columns, rows)
    ensures ReadRows(ResultText(columns, rows)) != Some(RowsOf(columns, rows))
  {
    var i :| 0 <= i < |rows| && !RowIsLiteral(columns, rows[i]);
    BadRow(columns, rows[i]);
    var result := RowsOf(columns, rows);
    assert result[i] in result && !Genuine(result[i]);
    if ReadRows(ResultText(columns, rows)) == Some(result) { ReadsAreGenuine(ResultText(columns, rows), result); }
  }

  /** A numeric cell that starts with its decimal point, such as .50, is one. */
  lemma LeadingPointIsLost(columns: seq<Column>, rows: seq<seq<Cell>>, i: nat, j: nat, digits: string)
    requires Fits(columns, rows) && i < |rows| && j < |columns|
    requires columns[j].numeric && rows[i][j] == Some("." + digits)
    ensures ReadRows(ResultText(columns, rows)) != Some(RowsOf(columns, rows))
  {
    assert ("." + digits)[0] == '.';
    assert !IsNumber("." + digits);
    assert !RowIsLiteral(columns, rows[i]);
    BadNumberIsLost(columns, rows);
  }

  lemma ReadsAreGenuine(text: string, rows: seq<Row>)
    requires ReadRows(text) == Some(rows)
    ensures forall row :: row in rows ==> Genuine(row)
  {
  }

  lemma BadRow(columns: seq<Column>, cells: seq<Cell>)
    requires |columns| == |cells| && !RowIsLiteral(columns, cells)
    ensures !Genuine(RowOf(columns, cells))
  {
    var j :| 0 <= j < |columns| && columns[j].numeric && cells[j].Some? && !IsNumber(cells[j].value);
    var row := RowOf(columns, cells);
    assert row[j] in row && row[j].value == JNumber(cells[j].value);
  }

  // ----------------------------------------------------------- the methods

  /** `append_json_value`. */
  method AppendValue(builder: string, column: Column, cell: Cell) returns (out: string)
    requires cell.Some? ==> IsBytes(cell.value)
    ensures out == builder + ValueText(column, cell)
  {
    if cell.None? {
      out := builder + "null";
    } else if column.numeric {
      out := builder + cell.value;
    } else {
      out := AppendEscaped(builder, cell.value);
    }
  }

  predicate BytesInRow(columns: seq<Column>, cells: seq<Cell>) {
    && (forall c :: c in columns ==> IsBytes(c.name))
    && (forall c :: c in cells && c.Some? ==> IsBytes(c.value))
  }

  method AppendMember(builder: string, column: Column, cell: Cell) returns (out: string)
    requires IsBytes(column.name) && (cell.Some? ==> IsBytes(cell.value))
    ensures out == builder + MemberText(column, cell)
  {
    out := AppendEscaped(builder, column.name);
    out := out + ":";
    out := AppendValue(out, column, cell);
  }

  lemma Reassociate3(a: string, b: string, c: string, d: string)
    ensures a + (b + c + d) == a + b + c + d
    ensures a + (b + (c + d)) == a + b + c + d
  {
  }

  /** The printing part of `append_json_row`. */
  method AppendRow(builder: string, columns: seq<Column>, cells: seq<Cell>) returns (out: string)
    requires |columns| == |cells| && BytesInRow(columns, cells)
    ensures out == builder + RowText(columns, cells)
  {
    out := builder + "{";
    ghost var goal := builder + RowText(columns, cells);
    var i := 0;
    while i < |columns|
      invariant i <= |columns| && out + MembersText(columns, cells, i) == goal
    {
      assert columns[i] in columns && cells[i] in cells;
      ghost var tail := MembersText(columns, cells, i + 1);
      Reassociate3(out, MemberText(columns[i], cells[i]), Comma(i + 1 < |columns|), tail);
      out := AppendMember(out, columns[i], cells[i]);
      i := i + 1;
      if i < |columns| {
        out := out + ",";
      } else {
        assert out + "" == out;
      }
    }
    out := out + "}";
  }

  lemma PrintRow(json: string, columns: seq<Column>, rows: seq<seq<Cell>>, i: nat)
    requires i < |rows| && Fits(columns, rows)
    ensures json + RowsText(columns, rows, i)
            == json + Comma(i > 0) + RowText(columns, rows[i]) + RowsText(columns, rows, i + 1)
  {
    Reassociate3(json, Comma(i > 0), RowText(columns, rows[i]), RowsText(columns, rows, i + 1));
  }

  /** `fetch_and_build_json` over the fetched rows. */
  method FetchAndBuildJson(columns: seq<Column>, rows: seq<seq<Cell>>) returns (json: string)
    requires Fits(columns, rows) && forall row :: row in rows ==> BytesInRow(columns, row)
    ensures json == ResultText(columns, rows)
  {
    if columns == [] {
      return "[]";
    }
    json := "[";
    var firstRow, i := true, 0;
    while i < |rows|
      invariant i <= |rows| && firstRow == (i == 0)
      invariant json + RowsText(columns, rows, i) == ResultText(columns, rows)
    {
      assert rows[i] in rows;
      PrintRow(json, columns, rows, i);
      if !firstRow {
        json := json + ",";
      } else {
        assert json + "" == json;
      }
      firstRow := false;
      json := AppendRow(json, columns, rows[i]);
      i := i + 1;
    }
    json := json + "]";
  }
}
