/** A specification-level JSON reader: sections 2, 4, 5, 6 and 7 of RFC 8259, for
    arrays of flat objects.  Text is a sequence of bytes. */
module JsonText {

  import opened Common
  import opened Decimals

  datatype Json = JNull | JString(text: string) | JNumber(literal: string)

  datatype Member = Member(key: string, value: Json)

  type Row = seq<Member>

  // ------------------------------------------------------------ whitespace

  predicate IsSpace(c: char) {
    c == ' ' || c == '\t' || c == '\n' || c == '\r'
  }

  function Skip(s: string): (t: string)
    ensures |t| <= |s|
  {
    if s != "" && IsSpace(s[0]) then Skip(s[1..]) else s
  }

  predicate StartsWith(s: string, c: char) {
    s != "" && s[0] == c
  }

  // --------------------------------------------------------------- strings

  function HexValue(c: char): Option<nat> {
    if '0' <= c <= '9' then Some((c - '0') as int)
    else if 'a' <= c <= 'f' then Some((c - 'a') as int + 10)
    else if 'A' <= c <= 'F' then Some((c - 'A') as int + 10)
    else None
  }

  /** The character of a `\uXXXX` escape below the surrogates. */
  function Hex4(s: string): Option<char>
    requires |s| == 4
  {
    var a, b, c, d := HexValue(s[0]), HexValue(s[1]), HexValue(s[2]), HexValue(s[3]);
    if a.None? || b.None? || c.None? || d.None? then None
    else
      var code := ((a.value * 16 + b.value) * 16 + c.value) * 16 + d.value;
      if code < 0xD800 then Some(code as char) else None
  }

  /** The character an escape sequence stands for, and the length of the sequence. */
  function Unescape(s: string): (r: Option<(char, nat)>)
    requires StartsWith(s, '\\')
    ensures r.Some? ==> 2 <= r.value.1 <= |s|
  {
    if |s| < 2 then None
    else if s[1] == '"' || s[1] == '\\' || s[1] == '/' then Some((s[1], 2))
    else if s[1] == 'b' then Some((8 as char, 2))
    else if s[1] == 'f' then Some((12 as char, 2))
    else if s[1] == 'n' then Some(('\n', 2))
    else if s[1] == 'r' then Some(('\r', 2))
    else if s[1] == 't' then Some(('\t', 2))
    else if s[1] == 'u' && |s| >= 6 && Hex4(s[2..6]).Some? then Some((Hex4(s[2..6]).value, 6))
    else None
  }

  /** Reads the rest of a string after its opening quote. */
  function ReadString(s: string): (r: Option<(string, string)>)
    ensures r.Some? ==> |r.value.1| < |s|
    decreases |s|
  {
    if s == "" then None
    else if s[0] == '"' then Some(("", s[1..]))
    else
      var step := if s[0] == '\\' then Unescape(s) else if s[0] < ' ' then None else Some((s[0], 1));
      match step
      case None => None
      case Some((c, n)) =>
        match ReadString(s[n..])
        case None => None
        case Some((text, rest)) => Some(([c] + text, rest))
  }

  // --------------------------------------------------------------- numbers

  predicate IsNumberChar(c: char) {
    IsDigit(c) || c == '-' || c == '+' || c == '.' || c == 'e' || c == 'E'
  }

  function Digits(s: string): (n: nat)
    ensures n <= |s| && forall i :: 0 <= i < n ==> IsDigit(s[i])
  {
    if s != "" && IsDigit(s[0]) then 1 + Digits(s[1..]) else 0
  }

  predicate IsExponent(s: string) {
    s == ""
    || ((s[0] == 'e' || s[0] == 'E')
        && var t := if |s| > 1 && (s[1] == '-' || s[1] == '+') then s[2..] else s[1..];
           t != "" && Digits(t) == |t|)
  }

  predicate IsFractionAndExponent(s: string) {
    if StartsWith(s, '.') then Digits(s[1..]) > 0 && IsExponent(s[1 + Digits(s[1..])..]) else IsExponent(s)
  }

  /** Section 6: minus, int without leading zeros, fraction, exponent. */
  predicate IsNumber(s: string) {
    var u := if StartsWith(s, '-') then s[1..] else s;
    Digits(u) > 0 && (u[0] == '0' ==> Digits(u) == 1) && IsFractionAndExponent(u[Digits(u)..])
  }

  predicate NumberText(s: string) {
    forall i :: 0 <= i < |s| ==> IsNumberChar(s[i])
  }

  function NumberRun(s: string): (n: nat)
    ensures n <= |s| && NumberText(s[..n])
  {
    if s != "" && IsNumberChar(s[0]) then
      var n := NumberRun(s[1..]);
      assert forall i :: 1 <= i < 1 + n ==> s[i] == s[1..][..n][i - 1];
      1 + n
    else 0
  }

  lemma JoinText(s: string, k: nat)
    requires k <= |s| && NumberText(s[..k]) && NumberText(s[k..])
    ensures NumberText(s)
  {
    forall i | 0 <= i < |s| ensures IsNumberChar(s[i]) {
      if i < k { assert s[i] == s[..k][i]; } else { assert s[i] == s[k..][i - k]; }
    }
  }

  lemma DigitsText(s: string)
    ensures NumberText(s[..Digits(s)])
  {
  }

  lemma ExponentText(s: string)
    requires IsExponent(s)
    ensures NumberText(s)
  {
    if s != "" {
      var k := if |s| > 1 && (s[1] == '-' || s[1] == '+') then 2 else 1;
      var t := s[k..];
      DigitsText(t);
      assert t[..|t|] == t;
      JoinText(s, k);
    }
  }

  lemma FractionText(s: string)
    requires IsFractionAndExponent(s)
    ensures NumberText(s)
  {
    if StartsWith(s, '.') {
      var t := s[1..];
      DigitsText(t);
      assert s[1 + Digits(t)..] == t[Digits(t)..];
      ExponentText(t[Digits(t)..]);
      JoinText(t, Digits(t));
      JoinText(s, 1);
    } else {
      ExponentText(s);
    }
  }

  lemma UnsignedText(u: string)
    requires Digits(u) > 0 && IsFractionAndExponent(u[Digits(u)..])
    ensures NumberText(u)
  {
    DigitsText(u);
    FractionText(u[Digits(u)..]);
    JoinText(u, Digits(u));
  }

  /** A number literal holds no delimiter and starts with a minus or a digit. */
  lemma NumberIsText(s: string)
    requires IsNumber(s)
    ensures s != "" && NumberText(s) && (s[0] == '-' || IsDigit(s[0]))
  {
    if StartsWith(s, '-') {
      UnsignedText(s[1..]);
      JoinText(s, 1);
    } else {
      UnsignedText(s);
    }
  }

  lemma {:induction false} RunOfLiteral(s: string, rest: string)
    requires NumberText(s) && (rest != "" ==> !IsNumberChar(rest[0]))
    ensures NumberRun(s + rest) == |s|
  {
    if s == "" {
      assert s + rest == rest;
    } else {
      assert (s + rest)[1..] == s[1..] + rest;
      RunOfLiteral(s[1..], rest);
    }
  }

  // ---------------------------------------------------------------- values

  function ReadValue(s: string): (r: Option<(Json, string)>)
    ensures r.Some? ==> |r.value.1| < |s|
    ensures r.Some? && r.value.0.JNumber? ==> IsNumber(r.value.0.literal)
  {
    var t := Skip(s);
    if "null" <= t then Some((JNull, t[4..]))
    else if StartsWith(t, '"') then
      match ReadString(t[1..])
      case None => None
      case Some((text, rest)) => Some((JString(text), rest))
    else
      var n := NumberRun(t);
      if IsNumber(t[..n]) then Some((JNumber(t[..n]), t[n..])) else None
  }

  predicate Genuine(row: Row) {
    forall m :: m in row && m.value.JNumber? ==> IsNumber(m.value.literal)
  }

  /** Members up to and with the closing brace. */
  function ReadMembers(s: string): (r: Option<(Row, string)>)
    ensures r.Some? ==> |r.value.1| < |s| && Genuine(r.value.0)
    decreases |s|
  {
    var t := Skip(s);
    if !StartsWith(t, '"') then None
    else
      match ReadString(t[1..])
      case None => None
      case Some((key, afterKey)) =>
        var u := Skip(afterKey);
        if !StartsWith(u, ':') then None
        else
          match ReadValue(u[1..])
          case None => None
          case Some((value, afterValue)) =>
            var v := Skip(afterValue);
            if StartsWith(v, '}') then Some(([Member(key, value)], v[1..]))
            else if !StartsWith(v, ',') then None
            else
              match ReadMembers(v[1..])
              case None => None
              case Some((members, rest)) => Some(([Member(key, value)] + members, rest))
  }

  function ReadObject(s: string): (r: Option<(Row, string)>)
    ensures r.Some? ==> |r.value.1| < |s| && Genuine(r.value.0)
  {
    var t := Skip(s);
    if !StartsWith(t, '{') then None
    else if StartsWith(Skip(t[1..]), '}') then Some(([], Skip(t[1..])[1..]))
    else ReadMembers(t[1..])
  }

  /** Objects up to and with the closing bracket. */
  function ReadElements(s: string): (r: Option<(seq<Row>, string)>)
    ensures r.Some? ==> |r.value.1| < |s| && forall row :: row in r.value.0 ==> Genuine(row)
    decreases |s|
  {
    match ReadObject(s)
    case None => None
    case Some((row, afterRow)) =>
      var t := Skip(afterRow);
      if StartsWith(t, ']') then Some(([row], t[1..]))
      else if !StartsWith(t, ',') then None
      else
        match ReadElements(t[1..])
        case None => None
        case Some((rows, rest)) => Some(([row] + rows, rest))
  }

  /** The rows of a JSON text, if it is an array of flat objects and nothing else. */
  function ReadRows(s: string): (r: Option<seq<Row>>)
    ensures r.Some? ==> forall row :: row in r.value ==> Genuine(row)
  {
    var t := Skip(s);
    if !StartsWith(t, '[') then None
    else if StartsWith(Skip(t[1..]), ']') then
      if Skip(Skip(t[1..])[1..]) == "" then Some([]) else None
    else
      match ReadElements(t[1..])
      case None => None
      case Some((rows, rest)) => if Skip(rest) == "" then Some(rows) else None
  }
}
