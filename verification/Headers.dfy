/** `parse_headers`: one pass over the header lines into a case-insensitive,
    first-wins map. */
module Headers {

  import opened Common
  import opened Text

  const MAX_HEADERS := 50

  datatype Rejection =
    | TooManyHeaders | BadKey | BadValue | TransferEncoding | DuplicateHost | DuplicateLength | NoColon

  datatype Outcome = Accepted(fields: map<string, string>) | Rejected(reason: Rejection)

  // ------------------------------------------------------------ characters

  predicate IsTokenChar(c: char) {
    c in "!#$%&'*+-.^_`|~" || '0' <= c <= '9' || 'a' <= c <= 'z' || 'A' <= c <= 'Z'
  }

  /** `is_valid_header_key`: section 5.6.2 of RFC 9110, token. */
  predicate IsToken(key: string) {
    key != "" && forall i :: 0 <= i < |key| ==> IsTokenChar(key[i])
  }

  /** `is_valid_header_value`: no bare CR or LF. */
  predicate IsValue(value: string) {
    Lacks(value, '\r') && Lacks(value, '\n')
  }

  // ----------------------------------------------------------------- lines

  predicate HasColon(line: string) {
    Contains(line, ":")
  }

  function Key(line: string): string
    requires HasColon(line)
  {
    line[..Find(line, ":")]
  }

  function FieldValue(line: string): string
    requires HasColon(line)
  {
    Trim(line[Find(line, ":") + 1..])
  }

  /** The name a line defines, as the map compares names. */
  function Name(line: string): string
    requires HasColon(line)
  {
    LowerAll(Key(line))
  }

  predicate Names(line: string, name: string) {
    HasColon(line) && Name(line) == name
  }

  /** A line that does not break a rule by itself. */
  predicate WellFormed(line: string) {
    HasColon(line) && IsToken(Key(line)) && IsValue(FieldValue(line)) && !Names(line, "transfer-encoding")
  }

  /** One turn of the loop, with the checks in the order of the code.  Keys of the
      map are lower-cased, which is how `sv_ci_equal` identifies them. */
  function AddLine(fields: map<string, string>, line: string): Outcome {
    if line == "" then Accepted(fields)
    else if |fields| >= MAX_HEADERS then Rejected(TooManyHeaders)
    else if !HasColon(line) then Rejected(NoColon)
    else if !IsToken(Key(line)) then Rejected(BadKey)
    else if !IsValue(FieldValue(line)) then Rejected(BadValue)
    else if CiEqual(Key(line), "Transfer-Encoding") then Rejected(TransferEncoding)
    else if CiEqual(Key(line), "Host") && "host" in fields then Rejected(DuplicateHost)
    else if CiEqual(Key(line), "Content-Length") && "content-length" in fields then Rejected(DuplicateLength)
    else if Name(line) in fields then Accepted(fields)
    else Accepted(fields[Name(line) := FieldValue(line)])
  }

  function AddLines(lines: seq<string>): Outcome {
    if lines == [] then Accepted(map[])
    else
      match AddLines(lines[..|lines| - 1])
      case Rejected(reason) => Rejected(reason)
      case Accepted(fields) => AddLine(fields, lines[|lines| - 1])
  }

  // --------------------------------------------------------- specification

  /** The distinct names of the non-empty lines. */
  function NameSet(lines: seq<string>): set<string> {
    if lines == [] then {}
    else
      var last := lines[|lines| - 1];
      NameSet(lines[..|lines| - 1]) + if last != "" && HasColon(last) then {Name(last)} else {}
  }

  /** The value of the first line with this name. */
  function FirstValue(lines: seq<string>, name: string): Option<string> {
    if lines == [] then None
    else
      var earlier := FirstValue(lines[..|lines| - 1], name);
      var last := lines[|lines| - 1];
      if earlier.Some? then earlier
      else if last != "" && Names(last, name) then Some(FieldValue(last))
      else None
  }

  /** Line `i` may be there: it is well formed, does not repeat Host or
      Content-Length, and fewer than 50 names precede it. */
  predicate Allowed(lines: seq<string>, i: nat)
    requires i < |lines|
  {
    lines[i] == "" ||
    (WellFormed(lines[i])
     && |NameSet(lines[..i])| < MAX_HEADERS
     && (Name(lines[i]) in {"host", "content-length"} ==> FirstValue(lines[..i], Name(lines[i])).None?))
  }

  predicate AllAllowed(lines: seq<string>) {
    forall i :: 0 <= i < |lines| ==> Allowed(lines, i)
  }

  lemma CiEqualLiterals(line: string)
    requires HasColon(line)
    ensures CiEqual(Key(line), "Transfer-Encoding") <==> Name(line) == "transfer-encoding"
    ensures CiEqual(Key(line), "Host") <==> Name(line) == "host"
    ensures CiEqual(Key(line), "Content-Length") <==> Name(line) == "content-length"
  {
    CiEqualMeansSameLower(Key(line), "Transfer-Encoding");
    CiEqualMeansSameLower(Key(line), "Host");
    CiEqualMeansSameLower(Key(line), "Content-Length");
    assert LowerAll("Transfer-Encoding") == "transfer-encoding";
    assert LowerAll("Host") == "host";
    assert LowerAll("Content-Length") == "content-length";
  }

  /** The map after the lines is exactly the first value of every name. */
  ghost predicate Holds(fields: map<string, string>, lines: seq<string>) {
    && fields.Keys == NameSet(lines)
    && forall name :: (name in fields <==> FirstValue(lines, name).Some?)
                      && (name in fields ==> FirstValue(lines, name) == Some(fields[name]))
  }

  lemma AddLineAccepts(fields: map<string, string>, lines: seq<string>, line: string)
    requires Holds(fields, lines)
    ensures AddLine(fields, line).Accepted? <==> Allowed(lines + [line], |lines|)
  {
    var all := lines + [line];
    assert all[..|lines|] == lines && all[|lines|] == line;
    assert |fields| == |fields.Keys|;
    if HasColon(line) { CiEqualLiterals(line); }
  }

  lemma AddLineHolds(fields: map<string, string>, lines: seq<string>, line: string)
    requires Holds(fields, lines) && AddLine(fields, line).Accepted?
    ensures Holds(AddLine(fields, line).fields, lines + [line])
  {
    if line == "" {
      EmptyLine(fields, lines);
    } else {
      AcceptedLine(fields, line);
      NewName(fields, lines, line);
    }
  }

  lemma EmptyLine(fields: map<string, string>, lines: seq<string>)
    requires Holds(fields, lines)
    ensures Holds(fields, lines + [""])
  {
    var all := lines + [""];
    assert all[..|all| - 1] == lines && all[|all| - 1] == "";
  }

  lemma AcceptedLine(fields: map<string, string>, line: string)
    requires line != "" && AddLine(fields, line).Accepted?
    ensures HasColon(line)
    ensures var name := Name(line);
            AddLine(fields, line).fields == if name in fields then fields else fields[name := FieldValue(line)]
  {
  }

  /** Adding a name that is there changes nothing, adding a new one gives it its value. */
  lemma NewName(fields: map<string, string>, lines: seq<string>, line: string)
    requires Holds(fields, lines) && line != "" && HasColon(line)
    ensures var name := Name(line);
            Holds(if name in fields then fields else fields[name := FieldValue(line)], lines + [line])
  {
    var all, name := lines + [line], Name(line);
    var after := if name in fields then fields else fields[name := FieldValue(line)];
    assert all[..|all| - 1] == lines && all[|all| - 1] == line;
    assert after.Keys == fields.Keys + {name};
    forall other
      ensures other in after <==> FirstValue(all, other).Some?
      ensures other in after ==> FirstValue(all, other) == Some(after[other])
    {
      assert other in fields <==> FirstValue(lines, other).Some?;
    }
  }

  lemma AllowedInPrefix(lines: seq<string>, more: seq<string>, i: nat)
    requires i < |lines|
    ensures Allowed(lines, i) <==> Allowed(lines + more, i)
  {
    assert (lines + more)[..i] == lines[..i];
  }

  /** The front's lines and the last one make the whole. */
  lemma AllowedStep(front: seq<string>, last: string)
    ensures AllAllowed(front + [last]) <==> AllAllowed(front) && Allowed(front + [last], |front|)
  {
    forall i | 0 <= i < |front| ensures Allowed(front, i) <==> Allowed(front + [last], i) {
      AllowedInPrefix(front, [last], i);
    }
  }

  /** The pass succeeds exactly on allowed lines and then holds, for every lower-cased
      name, the first trimmed value. */
  lemma {:induction false} LinesMeaning(lines: seq<string>)
    ensures AddLines(lines).Accepted? <==> AllAllowed(lines)
    ensures AddLines(lines).Accepted? ==> Holds(AddLines(lines).fields, lines)
  {
    if lines != [] {
      var front, last := lines[..|lines| - 1], lines[|lines| - 1];
      LinesMeaning(front);
      assert lines == front + [last];
      AllowedStep(front, last);
      if AddLines(front).Accepted? {
        var fields := AddLines(front).fields;
        AddLineAccepts(fields, front, last);
        if AddLine(fields, last).Accepted? { AddLineHolds(fields, front, last); }
      }
    }
  }

  lemma {:induction false} FewNames(lines: seq<string>)
    requires AllAllowed(lines)
    ensures |NameSet(lines)| <= 50
  {
    if lines != [] {
      var front, last := lines[..|lines| - 1], lines[|lines| - 1];
      assert lines == front + [last];
      AllowedStep(front, last);
      FewNames(front);
      if last != "" { AddOneName(NameSet(front), Name(last)); }
    }
  }

  lemma AddOneName(names: set<string>, name: string)
    ensures |names + {name}| <= |names| + 1
  {
    if name in names { assert names + {name} == names; }
  }

  // ------------------------------------------- the same without lower-casing

  // Section 5.6.2 of RFC 9110.
  const TCHAR := "!#$%&'*+-.^_`|~" + DIGITS + UPPER + LOWER

  lemma TokenCharMeaning(c: char)
    ensures IsTokenChar(c) <==> c in TCHAR
  {
    RunOfDigits(c);
    RunOfUpper(c);
    RunOfLower(c);
  }

  /** A line with this field name, whatever the case of its letters. */
  predicate HasName(line: string, key: string) {
    line != "" && HasColon(line) && SameButCase(Key(line), key)
  }

  predicate NamedBefore(lines: seq<string>, n: nat, key: string)
    requires n <= |lines|
  {
    exists j :: 0 <= j < n && HasName(lines[j], key)
  }

  /** The value of the first line with this name. */
  function FirstNamed(lines: seq<string>, key: string): Option<string> {
    if lines == [] then None
    else
      var earlier := FirstNamed(lines[..|lines| - 1], key);
      var last := lines[|lines| - 1];
      if earlier.Some? then earlier else if HasName(last, key) then Some(FieldValue(last)) else None
  }

  /** The number of different names. */
  function NameCount(lines: seq<string>): nat {
    if lines == [] then 0
    else
      var n := |lines| - 1;
      NameCount(lines[..n])
      + if lines[n] != "" && HasColon(lines[n]) && !NamedBefore(lines, n, Key(lines[n])) then 1 else 0
  }

  /** Line `i` may be there: a token, a colon and one line of text; not
      Transfer-Encoding, no second Host or Content-Length, and not after 50 names. */
  predicate Permitted(lines: seq<string>, i: nat)
    requires i < |lines|
  {
    var line := lines[i];
    line == "" ||
    (&& HasColon(line) && Key(line) != "" && (forall k :: 0 <= k < |Key(line)| ==> Key(line)[k] in TCHAR)
     && (forall k :: 0 <= k < |FieldValue(line)| ==> FieldValue(line)[k] !in "\r\n")
     && !SameButCase(Key(line), "Transfer-Encoding")
     && NameCount(lines[..i]) < 50
     && (SameButCase(Key(line), "Host") || SameButCase(Key(line), "Content-Length") ==>
           !NamedBefore(lines, i, Key(line))))
  }

  predicate Acceptable(lines: seq<string>) {
    forall i :: 0 <= i < |lines| ==> Permitted(lines, i)
  }

  /** The map's `find`. */
  function Lookup(fields: map<string, string>, key: string): Option<string> {
    if LowerAll(key) in fields then Some(fields[LowerAll(key)]) else None
  }

  /** Whatever name is looked up, in whatever case: the first line's value, or nothing;
      and there are no entries besides. */
  ghost predicate FindsFirst(fields: map<string, string>, lines: seq<string>) {
    (forall key :: Lookup(fields, key) == FirstNamed(lines, key)) && |fields| == NameCount(lines)
  }

  lemma NamesMeaning(line: string, key: string)
    requires HasColon(line)
    ensures Names(line, LowerAll(key)) <==> SameButCase(Key(line), key)
  {
    CiEqualMeansSameLower(Key(line), key);
    CiEqualMeaning(Key(line), key);
  }

  lemma {:induction false} FirstNamedMeaning(lines: seq<string>, key: string)
    ensures FirstNamed(lines, key) == FirstValue(lines, LowerAll(key))
  {
    if lines != [] {
      FirstNamedMeaning(lines[..|lines| - 1], key);
      if HasColon(lines[|lines| - 1]) { NamesMeaning(lines[|lines| - 1], key); }
    }
  }

  lemma {:induction false} NamedBeforeMeaning(lines: seq<string>, n: nat, key: string)
    requires n <= |lines|
    ensures NamedBefore(lines, n, key) <==> FirstNamed(lines[..n], key).Some?
    ensures NamedBefore(lines, n, key) <==> LowerAll(key) in NameSet(lines[..n])
  {
    if n > 0 {
      NamedBeforeMeaning(lines, n - 1, key);
      assert lines[..n][..n - 1] == lines[..n - 1];
      if HasColon(lines[n - 1]) { NamesMeaning(lines[n - 1], key); }
      assert NamedBefore(lines, n, key) <==> NamedBefore(lines, n - 1, key) || HasName(lines[n - 1], key);
    }
  }

  lemma {:induction false} NameCountMeaning(lines: seq<string>)
    ensures |NameSet(lines)| == NameCount(lines)
  {
    if lines != [] {
      var n := |lines| - 1;
      NameCountMeaning(lines[..n]);
      if lines[n] != "" && HasColon(lines[n]) {
        NamedBeforeMeaning(lines, n, Key(lines[n]));
        OneMoreName(NameSet(lines[..n]), Name(lines[n]));
      }
    }
  }

  lemma OneMoreName(names: set<string>, name: string)
    ensures |names + {name}| == |names| + if name in names then 0 else 1
  {
    if name in names { assert names + {name} == names; }
  }

  lemma TokenMeaning(key: string)
    ensures IsToken(key) <==> key != "" && forall k :: 0 <= k < |key| ==> key[k] in TCHAR
  {
    forall k | 0 <= k < |key| ensures IsTokenChar(key[k]) <==> key[k] in TCHAR { TokenCharMeaning(key[k]); }
  }

  lemma ForbiddenNames(line: string)
    requires HasColon(line)
    ensures Names(line, "transfer-encoding") <==> SameButCase(Key(line), "Transfer-Encoding")
    ensures Names(line, "host") <==> SameButCase(Key(line), "Host")
    ensures Names(line, "content-length") <==> SameButCase(Key(line), "Content-Length")
  {
    CiEqualLiterals(line);
    CiEqualMeaning(Key(line), "Transfer-Encoding");
    CiEqualMeaning(Key(line), "Host");
    CiEqualMeaning(Key(line), "Content-Length");
  }

  lemma AllowedMeaning(lines: seq<string>, i: nat)
    requires i < |lines|
    ensures Allowed(lines, i) <==> Permitted(lines, i)
  {
    var line := lines[i];
    if line != "" && HasColon(line) {
      TokenMeaning(Key(line));
      ForbiddenNames(line);
      NameCountMeaning(lines[..i]);
      NamedBeforeMeaning(lines, i, Key(line));
      FirstNamedMeaning(lines[..i], Key(line));
    }
  }

  /** `parse_headers` succeeds exactly on acceptable lines; then a lookup of any name
      gives the first trimmed value that a line has for it. */
  lemma HeadersMeaning(lines: seq<string>)
    ensures AddLines(lines).Accepted? <==> Acceptable(lines)
    ensures AddLines(lines).Accepted? ==> FindsFirst(AddLines(lines).fields, lines)
  {
    LinesMeaning(lines);
    forall i | 0 <= i < |lines| ensures Allowed(lines, i) <==> Permitted(lines, i) { AllowedMeaning(lines, i); }
    if AddLines(lines).Accepted? {
      var fields := AddLines(lines).fields;
      forall key ensures Lookup(fields, key) == FirstNamed(lines, key) { FirstNamedMeaning(lines, key); }
      NameCountMeaning(lines);
      assert |fields| == |fields.Keys|;
    }
  }

  /** At most 50 different names are ever accepted. */
  lemma AtMostFiftyNames(lines: seq<string>)
    requires Acceptable(lines)
    ensures NameCount(lines) <= 50
  {
    forall i | 0 <= i < |lines| ensures Allowed(lines, i) { AllowedMeaning(lines, i); }
    FewNames(lines);
    NameCountMeaning(lines);
  }

  /** A rejected prefix rejects the whole. */
  lemma {:induction false} RejectionStays(lines: seq<string>, i: nat)
    requires i <= |lines| && AddLines(lines[..i]).Rejected?
    ensures AddLines(lines) == AddLines(lines[..i])
    decreases |lines|
  {
    if i == |lines| {
      assert lines[..i] == lines;
    } else {
      var front := lines[..|lines| - 1];
      assert front[..i] == lines[..i];
      RejectionStays(front, i);
    }
  }

  lemma RejectedAt(lines: seq<string>, i: nat, reason: Rejection)
    requires i < |lines| && AddLines(lines[..i]).Accepted?
    requires AddLine(AddLines(lines[..i]).fields, lines[i]) == Rejected(reason)
    ensures AddLines(lines) == Rejected(reason)
  {
    assert lines[..i + 1][..i] == lines[..i];
    RejectionStays(lines, i + 1);
  }

  /** The outcome is the error of the first rule this line breaks: the count of names
      comes first, then the colon, the name, the value, and the names not allowed. */
  predicate Explained(outcome: Outcome, line: string, count: nat, hasHost: bool, hasLength: bool) {
    && (count >= 50 ==> outcome == Rejected(TooManyHeaders))
    && (count < 50 ==>
          && (!HasColon(line) ==> outcome == Rejected(NoColon))
          && (HasColon(line) && !IsToken(Key(line)) ==> outcome == Rejected(BadKey))
          && (HasColon(line) && IsToken(Key(line)) && !IsValue(FieldValue(line)) ==> outcome == Rejected(BadValue))
          && (HasColon(line) && IsToken(Key(line)) && IsValue(FieldValue(line)) ==>
                && (SameButCase(Key(line), "Transfer-Encoding") ==> outcome == Rejected(TransferEncoding))
                && (SameButCase(Key(line), "Host") && hasHost ==> outcome == Rejected(DuplicateHost))
                && (SameButCase(Key(line), "Content-Length") && hasLength ==> outcome == Rejected(DuplicateLength))))
  }

  lemma LowerLiterals()
    ensures LowerAll("Host") == "host" && LowerAll("Content-Length") == "content-length"
  {
  }

  lemma LineExplained(fields: map<string, string>, line: string)
    requires line != ""
    ensures Explained(AddLine(fields, line), line, |fields|,
                      Lookup(fields, "Host").Some?, Lookup(fields, "Content-Length").Some?)
  {
    if HasColon(line) {
      CiEqualMeaning(Key(line), "Transfer-Encoding");
      CiEqualMeaning(Key(line), "Host");
      CiEqualMeaning(Key(line), "Content-Length");
      LowerLiterals();
    }
  }

  lemma AcceptedExplains(fields: map<string, string>, line: string, count: nat, hasHost: bool, hasLength: bool,
                         outcome: Outcome)
    requires Explained(Accepted(fields), line, count, hasHost, hasLength)
    ensures Explained(outcome, line, count, hasHost, hasLength)
  {
  }

  /** The first line that breaks a rule decides the error. */
  lemma RejectionMeaning(lines: seq<string>, i: nat)
    requires i < |lines| && lines[i] != "" && Acceptable(lines[..i])
    ensures Explained(AddLines(lines), lines[i], NameCount(lines[..i]),
                      FirstNamed(lines[..i], "Host").Some?, FirstNamed(lines[..i], "Content-Length").Some?)
  {
    HeadersMeaning(lines[..i]);
    var fields, line := AddLines(lines[..i]).fields, lines[i];
    LineExplained(fields, line);
    match AddLine(fields, line)
    case Rejected(reason) => RejectedAt(lines, i, reason);
    case Accepted(more) =>
      AcceptedExplains(more, line, NameCount(lines[..i]), FirstNamed(lines[..i], "Host").Some?,
                       FirstNamed(lines[..i], "Content-Length").Some?, AddLines(lines));
  }

  /** The loop over `views::split`. */
  method ParseHeaders(text: string) returns (outcome: Outcome)
    ensures outcome == AddLines(Split(text, CRLF))
    ensures outcome.Accepted? <==> Acceptable(Split(text, CRLF))
    ensures outcome.Accepted? ==> FindsFirst(outcome.fields, Split(text, CRLF))
  {
    var lines := Split(text, CRLF);
    var fields: map<string, string> := map[];
    var i := 0;
    while i < |lines|
      invariant i <= |lines|
      invariant AddLines(lines[..i]) == Accepted(fields)
    {
      var line := lines[i];
      assert lines[..i + 1][..i] == lines[..i];
      var next := AddLine(fields, line);
      match next {
        case Rejected(reason) =>
          RejectionStays(lines, i + 1);
          HeadersMeaning(lines);
          return Rejected(reason);
        case Accepted(more) =>
          fields := more;
      }
      i := i + 1;
    }
    assert lines[..i] == lines;
    HeadersMeaning(lines);
    return Accepted(fields);
  }

  // -------------------------------------------------------------- hashing

  /** `sv_ci_hash`: a 64-bit wrapping fold over the lower-cased characters. */
  function CiHash(s: string): nat {
    if s == "" then 5381
    else
      var h := CiHash(s[..|s| - 1]);
      ((h * 32) % 0x1_0000_0000_0000_0000 + h + Lower(s[|s| - 1]) as int) % 0x1_0000_0000_0000_0000
  }

  method ComputeCiHash(s: string) returns (hash: nat)
    ensures hash == CiHash(s)
  {
    hash := 5381;
    var i := 0;
    while i < |s|
      invariant i <= |s| && hash == CiHash(s[..i])
    {
      assert s[..i + 1][..i] == s[..i];
      hash := ((hash * 32) % 0x1_0000_0000_0000_0000 + hash + Lower(s[i]) as int) % 0x1_0000_0000_0000_0000;
      i := i + 1;
    }
    assert s[..i] == s;
  }

  /** The shift and the addition are a multiplication by 33, modulo 2^64. */
  lemma HashStep(s: string, c: char)
    ensures CiHash("") == 5381
    ensures CiHash(s + [c]) == (33 * CiHash(s) + Lower(c) as int) % 0x1_0000_0000_0000_0000
  {
    assert (s + [c])[..|s|] == s;
    ShiftAndAdd(CiHash(s), Lower(c) as int);
  }

  lemma ShiftAndAdd(h: nat, c: nat)
    ensures ((h * 32) % 0x1_0000_0000_0000_0000 + h + c) % 0x1_0000_0000_0000_0000
            == (33 * h + c) % 0x1_0000_0000_0000_0000
  {
  }

  /** Names the map treats as equal hash equally, so a lookup finds them. */
  lemma {:induction false} EqualNamesHashEqually(a: string, b: string)
    requires CiEqual(a, b)
    ensures CiHash(a) == CiHash(b)
  {
    if a != "" {
      EqualNamesHashEqually(a[..|a| - 1], b[..|b| - 1]);
      assert Lower(a[|a| - 1]) == Lower(b[|b| - 1]);
    }
  }
}
