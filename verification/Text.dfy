/** The string-view operations the parsers are built from. */
module Text {

  const CRLF := "\r\n"
  const BLANK_LINE := "\r\n\r\n"

  // -------------------------------------------------------------- searching

  predicate Occurs(s: string, p: string, i: nat) {
    i + |p| <= |s| && s[i..i + |p|] == p
  }

  function FindFrom(s: string, p: string, k: nat): (i: nat)
    requires p != "" && k <= |s|
    ensures k <= i <= |s|
    ensures i < |s| ==> Occurs(s, p, i)
    ensures forall j :: k <= j < i ==> !Occurs(s, p, j)
    decreases |s| - k
  {
    if k + |p| > |s| then |s|
    else if Occurs(s, p, k) then k
    else FindFrom(s, p, k + 1)
  }

  /** First position of the non-empty pattern, |s| standing for npos. */
  function Find(s: string, p: string): (i: nat)
    requires p != ""
    ensures i <= |s|
    ensures i < |s| ==> Occurs(s, p, i)
    ensures forall k :: 0 <= k < i ==> !Occurs(s, p, k)
  {
    FindFrom(s, p, 0)
  }

  predicate Contains(s: string, p: string)
    requires p != ""
  {
    Find(s, p) < |s|
  }

  /** The position with an occurrence and none before it is the one found. */
  lemma FindIs(s: string, p: string, i: nat)
    requires p != "" && Occurs(s, p, i) && forall k :: 0 <= k < i ==> !Occurs(s, p, k)
    ensures Find(s, p) == i
  {
  }

  /** One differing character rules an occurrence out. */
  lemma Differs(s: string, p: string, k: nat, i: nat)
    requires i < |p| && (k + i < |s| ==> s[k + i] != p[i])
    ensures !Occurs(s, p, k)
  {
    if k + |p| <= |s| { assert s[k..k + |p|][i] == s[k + i]; }
  }

  lemma FindNone(s: string, p: string)
    requires p != "" && forall k :: 0 <= k < |s| ==> !Occurs(s, p, k)
    ensures Find(s, p) == |s|
  {
  }

  /** What is found in a prefix is found in the whole. */
  lemma FindInPrefix(s: string, more: string, p: string)
    requires p != "" && Contains(s, p)
    ensures Find(s + more, p) == Find(s, p)
  {
    var i := Find(s, p);
    assert (s + more)[i..i + |p|] == s[i..i + |p|];
    forall k | 0 <= k < i ensures !Occurs(s + more, p, k) {
      assert !Occurs(s, p, k) && k + |p| <= |s|;
      assert (s + more)[k..k + |p|] == s[k..k + |p|];
    }
    FindIs(s + more, p, i);
  }

  predicate Lacks(s: string, c: char) {
    forall i :: 0 <= i < |s| ==> s[i] != c
  }

  /** The first separator after text that lacks it is the one that was put there. */
  lemma FindChar(a: string, c: char, b: string)
    requires Lacks(a, c)
    ensures Find(a + [c] + b, [c]) == |a|
  {
    var s := a + [c] + b;
    assert s[|a|..|a| + 1] == [c];
    forall k | 0 <= k < |a| ensures !Occurs(s, [c], k) { Differs(s, [c], k, 0); }
    FindIs(s, [c], |a|);
  }

  predicate OneLine(s: string) {
    Lacks(s, '\r') && Lacks(s, '\n')
  }

  lemma OneLineJoins(a: string, b: string)
    requires OneLine(a) && OneLine(b)
    ensures OneLine(a + b)
  {
  }

  lemma NoBreakInside(a: string, p: string, rest: string)
    requires p != "" && p[0] == '\r' && Lacks(a, '\r')
    ensures Find(a + p + rest, p) == |a|
  {
    var s := a + p + rest;
    assert s[|a|..|a| + |p|] == p;
    forall k | 0 <= k < |a| ensures !Occurs(s, p, k) { Differs(s, p, k, 0); }
    FindIs(s, p, |a|);
  }

  lemma TwoLinesThenBlank(a: string, b: string, content: string)
    requires OneLine(a) && OneLine(b) && b != ""
    ensures Find(a + CRLF + b + BLANK_LINE + content, BLANK_LINE) == |a| + 2 + |b|
  {
    var head := a + CRLF + b;
    var s := head + BLANK_LINE + content;
    assert s[|head|..|head| + 4] == BLANK_LINE;
    forall k | 0 <= k < |head| ensures !Occurs(s, BLANK_LINE, k) {
      Differs(s, BLANK_LINE, k, if k == |a| then 2 else 0);
    }
    FindIs(s, BLANK_LINE, |head|);
  }

  // -------------------------------------------------------------- splitting

  /** `std::views::split`: the empty text has no parts, and a delimiter at the end
      is followed by one empty part. */
  function Split(s: string, p: string): (parts: seq<string>)
    requires p != ""
    decreases |s|
  {
    if s == "" then []
    else
      var i := Find(s, p);
      if i == |s| then [s]
      else
        var rest := s[i + |p|..];
        [s[..i]] + if rest == "" then [""] else Split(rest, p)
  }

  /** Texts with the mark between them. */
  function Glued(pieces: seq<string>, mark: string): string
    requires pieces != []
  {
    if |pieces| == 1 then pieces[0] else pieces[0] + mark + Glued(pieces[1..], mark)
  }

  /** No occurrence of the mark begins in the piece when the mark follows it. */
  predicate CutAtFirst(piece: string, mark: string)
    requires mark != ""
  {
    !Contains(piece + mark[..|mark| - 1], mark)
  }

  lemma FirstCut(s: string, mark: string)
    requires mark != "" && Contains(s, mark)
    ensures var i := Find(s, mark); s == s[..i] + mark + s[i + |mark|..] && CutAtFirst(s[..i], mark)
  {
    var i := Find(s, mark);
    var t := s[..i] + mark[..|mark| - 1];
    assert s == s[..i] + mark + s[i + |mark|..];
    forall k: nat | k < |t| ensures !Occurs(t, mark, k) {
      if k + |mark| <= |t| {
        assert !Occurs(s, mark, k);
        assert t[k..k + |mark|] == s[k..k + |mark|];
      }
    }
    FindNone(t, mark);
  }

  /** The pieces are the text cut at the marks, each at its first occurrence. */
  lemma {:induction false} SplitMeaning(s: string, mark: string)
    requires mark != ""
    ensures Split(s, mark) == [] <==> s == ""
    ensures s != "" ==>
              var pieces := Split(s, mark);
              && Glued(pieces, mark) == s && !Contains(pieces[|pieces| - 1], mark)
              && forall i :: 0 <= i < |pieces| - 1 ==> CutAtFirst(pieces[i], mark)
    decreases |s|
  {
    hide CutAtFirst, Find;
    var i := Find(s, mark);
    if i < |s| {
      FirstCut(s, mark);
      var rest := s[i + |mark|..];
      SplitMeaning(rest, mark);
    }
  }

  lemma SplitStep(a: string, p: string, rest: string)
    requires p != "" && rest != "" && Find(a + p + rest, p) == |a|
    ensures Split(a + p + rest, p) == [a] + Split(rest, p)
  {
    var s := a + p + rest;
    assert s[..|a|] == a && s[|a| + |p|..] == rest;
  }

  lemma SplitOne(a: string, p: string)
    requires p != "" && a != "" && !Contains(a, p)
    ensures Split(a, p) == [a]
  {
  }

  lemma OneLineIsOne(a: string)
    requires a != "" && Lacks(a, '\r')
    ensures Split(a, CRLF) == [a]
  {
    forall k: nat | k < |a| ensures !Occurs(a, CRLF, k) { Differs(a, CRLF, k, 0); }
    FindNone(a, CRLF);
    SplitOne(a, CRLF);
  }

  lemma TwoLines(a: string, b: string)
    requires Lacks(a, '\r') && Lacks(b, '\r') && b != ""
    ensures Split(a + CRLF + b, CRLF) == [a, b]
  {
    NoBreakInside(a, CRLF, b);
    SplitStep(a, CRLF, b);
    OneLineIsOne(b);
  }

  /** Header lines as they stand in a message: CRLF between them. */
  function JoinLines(lines: seq<string>): string
    requires lines != []
  {
    if |lines| == 1 then lines[0] else lines[0] + CRLF + JoinLines(lines[1..])
  }

  predicate AreLines(lines: seq<string>) {
    forall i :: 0 <= i < |lines| ==> lines[i] != "" && OneLine(lines[i])
  }

  lemma {:induction false} JoinedStart(lines: seq<string>)
    requires lines != [] && AreLines(lines)
    ensures JoinLines(lines) != "" && JoinLines(lines)[0] == lines[0][0] != '\r'
  {
  }

  /** Splitting gives the lines back. */
  lemma {:induction false} SplitJoined(lines: seq<string>)
    requires lines != [] && AreLines(lines)
    ensures Split(JoinLines(lines), CRLF) == lines
    decreases |lines|
  {
    if |lines| == 1 {
      OneLineIsOne(lines[0]);
    } else {
      var rest := lines[1..];
      SplitJoined(rest);
      JoinedStart(rest);
      NoBreakInside(lines[0], CRLF, JoinLines(rest));
      SplitStep(lines[0], CRLF, JoinLines(rest));
    }
  }

  lemma OccursBehind(a: string, s: string, p: string, k: nat)
    ensures Occurs(a + s, p, |a| + k) <==> Occurs(s, p, k)
  {
    if k + |p| <= |s| { assert (a + s)[|a| + k..|a| + k + |p|] == s[k..k + |p|]; }
  }

  /** A line in front moves the first blank line by its length. */
  lemma BlankBehindLine(a: string, s: string, j: nat)
    requires OneLine(a) && j < |s| && s[0] != '\r' && Find(s, BLANK_LINE) == j
    ensures Find(a + CRLF + s, BLANK_LINE) == |a| + 2 + j
  {
    var front := a + CRLF;
    forall k: nat | k < |front| + j ensures !Occurs(front + s, BLANK_LINE, k) {
      if k < |front| {
        Differs(front + s, BLANK_LINE, k, if k == |a| then 2 else 0);
      } else {
        OccursBehind(front, s, BLANK_LINE, k - |front|);
      }
    }
    OccursBehind(front, s, BLANK_LINE, j);
    FindIs(front + s, BLANK_LINE, |front| + j);
  }

  /** The first blank line is the one behind the lines. */
  lemma {:induction false} BlankBehindLines(lines: seq<string>, content: string)
    requires lines != [] && AreLines(lines)
    ensures Find(JoinLines(lines) + BLANK_LINE + content, BLANK_LINE) == |JoinLines(lines)|
    decreases |lines|
  {
    if |lines| == 1 {
      NoBreakInside(lines[0], BLANK_LINE, content);
    } else {
      var rest := lines[1..];
      var s := JoinLines(rest) + BLANK_LINE + content;
      BlankBehindLines(rest, content);
      JoinedStart(rest);
      BlankBehindLine(lines[0], s, |JoinLines(rest)|);
      assert JoinLines(lines) + BLANK_LINE + content == lines[0] + CRLF + s;
    }
  }

  // --------------------------------------------------------------- trimming

  predicate IsBlank(c: char) {
    c == ' ' || c == '\t'
  }

  function TrimLeft(s: string): string {
    if s != "" && IsBlank(s[0]) then TrimLeft(s[1..]) else s
  }

  function TrimRight(s: string): string {
    if s != "" && IsBlank(s[|s| - 1]) then TrimRight(s[..|s| - 1]) else s
  }

  /** `trim_sv`. */
  function Trim(s: string): string {
    TrimRight(TrimLeft(s))
  }

  predicate AllBlank(s: string) {
    forall i :: 0 <= i < |s| ==> IsBlank(s[i])
  }

  lemma {:induction false} TrimLeftMeaning(s: string)
    ensures var t := TrimLeft(s);
            |t| <= |s| && AllBlank(s[..|s| - |t|]) && s[|s| - |t|..] == t && (t != "" ==> !IsBlank(t[0]))
  {
    if s != "" && IsBlank(s[0]) {
      TrimLeftMeaning(s[1..]);
      var n := |s| - |TrimLeft(s)|;
      assert s[1..][n - 1..] == s[n..];
      assert forall i :: 1 <= i < n ==> s[i] == s[1..][..n - 1][i - 1];
    }
  }

  lemma {:induction false} TrimRightMeaning(s: string)
    ensures var t := TrimRight(s);
            |t| <= |s| && s[..|t|] == t && AllBlank(s[|t|..]) && (t != "" ==> !IsBlank(t[|t| - 1]))
  {
    if s != "" && IsBlank(s[|s| - 1]) {
      var front := s[..|s| - 1];
      TrimRightMeaning(front);
      var n := |TrimRight(s)|;
      assert front[..n] == s[..n];
      assert forall i :: n <= i < |front| ==> s[i] == front[n..][i - n];
    }
  }

  predicate SpacesAndTabs(s: string) {
    forall i :: 0 <= i < |s| ==> s[i] in " \t"
  }

  lemma BlanksAreSpacesAndTabs(s: string)
    ensures AllBlank(s) <==> SpacesAndTabs(s)
    ensures s != "" ==> (IsBlank(s[0]) <==> s[0] in " \t") && (IsBlank(s[|s| - 1]) <==> s[|s| - 1] in " \t")
  {
    forall i | 0 <= i < |s| ensures IsBlank(s[i]) <==> s[i] in " \t" {}
  }

  lemma TrimCuts(s: string) returns (a: string, b: string)
    ensures s == a + Trim(s) + b && AllBlank(a) && AllBlank(b)
    ensures Trim(s) != "" ==> !IsBlank(Trim(s)[0]) && !IsBlank(Trim(s)[|Trim(s)| - 1])
  {
    TrimLeftMeaning(s);
    var l := TrimLeft(s);
    TrimRightMeaning(l);
    var t := TrimRight(l);
    a, b := s[..|s| - |l|], l[|t|..];
    assert s == a + l && l == t + b;
  }

  /** Exactly the spaces and tabs around the text go. */
  lemma TrimMeaning(s: string)
    ensures exists a, b :: s == a + Trim(s) + b && SpacesAndTabs(a) && SpacesAndTabs(b)
    ensures Trim(s) != "" ==> Trim(s)[0] !in " \t" && Trim(s)[|Trim(s)| - 1] !in " \t"
  {
    var a, b := TrimCuts(s);
    BlanksAreSpacesAndTabs(a);
    BlanksAreSpacesAndTabs(b);
    BlanksAreSpacesAndTabs(Trim(s));
  }

  lemma {:induction false} TrimExact(a: string, s: string, b: string)
    requires AllBlank(a) && AllBlank(b)
    requires s != "" ==> !IsBlank(s[0]) && !IsBlank(s[|s| - 1])
    ensures Trim(a + s + b) == s
  {
    TrimLeftExact(a, s + b);
    assert a + s + b == a + (s + b);
    if s != "" {
      assert TrimLeft(a + s + b) == s + b;
    } else {
      TrimLeftExact(b, "");
      assert s + b == b && b + "" == b;
      TrimLeftBlank(a + s + b);
    }
    TrimRightExact(s, b);
  }

  lemma {:induction false} TrimLeftBlank(a: string)
    requires AllBlank(a)
    ensures TrimLeft(a) == ""
  {
    if a != "" { TrimLeftBlank(a[1..]); }
  }

  lemma {:induction false} TrimLeftExact(a: string, s: string)
    requires AllBlank(a)
    ensures TrimLeft(a + s) == TrimLeft(s)
  {
    if a == "" { assert a + s == s; }
    else {
      assert (a + s)[1..] == a[1..] + s;
      TrimLeftExact(a[1..], s);
    }
  }

  lemma {:induction false} TrimRightExact(s: string, b: string)
    requires AllBlank(b)
    ensures TrimRight(s + b) == TrimRight(s)
  {
    if b == "" { assert s + b == s; }
    else {
      assert (s + b)[..|s + b| - 1] == s + b[..|b| - 1];
      TrimRightExact(s, b[..|b| - 1]);
    }
  }

  // ------------------------------------------------------- letters and digits

  const DIGITS := "0123456789"
  const UPPER := "ABCDEFGHIJKLMNOPQRSTUVWXYZ"
  const LOWER := "abcdefghijklmnopqrstuvwxyz"

  lemma LettersInOrder(d: nat)
    requires d < 26
    ensures UPPER[d] as int == 65 + d && LOWER[d] as int == 97 + d
  {
  }

  lemma DigitsInOrder(d: nat)
    requires d < 10
    ensures DIGITS[d] as int == 48 + d
  {
  }

  lemma RunOfDigits(c: char)
    ensures '0' <= c <= '9' <==> c in DIGITS
  {
    if '0' <= c <= '9' { assert DIGITS[c as int - 48] == c; }
  }

  lemma RunOfUpper(c: char)
    ensures 'A' <= c <= 'Z' <==> c in UPPER
  {
    if 'A' <= c <= 'Z' { assert UPPER[c as int - 65] == c; }
  }

  lemma RunOfLower(c: char)
    ensures 'a' <= c <= 'z' <==> c in LOWER
  {
    if 'a' <= c <= 'z' { assert LOWER[c as int - 97] == c; }
  }

  // ------------------------------------------------------- case-insensitivity

  function Lower(c: char): char {
    if 'A' <= c <= 'Z' then c + 32 as char else c
  }

  function LowerAll(s: string): (t: string)
    ensures |t| == |s|
  {
    seq(|s|, i requires 0 <= i < |s| => Lower(s[i]))
  }

  /** `sv_ci_equal`. */
  predicate CiEqual(a: string, b: string) {
    |a| == |b| && forall i :: 0 <= i < |a| ==> Lower(a[i]) == Lower(b[i])
  }

  /** The two cases of one of the 26 letters, 32 code points apart. */
  predicate TwoCases(upper: char, lower: char) {
    65 <= upper as int <= 90 && lower as int == upper as int + 32
  }

  /** The same text but for the case of letters. */
  predicate SameButCase(a: string, b: string) {
    |a| == |b| && forall i :: 0 <= i < |a| ==> a[i] == b[i] || TwoCases(a[i], b[i]) || TwoCases(b[i], a[i])
  }

  lemma LowerMeaning(c: char, d: char)
    ensures Lower(c) == Lower(d) <==> c == d || TwoCases(c, d) || TwoCases(d, c)
  {
  }

  lemma CiEqualMeaning(a: string, b: string)
    ensures CiEqual(a, b) <==> SameButCase(a, b)
  {
    if |a| == |b| {
      forall i | 0 <= i < |a|
        ensures Lower(a[i]) == Lower(b[i]) <==> a[i] == b[i] || TwoCases(a[i], b[i]) || TwoCases(b[i], a[i])
      {
        LowerMeaning(a[i], b[i]);
      }
    }
  }

  lemma CiEqualMeansSameLower(a: string, b: string)
    ensures CiEqual(a, b) <==> LowerAll(a) == LowerAll(b)
  {
    if LowerAll(a) == LowerAll(b) {
      forall i | 0 <= i < |a| ensures Lower(a[i]) == Lower(b[i]) {
        assert LowerAll(a)[i] == Lower(a[i]) && LowerAll(b)[i] == Lower(b[i]);
      }
    }
  }
}
