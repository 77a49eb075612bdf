/** What the form reader makes of a rendered body that is cut short at any byte:
    the parts before the cut, and whatever the cut part reads as. */
module CutForms {

  import opened Common
  import opened Text
  import opened Multipart
  import opened MultipartRoundTrip

  const NO_FORM := Form(map[], [])

  /** The first `n` bytes, or all there are. */
  function Take(s: string, n: nat): string {
    if n <= |s| then s[..n] else s
  }

  // --------------------------------------------------------- specification

  /** Where the content begins in a rendered part. */
  function ContentStart(p: Part): nat {
    2 + |HeaderBlock(p)| + 4
  }

  predicate EndsInBreak(s: string) {
    |s| >= 2 && s[|s| - 2..] == CRLF
  }

  /** The content read when `c` bytes of content, line end and next delimiter are
      there: a final line end is always taken for the one before a delimiter. */
  function CutContent(p: Part, mark: string, c: nat): string {
    var text := Take(p.content + CRLF + mark, c);
    if EndsInBreak(text) then text[..|text| - 2] else text
  }

  /** The form after the first `m` bytes of a rendered part and the delimiter behind it:
      up to its blank line the part is not there, after that it is stored as it stands. */
  function WithCut(form: Form, p: Part, mark: string, m: nat): Form {
    if m <= ContentStart(p) then form else Store(form, HeadersOf(p), CutContent(p, mark, m - ContentStart(p)))
  }

  /** How long each text is, with the delimiter behind it. */
  function Sizes(texts: seq<string>, mark: nat): (sizes: seq<nat>)
    ensures |sizes| == |texts| && forall i :: 0 <= i < |texts| ==> sizes[i] == |texts[i]| + mark
  {
    if texts == [] then [] else [|texts[0]| + mark] + Sizes(texts[1..], mark)
  }

  /** Which of blocks of these sizes byte `n` is in; |sizes| is behind the last one. */
  function BlockAt(sizes: seq<nat>, n: nat): (k: nat)
    ensures k <= |sizes|
  {
    if sizes == [] || n < sizes[0] then 0 else 1 + BlockAt(sizes[1..], n - sizes[0])
  }

  /** How far into its block. */
  function Inside(sizes: seq<nat>, n: nat): nat {
    if sizes == [] || n < sizes[0] then n else Inside(sizes[1..], n - sizes[0])
  }

  function BlockStart(sizes: seq<nat>, k: nat): nat
    requires k <= |sizes|
  {
    if k == 0 then 0 else sizes[0] + BlockStart(sizes[1..], k - 1)
  }

  lemma {:induction false} BlockAtMeaning(sizes: seq<nat>, n: nat)
    ensures var k, j := BlockAt(sizes, n), Inside(sizes, n);
            BlockStart(sizes, k) + j == n && (k < |sizes| ==> j < sizes[k])
    decreases |sizes|
  {
    if sizes != [] && n >= sizes[0] { BlockAtMeaning(sizes[1..], n - sizes[0]); }
  }

  lemma {:induction false} BlockAtStart(sizes: seq<nat>, k: nat, j: nat)
    requires k <= |sizes| && (k < |sizes| ==> j < sizes[k])
    ensures BlockAt(sizes, BlockStart(sizes, k) + j) == k && Inside(sizes, BlockStart(sizes, k) + j) == j
    decreases k
  {
    if k > 0 { BlockAtStart(sizes[1..], k - 1, j); }
  }

  /** The sizes of the rendered parts, each with the delimiter behind it. */
  function PartSizes(parts: seq<Part>, mark: string): (sizes: seq<nat>)
    ensures |sizes| == |parts|
  {
    Sizes(RenderedParts(parts), |mark|)
  }

  lemma PartSize(parts: seq<Part>, mark: string, k: nat)
    requires k < |parts|
    ensures PartSizes(parts, mark)[k] == |Rendered(parts[k])| + |mark|
  {
  }

  /** `form` and what the last piece adds, of which `j` bytes are there. */
  function Ending(form: Form, rest: seq<Part>, mark: string, closing: string, j: nat): Form {
    if rest == [] then WithPart(form, Take(closing, j)) else WithCut(form, rest[0], mark, j)
  }

  /** The form read from the first `n` bytes behind the first delimiter: the parts
      before the cut, and the cut one as far as it goes. */
  function FormBehind(parts: seq<Part>, sizes: seq<nat>, mark: string, closing: string, n: nat): Form
    requires |sizes| == |parts|
  {
    var k := BlockAt(sizes, n);
    Ending(Stored(NO_FORM, parts[..k]), parts[k..], mark, closing, Inside(sizes, n))
  }

  /** The form read from the first `m` bytes of a rendered body. */
  function CutForm(parts: seq<Part>, boundary: string, preamble: string, epilogue: string, m: nat): Form {
    var mark, begin := "--" + boundary, |preamble| + |boundary| + 2;
    if m < begin then NO_FORM else FormBehind(parts, PartSizes(parts, mark), mark, "--" + epilogue, m - begin)
  }

  // ------------------------------------------------------------ the pieces

  /** The pieces of a text that follows a delimiter: an empty one counts. */
  function Segments(s: string, mark: string): seq<string>
    requires mark != ""
  {
    if s == "" then [""] else Split(s, mark)
  }

  lemma SegmentsStep(a: string, mark: string, rest: string)
    requires mark != "" && Find(a + mark + rest, mark) == |a|
    ensures Split(a + (mark + rest), mark) == [a] + Segments(rest, mark)
  {
    var s := a + mark + rest;
    assert s == a + (mark + rest);
    assert s[..|a|] == a && s[|a| + |mark|..] == rest;
  }

  lemma LastSegment(s: string, mark: string)
    requires mark != "" && !Contains(s, mark)
    ensures Segments(s, mark) == [s]
  {
    if s != "" { SplitOne(s, mark); }
  }

  lemma PrefixLacks(s: string, p: string, n: nat)
    requires p != "" && n <= |s| && n < Find(s, p) + |p|
    ensures !Contains(s[..n], p)
  {
    forall k | 0 <= k < n ensures !Occurs(s[..n], p, k) {
      if k + |p| <= n {
        assert s[..n][k..k + |p|] == s[k..k + |p|];
        assert !Occurs(s, p, k);
      }
    }
    FindNone(s[..n], p);
  }

  lemma TakeLacks(s: string, p: string, n: nat)
    requires p != "" && !Contains(s, p)
    ensures !Contains(Take(s, n), p)
  {
    if n <= |s| { PrefixLacks(s, p, n); }
  }

  // ---------------------------------------------------------- one cut part

  /** In the header block and the blank line behind it no two newlines meet. */
  lemma NoDoubleNewline(p: Part, n: nat)
    requires Readable(p) && n <= |HeaderBlock(p) + BLANK_LINE|
    ensures !Contains((HeaderBlock(p) + BLANK_LINE)[..n], "\n\n")
  {
    var s := (HeaderBlock(p) + BLANK_LINE)[..n];
    DispositionOneLine(p);
    forall k: nat | k < |s| ensures !Occurs(s, "\n\n", k) {
      Differs(s, "\n\n", k, if s[k] == '\n' then 1 else 0);
    }
    FindNone(s, "\n\n");
  }

  /** A part that ends with its blank line, or before, has no head: the blank line's
      second half is taken for the line end before a delimiter. */
  lemma CutHeadIsNoPart(p: Part, n: nat)
    requires Readable(p) && n <= ContentStart(p)
    ensures HeadAndContent((CRLF + HeaderBlock(p) + BLANK_LINE)[..n]) == None
  {
    var whole, cut := HeaderBlock(p) + BLANK_LINE, (CRLF + HeaderBlock(p) + BLANK_LINE)[..n];
    if n < 2 {
      assert StripCrlf(cut) == cut;
      FindNone(cut, BLANK_LINE);
      FindNone(cut, "\n\n");
    } else {
      var j := CutStripped(HeaderBlock(p), n);
      BlankLineEndsHeaders(p, "");
      assert whole + "" == whole;
      PrefixLacks(whole, BLANK_LINE, j);
      NoDoubleNewline(p, j);
    }
  }

  lemma CutStripped(head: string, n: nat) returns (j: nat)
    requires 2 <= n <= 2 + |head| + 4
    ensures j < |head| + 4 && StripCrlf((CRLF + head + BLANK_LINE)[..n]) == (head + BLANK_LINE)[..j]
  {
    var whole, cut := head + BLANK_LINE, (CRLF + head + BLANK_LINE)[..n];
    assert cut[..2] == CRLF && cut[2..] == whole[..n - 2];
    var t := whole[..n - 2];
    if n == 2 + |head| + 4 { assert t == whole && t[|t| - 2..] == CRLF; }
    if |t| >= 2 && t[|t| - 2..] == CRLF {
      j := n - 4;
      assert t[..|t| - 2] == whole[..j];
    } else {
      j := n - 2;
    }
  }

  /** Head, blank line and a text that has begun: stripping only ever shortens the text. */
  lemma BegunStripped(head: string, text: string)
    requires text != ""
    ensures StripCrlf(CRLF + head + BLANK_LINE + text)
            == head + BLANK_LINE + if EndsInBreak(text) then text[..|text| - 2] else text
  {
    var s := CRLF + head + BLANK_LINE + text;
    var t := head + BLANK_LINE + text;
    assert s[..2] == CRLF && s[2..] == t;
    if |text| == 1 {
      assert t[|t| - 2..] == [BLANK_LINE[3], text[0]];
      assert t[|t| - 2..][0] == '\n';
    } else {
      assert t[|t| - 2..] == text[|text| - 2..];
      assert t[..|t| - 2] == head + BLANK_LINE + text[..|text| - 2];
    }
  }

  lemma BegunPart(p: Part, text: string)
    requires Readable(p) && text != ""
    ensures HeadAndContent(CRLF + HeaderBlock(p) + BLANK_LINE + text)
            == Some((HeaderBlock(p), if EndsInBreak(text) then text[..|text| - 2] else text))
  {
    var content := if EndsInBreak(text) then text[..|text| - 2] else text;
    BegunStripped(HeaderBlock(p), text);
    BlankLineEndsHeaders(p, content);
    HeadThenContent(HeaderBlock(p), content);
  }

  /** The first `m` bytes of a part and its delimiter, in terms of head and content. */
  lemma CutText(head: string, content: string, mark: string, m: nat)
    requires m < |head| + |content| + |CRLF| + |mark|
    ensures var text := (head + content + CRLF + mark)[..m];
            text == if m <= |head| then head[..m] else head + Take(content + CRLF + mark, m - |head|)
  {
    assert head + content + CRLF + mark == head + (content + CRLF + mark);
  }

  /** Reading a cut part. */
  lemma CutPart(form: Form, p: Part, mark: string, m: nat)
    requires Readable(p) && m < |Rendered(p)| + |mark|
    ensures WithPart(form, (Rendered(p) + mark)[..m]) == WithCut(form, p, mark, m)
  {
    var head, h := CRLF + HeaderBlock(p) + BLANK_LINE, ContentStart(p);
    CutText(head, p.content, mark, m);
    if m <= h {
      CutHeadIsNoPart(p, m);
    } else {
      var text := Take(p.content + CRLF + mark, m - h);
      assert text != "";
      BegunPart(p, text);
      HeaderMeaning(p);
    }
  }

  lemma CutPartLacks(p: Part, mark: string, m: nat)
    requires mark != "" && Lacks(mark, '\n') && Whole(Rendered(p), mark) && m < |Rendered(p)| + |mark|
    ensures !Contains((Rendered(p) + mark)[..m], mark)
  {
    DelimiterAfterNewline(Rendered(p), mark, "");
    assert Rendered(p) + mark + "" == Rendered(p) + mark;
    PrefixLacks(Rendered(p) + mark, mark, m);
  }

  // -------------------------------------------------------------- the body

  lemma TakeBehind(a: string, mark: string, rest: string, m: nat)
    ensures m < |a| + |mark| ==> Take(a + (mark + rest), m) == (a + mark)[..m]
    ensures m >= |a| + |mark| ==> Take(a + (mark + rest), m) == a + (mark + Take(rest, m - |a| - |mark|))
  {
    assert a + (mark + rest) == a + mark + rest;
    if m < |a| + |mark| {
      assert (a + mark + rest)[..m] == (a + mark)[..m];
    } else {
      var n := m - |a| - |mark|;
      if n <= |rest| { assert (a + mark + rest)[..m] == a + mark + rest[..n]; }
      assert a + mark + Take(rest, n) == a + (mark + Take(rest, n));
    }
  }

  lemma TakeInRest(a: string, mark: string, rest: string, n: nat, m: nat)
    requires m == |a| + |mark| + n
    ensures Take(a + (mark + rest), m) == a + (mark + Take(rest, n))
  {
    TakeBehind(a, mark, rest, m);
  }

  predicate AllWhole(parts: seq<Part>, mark: string)
    requires mark != ""
  {
    forall p :: p in parts ==> Readable(p) && Whole(Rendered(p), mark)
  }

  lemma OnlyPiece(form: Form, piece: string)
    ensures WithParts(form, [piece]) == WithPart(form, piece)
  {
    WithFirstPart(form, piece, []);
    assert [piece] + [] == [piece];
  }

  lemma CutPiece(form: Form, parts: seq<Part>, mark: string, closing: string, j: nat)
    requires mark != "" && Lacks(mark, '\n') && AllWhole(parts, mark) && !Contains(closing, mark)
    requires parts != [] ==> j < |Rendered(parts[0])| + |mark|
    ensures WithParts(form, Segments(Take(Joined(RenderedParts(parts), mark, closing), j), mark))
            == Ending(form, parts, mark, closing, j)
  {
    if parts == [] {
      TakeLacks(closing, mark, j);
      LastSegment(Take(closing, j), mark);
      OnlyPiece(form, Take(closing, j));
    } else {
      var p, piece := parts[0], (Rendered(parts[0]) + mark)[..j];
      assert Readable(p) && Whole(Rendered(p), mark);
      TakeBehind(Rendered(p), mark, Joined(RenderedParts(parts[1..]), mark, closing), j);
      CutPartLacks(p, mark, j);
      LastSegment(piece, mark);
      OnlyPiece(form, piece);
      CutPart(form, p, mark, j);
    }
  }

  lemma StoredFirst(form: Form, parts: seq<Part>, k: nat)
    requires 0 < k <= |parts|
    ensures Stored(form, parts[..k]) == Stored(Store(form, HeadersOf(parts[0]), parts[0].content), parts[1..][..k - 1])
  {
    assert parts[..k][0] == parts[0] && parts[..k][1..] == parts[1..][..k - 1];
  }

  lemma WholeThenRest(form: Form, p: Part, mark: string, rest: string)
    requires mark != "" && Lacks(mark, '\n') && Readable(p) && Whole(Rendered(p), mark)
    ensures WithParts(form, Segments(Rendered(p) + (mark + rest), mark))
            == WithParts(Store(form, HeadersOf(p), p.content), Segments(rest, mark))
  {
    DelimiterAfterNewline(Rendered(p), mark, rest);
    SegmentsStep(Rendered(p), mark, rest);
    WithFirstPart(form, Rendered(p), Segments(rest, mark));
    PartMeaning(form, p);
  }

  /** Where part `k` begins behind the first delimiter. */
  function PartOffset(parts: seq<Part>, mark: string, k: nat): nat
    requires k <= |parts|
  {
    BlockStart(PartSizes(parts, mark), k)
  }

  /** The text behind the first delimiter, cut `j` bytes into part `k`. */
  function CutBody(parts: seq<Part>, mark: string, closing: string, k: nat, j: nat): string
    requires k <= |parts|
  {
    Take(Joined(RenderedParts(parts), mark, closing), PartOffset(parts, mark, k) + j)
  }

  lemma OffsetStep(parts: seq<Part>, mark: string, k: nat)
    requires 0 < k <= |parts|
    ensures PartOffset(parts, mark, k) == |Rendered(parts[0])| + |mark| + PartOffset(parts[1..], mark, k - 1)
  {
    assert RenderedParts(parts)[1..] == RenderedParts(parts[1..]);
  }

  lemma CutBodyFirst(parts: seq<Part>, mark: string, closing: string, k: nat, j: nat)
    requires 0 < k <= |parts|
    ensures CutBody(parts, mark, closing, k, j)
            == Rendered(parts[0]) + (mark + CutBody(parts[1..], mark, closing, k - 1, j))
  {
    OffsetStep(parts, mark, k);
    TakeInRest(Rendered(parts[0]), mark, Joined(RenderedParts(parts[1..]), mark, closing),
               PartOffset(parts[1..], mark, k - 1) + j, PartOffset(parts, mark, k) + j);
  }

  /** The whole parts before the cut are stored. */
  lemma {:induction false} WholeParts(form: Form, parts: seq<Part>, mark: string, closing: string, k: nat, j: nat)
    requires mark != "" && Lacks(mark, '\n') && AllWhole(parts, mark) && k <= |parts|
    ensures WithParts(form, Segments(CutBody(parts, mark, closing, k, j), mark))
            == WithParts(Stored(form, parts[..k]), Segments(CutBody(parts[k..], mark, closing, 0, j), mark))
    decreases k
  {
    if k == 0 {
      assert parts[..0] == [] && parts[0..] == parts;
    } else {
      var p, tail := parts[0], parts[1..];
      assert p in parts;
      assert AllWhole(tail, mark) by { assert forall q :: q in tail ==> q in parts; }
      hide WithParts, Segments, CutBody, Stored, Store, Rendered;
      CutBodyFirst(parts, mark, closing, k, j);
      WholeThenRest(form, p, mark, CutBody(tail, mark, closing, k - 1, j));
      hide AllWhole, Readable, Whole;
      WholeParts(Store(form, HeadersOf(p), p.content), tail, mark, closing, k - 1, j);
      StoredFirst(form, parts, k);
      assert tail[k - 1..] == parts[k..];
    }
  }

  lemma CutPieces(parts: seq<Part>, mark: string, closing: string, k: nat, j: nat)
    requires mark != "" && Lacks(mark, '\n') && AllWhole(parts, mark) && !Contains(closing, mark)
    requires k <= |parts| && (k < |parts| ==> j < |Rendered(parts[k])| + |mark|)
    ensures WithParts(NO_FORM, Segments(CutBody(parts, mark, closing, k, j), mark))
            == Ending(Stored(NO_FORM, parts[..k]), parts[k..], mark, closing, j)
  {
    WholeParts(NO_FORM, parts, mark, closing, k, j);
    assert forall q :: q in parts[k..] ==> q in parts;
    CutPiece(Stored(NO_FORM, parts[..k]), parts[k..], mark, closing, j);
  }

  predicate UsablePreamble(preamble: string, boundary: string) {
    preamble == "" || (preamble[|preamble| - 1] == '\n' && !Contains(preamble, "--" + boundary))
  }

  lemma FirstMark(preamble: string, mark: string, rest: string)
    requires mark != "" && Lacks(mark, '\n')
    requires preamble == "" || (preamble[|preamble| - 1] == '\n' && !Contains(preamble, mark))
    ensures Find(preamble + mark + rest, mark) == |preamble|
  {
    if preamble == "" {
      assert (preamble + mark + rest)[..|mark|] == mark;
      FindIs(preamble + mark + rest, mark, 0);
    } else {
      DelimiterAfterNewline(preamble, mark, rest);
    }
  }

  /** Without a delimiter there are no parts. */
  lemma NoMarkNoForm(text: string, boundary: string)
    requires !Contains(text, "--" + boundary)
    ensures Parsed(text, boundary) == NO_FORM
  {
    if text != "" { SplitOne(text, "--" + boundary); }
  }

  lemma BehindFirstMark(preamble: string, boundary: string, rest: string)
    requires UsableBoundary(boundary) && UsablePreamble(preamble, boundary)
    ensures Parsed(preamble + ("--" + boundary + rest), boundary)
            == WithParts(NO_FORM, Segments(rest, "--" + boundary))
  {
    var mark := "--" + boundary;
    FirstMark(preamble, mark, rest);
    SegmentsStep(preamble, mark, rest);
    assert ([preamble] + Segments(rest, mark))[1..] == Segments(rest, mark);
  }

  predicate SendableForm(parts: seq<Part>, boundary: string, preamble: string, epilogue: string) {
    && UsableBoundary(boundary) && (forall p :: p in parts ==> Sendable(p, boundary))
    && UsablePreamble(preamble, boundary) && !Contains("--" + epilogue, "--" + boundary)
  }

  lemma AllPartsWhole(parts: seq<Part>, boundary: string)
    requires UsableBoundary(boundary) && forall p :: p in parts ==> Sendable(p, boundary)
    ensures AllWhole(parts, "--" + boundary)
  {
    forall p | p in parts ensures Readable(p) && Whole(Rendered(p), "--" + boundary) {
      PartIsWhole(p, boundary);
    }
  }

  lemma FormAtPart(parts: seq<Part>, sizes: seq<nat>, mark: string, closing: string, n: nat, k: nat, j: nat)
    requires |sizes| == |parts| && k == BlockAt(sizes, n) && j == Inside(sizes, n)
    ensures FormBehind(parts, sizes, mark, closing, n)
            == Ending(Stored(NO_FORM, parts[..k]), parts[k..], mark, closing, j)
  {
  }

  lemma CutBehindMark(parts: seq<Part>, boundary: string, preamble: string, epilogue: string, k: nat, j: nat, m: nat)
    requires SendableForm(parts, boundary, preamble, epilogue)
    requires k <= |parts| && (k < |parts| ==> j < |Rendered(parts[k])| + |"--" + boundary|)
    requires m == |preamble| + |boundary| + 2 + PartOffset(parts, "--" + boundary, k) + j
    ensures Parsed(Take(preamble + RenderedBody(parts, boundary, epilogue), m), boundary)
            == Ending(Stored(NO_FORM, parts[..k]), parts[k..], "--" + boundary, "--" + epilogue, j)
  {
    var mark, closing := "--" + boundary, "--" + epilogue;
    AllPartsWhole(parts, boundary);
    CutPieces(parts, mark, closing, k, j);
    BehindFirstMark(preamble, boundary, CutBody(parts, mark, closing, k, j));
    CutTextIs(parts, boundary, preamble, epilogue, k, j, m);
  }

  lemma CutTextIs(parts: seq<Part>, boundary: string, preamble: string, epilogue: string, k: nat, j: nat, m: nat)
    requires k <= |parts| && m == |preamble| + |boundary| + 2 + PartOffset(parts, "--" + boundary, k) + j
    ensures Take(preamble + RenderedBody(parts, boundary, epilogue), m)
            == preamble + ("--" + boundary + CutBody(parts, "--" + boundary, "--" + epilogue, k, j))
  {
    var mark := "--" + boundary;
    TakeInRest(preamble, mark, Joined(RenderedParts(parts), mark, "--" + epilogue), PartOffset(parts, mark, k) + j, m);
  }

  lemma CutBeforeMark(parts: seq<Part>, boundary: string, preamble: string, epilogue: string, m: nat)
    requires SendableForm(parts, boundary, preamble, epilogue) && m < |preamble| + |boundary| + 2
    ensures Parsed(Take(preamble + RenderedBody(parts, boundary, epilogue), m), boundary) == NO_FORM
  {
    var mark := "--" + boundary;
    TakeBehind(preamble, mark, Joined(RenderedParts(parts), mark, "--" + epilogue), m);
    FirstMark(preamble, mark, "");
    assert preamble + mark + "" == preamble + mark;
    PrefixLacks(preamble + mark, mark, m);
    NoMarkNoForm((preamble + mark)[..m], boundary);
  }

  lemma CutBehind(parts: seq<Part>, boundary: string, preamble: string, epilogue: string, n: nat, m: nat)
    requires SendableForm(parts, boundary, preamble, epilogue) && m == |preamble| + |boundary| + 2 + n
    ensures Parsed(Take(preamble + RenderedBody(parts, boundary, epilogue), m), boundary)
            == FormBehind(parts, PartSizes(parts, "--" + boundary), "--" + boundary, "--" + epilogue, n)
  {
    var mark, closing := "--" + boundary, "--" + epilogue;
    var sizes := PartSizes(parts, mark);
    var k := BlockAt(sizes, n);
    BlockAtMeaning(sizes, n);
    if k < |parts| { PartSize(parts, mark, k); }
    var j := Inside(sizes, n);
    CutBehindMark(parts, boundary, preamble, epilogue, k, j, m);
    FormAtPart(parts, sizes, mark, closing, n, k, j);
  }

  /** What is read of a rendered body of which only the first `m` bytes are there. */
  lemma CutMeaning(parts: seq<Part>, boundary: string, preamble: string, epilogue: string, m: nat)
    requires SendableForm(parts, boundary, preamble, epilogue)
    ensures Parsed(Take(preamble + RenderedBody(parts, boundary, epilogue), m), boundary)
            == CutForm(parts, boundary, preamble, epilogue, m)
  {
    var begin := |preamble| + |boundary| + 2;
    if m < begin {
      CutBeforeMark(parts, boundary, preamble, epilogue, m);
    } else {
      CutBehind(parts, boundary, preamble, epilogue, m - begin, m);
    }
  }

  // ------------------------------------------------- when the parts come back

  /** Plain fields, each named by an earlier part: the form is the same without them. */
  predicate Redundant(before: seq<Part>, rest: seq<Part>) {
    forall p :: p in rest ==> p.filename.None? && FirstField(before, p.name).Some?
  }

  /** The cut part has its content to the byte: it is whole, or only its last line
      end is missing and the content could not be taken for less. */
  predicate WholeAt(p: Part, m: nat) {
    || m == |Rendered(p)|
    || (m + 2 == |Rendered(p)| && p.content != "" && !EndsInBreak(p.content))
  }

  /** Of the last piece so much is there that no part is missed. */
  predicate EndingEnough(before: seq<Part>, rest: seq<Part>, closing: string, j: nat) {
    if rest == [] then !PieceAdds(before, Take(closing, j))
    else Redundant(before, rest) || (WholeAt(rest[0], j) && Redundant(before + [rest[0]], rest[1..]))
  }

  predicate EnoughBehind(parts: seq<Part>, sizes: seq<nat>, closing: string, n: nat)
    requires |sizes| == |parts|
  {
    var k := BlockAt(sizes, n);
    EndingEnough(parts[..k], parts[k..], closing, Inside(sizes, n))
  }

  /** The first `m` bytes of the body are enough. */
  predicate Enough(parts: seq<Part>, boundary: string, preamble: string, epilogue: string, m: nat) {
    var mark, begin := "--" + boundary, |preamble| + |boundary| + 2;
    if m < begin then parts == [] else EnoughBehind(parts, PartSizes(parts, mark), "--" + epilogue, m - begin)
  }

  // Lists of parts that give the same form.

  ghost predicate SameForm(a: seq<Part>, b: seq<Part>) {
    Files(a) == Files(b) && forall name :: FirstField(a, name) == FirstField(b, name)
  }

  lemma RecoversSame(a: seq<Part>, b: seq<Part>)
    ensures Recovers(Stored(NO_FORM, a), b) <==> SameForm(a, b)
  {
    var form := Stored(NO_FORM, a);
    StoredRecovers(a);
    if Recovers(form, b) {
      forall name ensures FirstField(a, name) == FirstField(b, name) {
        assert name in form.params <==> FirstField(a, name).Some?;
        assert name in form.params <==> FirstField(b, name).Some?;
      }
    }
  }

  lemma {:induction false} FilesJoin(a: seq<Part>, b: seq<Part>)
    ensures Files(a + b) == Files(a) + Files(b)
    decreases |a|
  {
    if a == [] {
      assert a + b == b;
    } else {
      assert (a + b)[1..] == a[1..] + b;
      FilesJoin(a[1..], b);
    }
  }

  lemma {:induction false} FieldJoin(a: seq<Part>, b: seq<Part>, name: string)
    ensures FirstField(a + b, name) == if FirstField(a, name).Some? then FirstField(a, name) else FirstField(b, name)
    decreases |a|
  {
    if a == [] {
      assert a + b == b;
    } else {
      assert (a + b)[1..] == a[1..] + b;
      FieldJoin(a[1..], b, name);
    }
  }

  lemma {:induction false} NoFiles(parts: seq<Part>)
    ensures Files(parts) == [] <==> forall p :: p in parts ==> p.filename.None?
    decreases |parts|
  {
    if parts != [] {
      NoFiles(parts[1..]);
      assert forall p :: p in parts <==> p == parts[0] || p in parts[1..];
    }
  }

  lemma {:induction false} FieldNamed(parts: seq<Part>, name: string)
    ensures FirstField(parts, name).Some? <==> exists p :: p in parts && Plain(p, name)
    decreases |parts|
  {
    if parts != [] {
      FieldNamed(parts[1..], name);
      assert forall p :: p in parts <==> p == parts[0] || p in parts[1..];
    }
  }

  /** Leaving out the rest changes nothing exactly when the rest is redundant. */
  lemma WithoutRest(before: seq<Part>, rest: seq<Part>)
    ensures SameForm(before, before + rest) <==> Redundant(before, rest)
  {
    FilesJoin(before, rest);
    NoFiles(rest);
    if Redundant(before, rest) {
      assert Files(before) + [] == Files(before);
      forall name ensures FirstField(before, name) == FirstField(before + rest, name) {
        FieldJoin(before, rest, name);
        FieldNamed(rest, name);
      }
    }
    if SameForm(before, before + rest) {
      assert |Files(before)| == |Files(before)| + |Files(rest)|;
      forall p | p in rest ensures p.filename.None? && FirstField(before, p.name).Some? {
        FieldJoin(before, rest, p.name);
        FieldNamed(rest, p.name);
        assert Plain(p, p.name);
      }
    }
  }

  /** Nothing of the cut part was stored. */
  lemma ShortRecovers(before: seq<Part>, rest: seq<Part>)
    ensures Recovers(Stored(NO_FORM, before), before + rest) <==> Redundant(before, rest)
  {
    RecoversSame(before, before + rest);
    WithoutRest(before, rest);
  }

  lemma {:induction false} StoredSnoc(form: Form, parts: seq<Part>, p: Part)
    ensures Stored(form, parts + [p]) == Store(Stored(form, parts), HeadersOf(p), p.content)
    decreases |parts|
  {
    if parts == [] {
      assert parts + [p] == [p] && [p][1..] == [];
    } else {
      assert (parts + [p])[1..] == parts[1..] + [p];
      StoredSnoc(Store(form, HeadersOf(parts[0]), parts[0].content), parts[1..], p);
    }
  }

  lemma Regroup(before: seq<Part>, p: Part, rest: seq<Part>)
    ensures before + ([p] + rest) == (before + [p]) + rest
  {
  }

  lemma OneField(p: Part, name: string)
    ensures FirstField([p], name) == if Plain(p, name) then Some(p.content) else None
    ensures Files([p]) == FileOf(p)
  {
    assert [p][1..] == [];
    assert FileOf(p) + [] == FileOf(p);
  }

  /** A plain field that an earlier part names may have any content. */
  lemma RepeatedField(before: seq<Part>, p: Part)
    requires p.filename.None? && FirstField(before, p.name).Some?
    ensures SameForm(before + [p], before)
  {
    FilesJoin(before, [p]);
    OneField(p, p.name);
    assert Files(before) + [] == Files(before);
    forall name ensures FirstField(before + [p], name) == FirstField(before, name) {
      FieldJoin(before, [p], name);
      OneField(p, name);
    }
  }

  /** A needed part with another content shows. */
  lemma OtherContentShows(before: seq<Part>, p: Part, content: string, rest: seq<Part>)
    requires content != p.content && !(p.filename.None? && FirstField(before, p.name).Some?)
    ensures !SameForm(before + [p.(content := content)], (before + [p]) + rest)
  {
    var other := p.(content := content);
    if p.filename.None? {
      FieldJoin(before, [other], p.name);
      OneField(other, p.name);
      FieldJoin(before, [p], p.name);
      FieldJoin(before + [p], rest, p.name);
      OneField(p, p.name);
      assert FirstField(before + [other], p.name) != FirstField((before + [p]) + rest, p.name);
    } else {
      FilesJoin(before, [other]);
      FilesJoin(before, [p]);
      FilesJoin(before + [p], rest);
      OneField(other, p.name);
      OneField(p, p.name);
      assert Files(before + [other])[|Files(before)|] != Files((before + [p]) + rest)[|Files(before)|];
    }
  }

  lemma NamedStays(before: seq<Part>, p: Part, rest: seq<Part>)
    requires Redundant(before, [p] + rest)
    ensures Redundant(before + [p], rest) && p.filename.None? && FirstField(before, p.name).Some?
  {
    assert p in [p] + rest;
    forall r | r in rest ensures r.filename.None? && FirstField(before + [p], r.name).Some? {
      assert r in [p] + rest;
      FieldJoin(before, [p], r.name);
    }
  }

  /** The cut part was stored with some content. */
  lemma CutRecovers(before: seq<Part>, p: Part, content: string, rest: seq<Part>)
    ensures Recovers(Store(Stored(NO_FORM, before), HeadersOf(p), content), before + ([p] + rest))
            <==> Redundant(before, [p] + rest) || (content == p.content && Redundant(before + [p], rest))
  {
    var other := p.(content := content);
    StoredSnoc(NO_FORM, before, other);
    RecoversSame(before + [other], before + ([p] + rest));
    Regroup(before, p, rest);
    if content == p.content {
      assert other == p;
      WithoutRest(before + [p], rest);
      if Redundant(before, [p] + rest) { NamedStays(before, p, rest); }
    } else if p.filename.None? && FirstField(before, p.name).Some? {
      RepeatedField(before, other);
      WithoutRest(before, [p] + rest);
    } else {
      OtherContentShows(before, p, content, rest);
      if Redundant(before, [p] + rest) { NamedStays(before, p, rest); }
    }
  }

  /** All the ways in which the content of a cut part can come out. */
  lemma CutContentCases(p: Part, mark: string, c: nat)
    requires 0 < c < |p.content| + 2 + |mark| && Lacks(mark, '\n')
    ensures CutContent(p, mark, c)
            == if c <= |p.content| then
                 if EndsInBreak(p.content[..c]) then p.content[..c - 2] else p.content[..c]
               else if c == |p.content| + 1 then p.content + "\r"
               else if c == |p.content| + 2 then p.content
               else p.content + CRLF + mark[..c - |p.content| - 2]
  {
    var all, text, n := p.content + CRLF + mark, Take(p.content + CRLF + mark, c), |p.content|;
    if c <= n {
      assert text == p.content[..c];
    } else if c == n + 1 {
      assert text == p.content + "\r";
      assert text[|text| - 1] == '\r';
    } else if c == n + 2 {
      assert text == p.content + CRLF && text[n..] == CRLF;
    } else {
      assert text == p.content + CRLF + mark[..c - n - 2];
      assert text[|text| - 1] == mark[c - n - 3] != '\n';
    }
  }

  /** The content is right exactly at its own end and behind its line end. */
  lemma ContentIsWhole(p: Part, mark: string, m: nat)
    requires ContentStart(p) < m < |Rendered(p)| + |mark| && Lacks(mark, '\n')
    ensures CutContent(p, mark, m - ContentStart(p)) == p.content <==> WholeAt(p, m)
  {
    var c := m - ContentStart(p);
    CutContentCases(p, mark, c);
    if c == |p.content| { assert p.content[..c] == p.content; }
  }

  lemma WithCutRecovers(before: seq<Part>, p: Part, rest: seq<Part>, mark: string, m: nat)
    requires m < |Rendered(p)| + |mark| && Lacks(mark, '\n')
    ensures Recovers(WithCut(Stored(NO_FORM, before), p, mark, m), before + ([p] + rest))
            <==> Redundant(before, [p] + rest) || (WholeAt(p, m) && Redundant(before + [p], rest))
  {
    if m <= ContentStart(p) {
      ShortRecovers(before, [p] + rest);
    } else {
      ContentIsWhole(p, mark, m);
      CutRecovers(before, p, CutContent(p, mark, m - ContentStart(p)), rest);
    }
  }

  lemma EndingRecovers(before: seq<Part>, rest: seq<Part>, mark: string, closing: string, j: nat)
    requires Lacks(mark, '\n') && (rest != [] ==> j < |Rendered(rest[0])| + |mark|)
    ensures Recovers(Ending(Stored(NO_FORM, before), rest, mark, closing, j), before + rest)
            <==> EndingEnough(before, rest, closing, j)
  {
    if rest == [] {
      assert before + rest == before;
      StoredRecovers(before);
      PieceEffect(Stored(NO_FORM, before), before, Take(closing, j));
    } else {
      assert rest == [rest[0]] + rest[1..];
      WithCutRecovers(before, rest[0], rest[1..], mark, j);
    }
  }

  lemma NoFormRecovers(parts: seq<Part>)
    ensures Recovers(NO_FORM, parts) <==> parts == []
  {
    ShortRecovers([], parts);
    assert [] + parts == parts;
    if parts != [] { assert parts[0] in parts; }
  }

  lemma EndingRecoversAt(parts: seq<Part>, mark: string, closing: string, k: nat, j: nat)
    requires Lacks(mark, '\n') && k <= |parts| && (k < |parts| ==> j < |Rendered(parts[k])| + |mark|)
    ensures Recovers(Ending(Stored(NO_FORM, parts[..k]), parts[k..], mark, closing, j), parts)
            <==> EndingEnough(parts[..k], parts[k..], closing, j)
  {
    assert parts[..k] + parts[k..] == parts;
    EndingRecovers(parts[..k], parts[k..], mark, closing, j);
  }

  lemma EnoughAt(parts: seq<Part>, sizes: seq<nat>, closing: string, n: nat, k: nat, j: nat)
    requires |sizes| == |parts| && k == BlockAt(sizes, n) && j == Inside(sizes, n)
    ensures EnoughBehind(parts, sizes, closing, n) <==> EndingEnough(parts[..k], parts[k..], closing, j)
  {
  }

  lemma FormBehindRecovers(parts: seq<Part>, sizes: seq<nat>, mark: string, closing: string, n: nat)
    requires Lacks(mark, '\n') && sizes == PartSizes(parts, mark)
    ensures Recovers(FormBehind(parts, sizes, mark, closing, n), parts) <==> EnoughBehind(parts, sizes, closing, n)
  {
    var k := BlockAt(sizes, n);
    BlockAtMeaning(sizes, n);
    if k < |parts| { PartSize(parts, mark, k); }
    var j := Inside(sizes, n);
    FormAtPart(parts, sizes, mark, closing, n, k, j);
    EnoughAt(parts, sizes, closing, n, k, j);
    EndingRecoversAt(parts, mark, closing, k, j);
  }

  lemma CutFormRecovers(parts: seq<Part>, boundary: string, preamble: string, epilogue: string, m: nat)
    requires Lacks(boundary, '\n')
    ensures Recovers(CutForm(parts, boundary, preamble, epilogue, m), parts)
            <==> Enough(parts, boundary, preamble, epilogue, m)
  {
    var mark, begin := "--" + boundary, |preamble| + |boundary| + 2;
    NoFormRecovers(parts);
    if m >= begin { FormBehindRecovers(parts, PartSizes(parts, mark), mark, "--" + epilogue, m - begin); }
  }

  /** The parts of a body of which the first `m` bytes are there come back exactly
      when those are enough. */
  lemma RecoveredExactly(parts: seq<Part>, boundary: string, preamble: string, epilogue: string, m: nat)
    requires SendableForm(parts, boundary, preamble, epilogue)
    ensures Recovers(Parsed(Take(preamble + RenderedBody(parts, boundary, epilogue), m), boundary), parts)
            <==> Enough(parts, boundary, preamble, epilogue, m)
  {
    CutMeaning(parts, boundary, preamble, epilogue, m);
    CutFormRecovers(parts, boundary, preamble, epilogue, m);
  }

  /** Every part is a file or the first field of its name. */
  predicate AllNeeded(parts: seq<Part>) {
    forall i :: 0 <= i < |parts| ==> parts[i].filename.Some? || FirstField(parts[..i], parts[i].name).None?
  }

  /** If every part is needed, a cut before the closing delimiter is late enough only
      in the last part, at the end of its content. */
  lemma LastContentDecides(parts: seq<Part>, sizes: seq<nat>, closing: string, n: nat)
    requires |sizes| == |parts| && AllNeeded(parts) && BlockAt(sizes, n) < |parts|
    ensures var k := BlockAt(sizes, n);
            EnoughBehind(parts, sizes, closing, n) <==> k == |parts| - 1 && WholeAt(parts[k], Inside(sizes, n))
  {
    var k := BlockAt(sizes, n);
    var rest := parts[k..];
    assert rest[0] == parts[k] && parts[..k] + [rest[0]] == parts[..k + 1] && rest[1..] == parts[k + 1..];
    assert rest[0] in rest;
    if k + 1 < |parts| { assert parts[k + 1] in parts[k + 1..]; }
  }

  // ------------------------------------------------------- a cut in a content

  /** Where the content of part `k` begins in the body. */
  function ContentAt(parts: seq<Part>, boundary: string, preamble: string, k: nat): nat
    requires k < |parts|
  {
    |preamble| + |boundary| + 2 + (PartOffset(parts, "--" + boundary, k) + ContentStart(parts[k]))
  }

  lemma RenderedLength(p: Part)
    ensures |Rendered(p)| == ContentStart(p) + |p.content| + 2
  {
  }

  lemma FormInPart(parts: seq<Part>, sizes: seq<nat>, mark: string, closing: string, n: nat, k: nat, j: nat)
    requires |sizes| == |parts| && k < |parts| && j < sizes[k] && n == BlockStart(sizes, k) + j
    ensures FormBehind(parts, sizes, mark, closing, n) == WithCut(Stored(NO_FORM, parts[..k]), parts[k], mark, j)
  {
    BlockAtStart(sizes, k, j);
    FormAtPart(parts, sizes, mark, closing, n, k, j);
    EndingOfPart(Stored(NO_FORM, parts[..k]), parts[k..], mark, closing, j);
  }

  lemma EndingOfPart(form: Form, rest: seq<Part>, mark: string, closing: string, j: nat)
    requires rest != []
    ensures Ending(form, rest, mark, closing, j) == WithCut(form, rest[0], mark, j)
  {
  }

  /** The form when the body ends `c` bytes into what follows the head of part `k`. */
  lemma CutInContent(parts: seq<Part>, boundary: string, preamble: string, epilogue: string, k: nat, c: nat)
    requires k < |parts| && 0 < c < |parts[k].content| + 2 + |boundary| + 2
    ensures CutForm(parts, boundary, preamble, epilogue, ContentAt(parts, boundary, preamble, k) + c)
            == Store(Stored(NO_FORM, parts[..k]), HeadersOf(parts[k]), CutContent(parts[k], "--" + boundary, c))
  {
    hide FormBehind, Stored, Rendered, HeadersOf, CutContent;
    RenderedLength(parts[k]);
    var mark, j := "--" + boundary, ContentStart(parts[k]) + c;
    PartSize(parts, mark, k);
    FormInPart(parts, PartSizes(parts, mark), mark, "--" + epilogue, PartOffset(parts, mark, k) + j, k, j);
  }

  /** A body that ends inside a content is read as a form whose last part is that
      much of the content, as if it were all of it. */
  lemma TruncatedIsStored(parts: seq<Part>, boundary: string, preamble: string, epilogue: string, k: nat, c: nat)
    requires SendableForm(parts, boundary, preamble, epilogue)
    requires k < |parts| && 0 < c <= |parts[k].content| && !EndsInBreak(parts[k].content[..c])
    ensures CutForm(parts, boundary, preamble, epilogue, ContentAt(parts, boundary, preamble, k) + c)
            == Store(Stored(NO_FORM, parts[..k]), HeadersOf(parts[k]), parts[k].content[..c])
  {
    CutInContent(parts, boundary, preamble, epilogue, k, c);
    CutContentCases(parts[k], "--" + boundary, c);
  }

  /** A body that ends before the content of its first part reads as no parts at all. */
  lemma EarlyCutReadsNothing(parts: seq<Part>, boundary: string, preamble: string, epilogue: string, m: nat)
    requires SendableForm(parts, boundary, preamble, epilogue) && parts != []
    requires m <= ContentAt(parts, boundary, preamble, 0)
    ensures Parsed(Take(preamble + RenderedBody(parts, boundary, epilogue), m), boundary) == NO_FORM
  {
    CutMeaning(parts, boundary, preamble, epilogue, m);
  }
}
