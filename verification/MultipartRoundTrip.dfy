/** Rendering a list of form parts and reading the body back. */
module MultipartRoundTrip {

  import opened Common
  import opened Text
  import opened Multipart

  datatype Part = Part(name: string, filename: Option<string>, contentType: Option<string>, content: string)

  // ------------------------------------------------------------- rendering

  function QuotedParam(key: string, value: string): string {
    " " + key + "=\"" + value + "\""
  }

  const FORM_DATA := " form-data"

  function DispositionValue(p: Part): string {
    FORM_DATA + ";"
    + if p.filename.Some? then QuotedParam("name", p.name) + ";" + QuotedParam("filename", p.filename.value)
      else QuotedParam("name", p.name)
  }

  function DispositionLine(p: Part): string {
    "Content-Disposition:" + DispositionValue(p)
  }

  function TypeLine(kind: string): string {
    "Content-Type: " + kind
  }

  function HeaderBlock(p: Part): string {
    if p.contentType.Some? then DispositionLine(p) + CRLF + TypeLine(p.contentType.value) else DispositionLine(p)
  }

  /** A body part, from the end of its delimiter to the next one. */
  function Rendered(p: Part): string {
    CRLF + HeaderBlock(p) + BLANK_LINE + p.content + CRLF
  }

  function RenderedParts(parts: seq<Part>): (texts: seq<string>)
    ensures |texts| == |parts| && forall i :: 0 <= i < |parts| ==> texts[i] == Rendered(parts[i])
  {
    if parts == [] then [] else [Rendered(parts[0])] + RenderedParts(parts[1..])
  }

  /** The texts separated by delimiters, then a delimiter and the closing text. */
  function Joined(texts: seq<string>, mark: string, closing: string): (text: string)
    ensures closing != "" ==> text != ""
  {
    if texts == [] then closing else texts[0] + (mark + Joined(texts[1..], mark, closing))
  }

  /** The parts, each after a delimiter, then the closing delimiter. */
  function RenderedBody(parts: seq<Part>, boundary: string, epilogue: string): string {
    "--" + boundary + Joined(RenderedParts(parts), "--" + boundary, "--" + epilogue)
  }

  // -------------------------------------------------------- specification

  predicate Quotable(s: string) {
    OneLine(s) && Lacks(s, '"')
  }

  /** Names need no escape, and header values stay on their line. */
  predicate Readable(p: Part) {
    && Quotable(p.name)
    && (p.filename.Some? ==> Quotable(p.filename.value))
    && (p.contentType.Some? ==> OneLine(p.contentType.value))
  }

  predicate Sendable(p: Part, boundary: string) {
    Readable(p) && !Contains(Rendered(p), "--" + boundary)
  }

  predicate UsableBoundary(boundary: string) {
    boundary != "" && OneLine(boundary)
  }

  function FileOf(p: Part): seq<Item> {
    if p.filename.None? then []
    else
      [Item(BaseName(p.filename.value), p.content,
            if p.contentType.Some? then Trim(p.contentType.value) else "", p.name)]
  }

  /** The file items, in order, with byte-exact contents. */
  function Files(parts: seq<Part>): seq<Item> {
    if parts == [] then [] else FileOf(parts[0]) + Files(parts[1..])
  }

  predicate Plain(p: Part, name: string) {
    p.filename.None? && p.name == name
  }

  /** The content of the first plain field of this name. */
  function FirstField(parts: seq<Part>, name: string): Option<string> {
    if parts == [] then None
    else if Plain(parts[0], name) then Some(parts[0].content)
    else FirstField(parts[1..], name)
  }

  /** The reader's form is that of the parts. */
  ghost predicate Recovers(form: Form, parts: seq<Part>) {
    && form.files == Files(parts)
    && forall name :: (name in form.params <==> FirstField(parts, name).Some?)
                      && (name in form.params ==> FirstField(parts, name) == Some(form.params[name]))
  }

  // ----------------------------------------------------- the token scanner

  lemma {:induction false} BreakAppend(a: string, b: string, quoted: bool)
    requires Break(a, quoted) == |a|
    ensures Break(a + b, quoted) == |a| + Break(b, Quotes(a, quoted))
    decreases |a|
  {
    if a == "" {
      assert a + b == b;
    } else {
      assert (a + b)[1..] == a[1..] + b;
      BreakAppend(a[1..], b, quoted != (a[0] == '"'));
    }
  }

  /** Text without quotes, and without semicolons unless quoted, is not cut. */
  lemma {:induction false} UncutText(a: string, quoted: bool)
    requires Lacks(a, '"') && (quoted || Lacks(a, ';'))
    ensures Break(a, quoted) == |a| && Quotes(a, quoted) == quoted
  {
    if a != "" { UncutText(a[1..], quoted); }
  }

  lemma UncutParam(key: string, value: string)
    requires Lacks(key, '"') && Lacks(key, ';') && Lacks(value, '"')
    ensures Break(QuotedParam(key, value), false) == |QuotedParam(key, value)|
    ensures !Quotes(QuotedParam(key, value), false)
  {
    var open, close := " " + key + "=", "\"";
    UncutText(open, false);
    UncutText(value, true);
    var tail := value + close;
    BreakAppend(value, close, true);
    QuotesAppend(value, close, true);
    QuotesAppend(close, tail, false);
    BreakAppend(close, tail, false);
    BreakAppend(open, close + tail, false);
    QuotesAppend(open, close + tail, false);
    assert QuotedParam(key, value) == open + (close + tail);
  }

  lemma {:induction false} QuotesAppend(a: string, b: string, quoted: bool)
    ensures Quotes(a + b, quoted) == Quotes(b, Quotes(a, quoted))
    decreases |a|
  {
    if a == "" {
      assert a + b == b;
    } else {
      assert (a + b)[1..] == a[1..] + b;
      QuotesAppend(a[1..], b, quoted != (a[0] == '"'));
    }
  }

  lemma TokensCons(a: string, rest: string)
    requires Break(a, false) == |a| && !Quotes(a, false)
    ensures Tokens(a + ";" + rest) == [a] + Tokens(rest)
  {
    BreakAppend(a, ";" + rest, false);
    var s := a + ";" + rest;
    assert s == a + (";" + rest);
    assert s[..|a|] == a && s[|a| + 1..] == rest;
  }

  lemma LastToken(a: string)
    requires Break(a, false) == |a|
    ensures Tokens(a) == [a]
  {
  }

  function ParamTokens(p: Part): seq<string> {
    var name := QuotedParam("name", p.name);
    if p.filename.Some? then [FORM_DATA, name, QuotedParam("filename", p.filename.value)] else [FORM_DATA, name]
  }

  lemma ThreeTokens(a: string, b: string, c: string)
    requires Break(a, false) == |a| && !Quotes(a, false)
    requires Break(b, false) == |b| && !Quotes(b, false)
    requires Break(c, false) == |c|
    ensures Tokens(a + ";" + (b + ";" + c)) == [a, b, c]
  {
    LastToken(c);
    TokensCons(b, c);
    TokensCons(a, b + ";" + c);
  }

  lemma FormDataUncut()
    ensures Break(FORM_DATA, false) == |FORM_DATA| && !Quotes(FORM_DATA, false)
  {
    UncutText(FORM_DATA, false);
  }

  lemma TwoTokens(a: string, b: string)
    requires Break(a, false) == |a| && !Quotes(a, false) && Break(b, false) == |b|
    ensures Tokens(a + ";" + b) == [a, b]
  {
    LastToken(b);
    TokensCons(a, b);
  }

  predicate PlainKey(key: string) {
    Lacks(key, '"') && Lacks(key, ';')
  }

  lemma TwoParamTokens(first: string, key: string, value: string)
    requires Break(first, false) == |first| && !Quotes(first, false) && PlainKey(key) && Lacks(value, '"')
    ensures Tokens(first + ";" + QuotedParam(key, value)) == [first, QuotedParam(key, value)]
  {
    UncutParam(key, value);
    TwoTokens(first, QuotedParam(key, value));
  }

  lemma ThreeParamTokens(first: string, key: string, value: string, other: string, more: string)
    requires Break(first, false) == |first| && !Quotes(first, false)
    requires PlainKey(key) && Lacks(value, '"') && PlainKey(other) && Lacks(more, '"')
    ensures Tokens(first + ";" + (QuotedParam(key, value) + ";" + QuotedParam(other, more)))
            == [first, QuotedParam(key, value), QuotedParam(other, more)]
  {
    UncutParam(key, value);
    UncutParam(other, more);
    ThreeTokens(first, QuotedParam(key, value), QuotedParam(other, more));
  }

  lemma NamedTokens(name: string)
    requires Lacks(name, '"')
    ensures Tokens(FORM_DATA + ";" + QuotedParam("name", name)) == [FORM_DATA, QuotedParam("name", name)]
  {
    FormDataUncut();
    TwoParamTokens(FORM_DATA, "name", name);
  }

  lemma FileTokens(name: string, filename: string)
    requires Lacks(name, '"') && Lacks(filename, '"')
    ensures Tokens(FORM_DATA + ";" + (QuotedParam("name", name) + ";" + QuotedParam("filename", filename)))
            == [FORM_DATA, QuotedParam("name", name), QuotedParam("filename", filename)]
  {
    FormDataUncut();
    ThreeParamTokens(FORM_DATA, "name", name, "filename", filename);
  }

  lemma DispositionTokens(p: Part)
    requires Readable(p)
    ensures Tokens(DispositionValue(p)) == ParamTokens(p)
  {
    if p.filename.Some? { FileTokens(p.name, p.filename.value); } else { NamedTokens(p.name); }
  }

  // ------------------------------------------------------------ parameters

  lemma ParamValue(key: string, value: string, headers: PartHeaders)
    requires key == "name" || key == "filename"
    ensures WithParam(headers, QuotedParam(key, value))
            == if key == "name" then headers.(name := Some(value)) else headers.(filename := Some(BaseName(value)))
  {
    var quoted := "\"" + value + "\"";
    var bare := key + "=" + quoted;
    TrimExact(" ", bare, "");
    assert QuotedParam(key, value) == " " + bare + "";
    FindChar(key, '=', quoted);
    assert bare == key + ['='] + quoted;
    assert bare[..|key|] == key && bare[|key| + 1..] == quoted;
    assert Unquote(quoted) == value;
  }

  lemma FormDataIsNoParam(headers: PartHeaders)
    ensures WithParam(headers, FORM_DATA) == headers
  {
    var bare := "form-data";
    TrimExact(" ", bare, "");
    assert FORM_DATA == " " + bare + "";
    forall k: nat | k < |bare| ensures !Occurs(bare, "=", k) { Differs(bare, "=", k, 0); }
    FindNone(bare, "=");
  }

  function HeadersOf(p: Part): PartHeaders {
    PartHeaders(Some(p.name),
                if p.filename.Some? then Some(BaseName(p.filename.value)) else None,
                if p.contentType.Some? then Some(Trim(p.contentType.value)) else None)
  }

  lemma DispositionMeaning(p: Part)
    requires Readable(p)
    ensures WithLine(NO_HEADERS, DispositionLine(p)) == HeadersOf(p).(contentType := None)
  {
    DispositionTokens(p);
    DispositionParams(p);
    DispositionEffect(NO_HEADERS, DispositionValue(p));
  }

  lemma DispositionEffect(headers: PartHeaders, value: string)
    ensures WithLine(headers, "Content-Disposition:" + value) == WithParams(headers, Tokens(value))
  {
    var key := "Content-Disposition";
    FindChar(key, ':', value);
    var line := key + [':'] + value;
    assert "Content-Disposition:" + value == line;
    assert line[..|key|] == key && line[|key| + 1..] == value;
  }

  lemma DispositionParams(p: Part)
    ensures WithParams(NO_HEADERS, ParamTokens(p)) == HeadersOf(p).(contentType := None)
  {
    var named := PartHeaders(Some(p.name), None, None);
    FormDataIsNoParam(NO_HEADERS);
    ParamValue("name", p.name, NO_HEADERS);
    TwoParams(NO_HEADERS, FORM_DATA, QuotedParam("name", p.name));
    if p.filename.Some? {
      FilenameParam(p, named);
      ThreeParams(NO_HEADERS, FORM_DATA, QuotedParam("name", p.name), QuotedParam("filename", p.filename.value));
    }
  }

  lemma FilenameParam(p: Part, named: PartHeaders)
    requires p.filename.Some?
    ensures WithParam(named, QuotedParam("filename", p.filename.value))
            == named.(filename := Some(BaseName(p.filename.value)))
  {
    ParamValue("filename", p.filename.value, named);
  }

  lemma TwoParams(headers: PartHeaders, a: string, b: string)
    ensures WithParams(headers, [a, b]) == WithParam(WithParam(headers, a), b)
  {
    assert [a, b][1..] == [b] && [b][1..] == [];
    assert WithParams(WithParam(headers, a), [b]) == WithParams(WithParam(WithParam(headers, a), b), []);
  }

  lemma ThreeParams(headers: PartHeaders, a: string, b: string, c: string)
    ensures WithParams(headers, [a, b, c]) == WithParam(WithParam(WithParam(headers, a), b), c)
  {
    assert [a, b, c][1..] == [b, c];
    TwoParams(WithParam(headers, a), b, c);
  }

  lemma TypeMeaning(headers: PartHeaders, kind: string)
    ensures WithLine(headers, TypeLine(kind)) == headers.(contentType := Some(Trim(kind)))
  {
    var key, value := "Content-Type", " " + kind;
    FindChar(key, ':', value);
    var line := TypeLine(kind);
    assert line == key + [':'] + value;
    assert line[..|key|] == key && line[|key| + 1..] == value;
    assert !CiEqual(key, "Content-Disposition");
    TrimLeftExact(" ", kind);
  }

  // ---------------------------------------------------------- header block

  lemma ParamOneLine(key: string, value: string)
    requires OneLine(key) && OneLine(value)
    ensures OneLine(QuotedParam(key, value))
  {
  }

  lemma DispositionOneLine(p: Part)
    requires Readable(p)
    ensures OneLine(DispositionLine(p))
  {
    var name := QuotedParam("name", p.name);
    ParamOneLine("name", p.name);
    if p.filename.Some? {
      var file := QuotedParam("filename", p.filename.value);
      ParamOneLine("filename", p.filename.value);
      OneLineJoins(name, ";");
      OneLineJoins(name + ";", file);
      OneLineJoins(FORM_DATA + ";", name + ";" + file);
    } else {
      OneLineJoins(FORM_DATA + ";", name);
    }
    OneLineJoins("Content-Disposition:", DispositionValue(p));
  }

  function HeaderLines(p: Part): seq<string> {
    if p.contentType.Some? then [DispositionLine(p), TypeLine(p.contentType.value)] else [DispositionLine(p)]
  }

  lemma HeaderBlockLines(p: Part)
    requires Readable(p)
    ensures Split(HeaderBlock(p), CRLF) == HeaderLines(p)
  {
    DispositionOneLine(p);
    if p.contentType.Some? {
      TwoLines(DispositionLine(p), TypeLine(p.contentType.value));
    } else {
      OneLineIsOne(DispositionLine(p));
    }
  }

  lemma WithTwoLines(headers: PartHeaders, a: string, b: string)
    ensures WithLines(headers, [a]) == WithLine(headers, a)
    ensures WithLines(headers, [a, b]) == WithLine(WithLine(headers, a), b)
  {
    assert [a][1..] == [] && [a, b][1..] == [b] && [b][1..] == [];
    assert WithLines(WithLine(headers, a), [b]) == WithLines(WithLine(WithLine(headers, a), b), []);
  }

  lemma HeaderMeaning(p: Part)
    requires Readable(p)
    ensures WithLines(NO_HEADERS, Split(HeaderBlock(p), CRLF)) == HeadersOf(p)
  {
    HeaderBlockLines(p);
    DispositionMeaning(p);
    var kind := if p.contentType.Some? then p.contentType.value else "";
    TypeMeaning(HeadersOf(p).(contentType := None), kind);
    WithTwoLines(NO_HEADERS, DispositionLine(p), TypeLine(kind));
  }

  // ------------------------------------------------------------- one part

  lemma BlankLineEndsHeaders(p: Part, content: string)
    requires Readable(p)
    ensures Find(HeaderBlock(p) + BLANK_LINE + content, BLANK_LINE) == |HeaderBlock(p)|
  {
    DispositionOneLine(p);
    var line := DispositionLine(p);
    if p.contentType.Some? {
      var kind := TypeLine(p.contentType.value);
      TwoLinesThenBlank(line, kind, content);
    } else {
      NoBreakInside(line, BLANK_LINE, content);
    }
  }

  lemma PartPieces(p: Part)
    requires Readable(p)
    ensures HeadAndContent(Rendered(p)) == Some((HeaderBlock(p), p.content))
  {
    BlankLineEndsHeaders(p, p.content);
    PieceOf(HeaderBlock(p), p.content);
  }

  lemma StripsBoth(inner: string)
    ensures StripCrlf(CRLF + inner + CRLF) == inner
  {
    var s := CRLF + inner + CRLF;
    assert s[..2] == CRLF && s[2..] == inner + CRLF;
    assert (inner + CRLF)[|inner|..] == CRLF && (inner + CRLF)[..|inner|] == inner;
  }

  lemma HeadThenContent(head: string, content: string)
    ensures var inner := head + BLANK_LINE + content;
            inner[..|head|] == head && inner[|head| + 4..] == content
  {
  }

  lemma PieceOf(head: string, content: string)
    requires Find(head + BLANK_LINE + content, BLANK_LINE) == |head|
    ensures HeadAndContent(CRLF + head + BLANK_LINE + content + CRLF) == Some((head, content))
  {
    var inner := head + BLANK_LINE + content;
    StripsBoth(inner);
    assert CRLF + head + BLANK_LINE + content + CRLF == CRLF + inner + CRLF;
    HeadThenContent(head, content);
  }

  /** Reading one rendered part stores its content under its names. */
  lemma PartMeaning(form: Form, p: Part)
    requires Readable(p)
    ensures WithPart(form, Rendered(p)) == Store(form, HeadersOf(p), p.content)
  {
    PartPieces(p);
    HeaderMeaning(p);
  }

  // ------------------------------------------------------------- the body

  /** No delimiter straddles the end of a part: it would have to hold a newline. */
  lemma DelimiterAfterNewline(text: string, mark: string, rest: string)
    requires mark != "" && Lacks(mark, '\n') && !Contains(text, mark)
    requires text != "" && text[|text| - 1] == '\n'
    ensures Find(text + mark + rest, mark) == |text|
  {
    var s, n := text + mark + rest, |text|;
    assert s[n..n + |mark|] == mark;
    forall k | 0 <= k < n ensures !Occurs(s, mark, k) {
      if k + |mark| <= n {
        assert text[k..k + |mark|] == s[k..k + |mark|];
        assert !Occurs(text, mark, k);
      } else {
        Differs(s, mark, k, n - 1 - k);
      }
    }
    FindIs(s, mark, n);
  }

  /** A text the splitter finds whole before the next delimiter. */
  predicate Whole(text: string, mark: string)
    requires mark != ""
  {
    text != "" && text[|text| - 1] == '\n' && !Contains(text, mark)
  }

  /** The pieces between the delimiters are the texts. */
  lemma {:induction false} BodyPieces(texts: seq<string>, mark: string, closing: string)
    requires mark != "" && Lacks(mark, '\n') && (forall t :: t in texts ==> Whole(t, mark))
    requires closing != "" && Split(closing, mark) == [closing]
    ensures Split(Joined(texts, mark, closing), mark) == texts + [closing]
    decreases |texts|
  {
    if texts == [] {
    } else {
      var tail := texts[1..];
      BodyPieces(tail, mark, closing);
      assert Whole(texts[0], mark);
      WholePiece(texts[0], mark, Joined(tail, mark, closing));
      ConsAppend(texts, closing);
    }
  }

  lemma WholePiece(text: string, mark: string, rest: string)
    requires mark != "" && Lacks(mark, '\n') && Whole(text, mark) && rest != ""
    ensures Split(text + (mark + rest), mark) == [text] + Split(rest, mark)
  {
    DelimiterAfterNewline(text, mark, rest);
    OnePiece(text, mark, rest);
  }

  lemma ConsAppend(texts: seq<string>, last: string)
    requires texts != []
    ensures [texts[0]] + (texts[1..] + [last]) == texts + [last]
  {
  }

  lemma PartIsWhole(p: Part, boundary: string)
    requires UsableBoundary(boundary) && Sendable(p, boundary)
    ensures Whole(Rendered(p), "--" + boundary)
  {
  }

  lemma OnePiece(text: string, mark: string, rest: string)
    requires mark != "" && rest != "" && Find(text + mark + rest, mark) == |text|
    ensures Split(text + (mark + rest), mark) == [text] + Split(rest, mark)
  {
    SplitStep(text, mark, rest);
    assert text + (mark + rest) == text + mark + rest;
  }

  /** The preamble is one piece. */
  lemma PreamblePiece(preamble: string, mark: string, rest: string)
    requires mark != "" && Lacks(mark, '\n') && rest != ""
    requires preamble == "" || (preamble[|preamble| - 1] == '\n' && !Contains(preamble, mark))
    ensures Split(preamble + (mark + rest), mark) == [preamble] + Split(rest, mark)
  {
    if preamble == "" {
      var all := preamble + mark + rest;
      assert all[..|mark|] == mark;
      FindIs(all, mark, 0);
    } else {
      DelimiterAfterNewline(preamble, mark, rest);
    }
    OnePiece(preamble, mark, rest);
  }

  function Stored(form: Form, parts: seq<Part>): Form
    decreases |parts|
  {
    if parts == [] then form else Stored(Store(form, HeadersOf(parts[0]), parts[0].content), parts[1..])
  }

  lemma WithFirstPart(form: Form, text: string, rest: seq<string>)
    ensures WithParts(form, [text] + rest) == WithParts(WithPart(form, text), rest)
  {
    assert ([text] + rest)[1..] == rest;
  }

  lemma FirstPiece(parts: seq<Part>, closing: string)
    requires parts != []
    ensures RenderedParts(parts) + [closing] == [Rendered(parts[0])] + (RenderedParts(parts[1..]) + [closing])
  {
  }

  lemma {:induction false} PartsMeaning(form: Form, parts: seq<Part>, closing: string)
    requires forall p :: p in parts ==> Readable(p)
    ensures WithParts(form, RenderedParts(parts) + [closing]) == WithPart(Stored(form, parts), closing)
    decreases |parts|
  {
    if parts == [] {
      WithFirstPart(form, closing, []);
      assert RenderedParts(parts) + [closing] == [closing] + [];
    } else {
      var p, rest := parts[0], RenderedParts(parts[1..]) + [closing];
      assert Readable(p);
      PartMeaning(form, p);
      WithFirstPart(form, Rendered(p), rest);
      FirstPiece(parts, closing);
      PartsMeaning(Store(form, HeadersOf(p), p.content), parts[1..], closing);
    }
  }

  lemma StoreFiles(form: Form, p: Part)
    ensures Store(form, HeadersOf(p), p.content).files == form.files + FileOf(p)
  {
  }

  lemma ItemsAssoc(a: seq<Item>, b: seq<Item>, c: seq<Item>)
    ensures (a + b) + c == a + (b + c)
  {
  }

  lemma {:induction false} StoredFiles(form: Form, parts: seq<Part>)
    ensures Stored(form, parts).files == form.files + Files(parts)
    decreases |parts|
  {
    if parts == [] {
      assert form.files + [] == form.files;
    } else {
      StoreFiles(form, parts[0]);
      StoredFiles(Store(form, HeadersOf(parts[0]), parts[0].content), parts[1..]);
      ItemsAssoc(form.files, FileOf(parts[0]), Files(parts[1..]));
    }
  }

  lemma {:induction false} StoredParams(form: Form, parts: seq<Part>, name: string)
    ensures var params := Stored(form, parts).params;
            && (name in form.params ==> name in params && params[name] == form.params[name])
            && (name !in form.params ==>
                  && (name in params <==> FirstField(parts, name).Some?)
                  && (name in params ==> FirstField(parts, name) == Some(params[name])))
    decreases |parts|
  {
    if parts != [] {
      StoredParams(Store(form, HeadersOf(parts[0]), parts[0].content), parts[1..], name);
    }
  }

  lemma StoredRecovers(parts: seq<Part>)
    ensures Recovers(Stored(Form(map[], []), parts), parts)
  {
    var empty := Form(map[], []);
    StoredFiles(empty, parts);
    forall name
      ensures var params := Stored(empty, parts).params;
              (name in params <==> FirstField(parts, name).Some?)
              && (name in params ==> FirstField(parts, name) == Some(params[name]))
    {
      StoredParams(empty, parts, name);
    }
  }

  // ---------------------------------------------------------- the epilogue

  /** The part headers the reader finds in a piece of any text. */
  function HeadersIn(piece: string): PartHeaders {
    match HeadAndContent(piece)
    case None => NO_HEADERS
    case Some((head, _)) => WithLines(NO_HEADERS, Split(head, CRLF))
  }

  /** They name a file, or a plain field that no part has. */
  predicate PieceAdds(parts: seq<Part>, piece: string) {
    var headers := HeadersIn(piece);
    headers.name.Some? && (headers.filename.Some? || FirstField(parts, headers.name.value).None?)
  }

  /** The text behind the closing delimiter, which section 5.1.1 of RFC 2046 wants
      ignored, is read as one more part. */
  predicate EpilogueAdds(parts: seq<Part>, epilogue: string) {
    PieceAdds(parts, "--" + epilogue)
  }

  lemma PieceEffect(form: Form, parts: seq<Part>, piece: string)
    requires Recovers(form, parts)
    ensures Recovers(WithPart(form, piece), parts) <==> !PieceAdds(parts, piece)
  {
    var headers, after := HeadersIn(piece), WithPart(form, piece);
    if PieceAdds(parts, piece) {
      if headers.filename.Some? {
        assert |after.files| == |form.files| + 1;
      } else {
        assert headers.name.value in after.params;
      }
    } else {
      assert after == form;
    }
  }

  /** Without a blank line the epilogue is ignored. */
  lemma PlainEpilogueAddsNothing(parts: seq<Part>, epilogue: string)
    requires !Contains(StripCrlf("--" + epilogue), BLANK_LINE) && !Contains(StripCrlf("--" + epilogue), "\n\n")
    ensures !EpilogueAdds(parts, epilogue)
  {
  }

  lemma DashesAreNoPart()
    ensures StripCrlf("--") == "--" && StripCrlf("--" + CRLF) == "--"
    ensures !Contains("--", BLANK_LINE) && !Contains("--", "\n\n") && !Contains("--", ":")
  {
    var dashes := "--";
    var closing := dashes + CRLF;
    assert dashes[0] == '-' && dashes[0..] == dashes;
    assert closing[0] == '-' && closing[2..] == CRLF && closing[..2] == dashes;
    forall k: nat | k < 2
      ensures !Occurs(dashes, BLANK_LINE, k) && !Occurs(dashes, "\n\n", k) && !Occurs(dashes, ":", k)
    {
      Differs(dashes, BLANK_LINE, k, 0);
      Differs(dashes, "\n\n", k, 0);
      Differs(dashes, ":", k, 0);
    }
    FindNone(dashes, BLANK_LINE);
    FindNone(dashes, "\n\n");
    FindNone(dashes, ":");
  }

  /** The two usual epilogues. */
  lemma UsualEpiloguesAddNothing(parts: seq<Part>)
    ensures !EpilogueAdds(parts, "") && !EpilogueAdds(parts, CRLF)
  {
    DashesAreNoPart();
    assert "--" + "" == "--";
    PlainEpilogueAddsNothing(parts, "");
    PlainEpilogueAddsNothing(parts, CRLF);
  }

  function DisguisedPart(p: Part): string {
    CRLF + DispositionLine(p) + BLANK_LINE + p.content
  }

  /** An epilogue that looks like a part is read as one: its field is added unless a
      part has it already. */
  lemma DisguisedPartIsRead(parts: seq<Part>, p: Part)
    requires Readable(p) && p.content != "" && p.content[|p.content| - 1] != '\n'
    ensures EpilogueAdds(parts, DisguisedPart(p)) <==> p.filename.Some? || FirstField(parts, p.name).None?
  {
    DisguisedHead(p);
    DisguisedHeaders(p);
  }

  lemma DisguisedHeaders(p: Part)
    requires Readable(p)
    ensures WithLines(NO_HEADERS, Split("--" + CRLF + DispositionLine(p), CRLF)) == HeadersOf(p).(contentType := None)
  {
    DispositionOneLine(p);
    TwoLines("--", DispositionLine(p));
    DispositionMeaning(p);
    DashesAreNoPart();
    WithTwoLines(NO_HEADERS, "--", DispositionLine(p));
  }

  lemma UnstrippedText(s: string)
    requires s != "" && s[0] != '\r' && s[|s| - 1] != '\n'
    ensures StripCrlf(s) == s
  {
    if |s| >= 2 { assert s[|s| - 2..][1] == s[|s| - 1]; }
  }

  lemma DisguisedHead(p: Part)
    requires Readable(p) && p.content != "" && p.content[|p.content| - 1] != '\n'
    ensures HeadAndContent("--" + DisguisedPart(p)) == Some(("--" + CRLF + DispositionLine(p), p.content))
  {
    DispositionOneLine(p);
    TwoLinesThenBlank("--", DispositionLine(p), p.content);
    DisguisedPieces(DispositionLine(p), p.content);
  }

  lemma DisguisedPieces(line: string, content: string)
    requires content != "" && content[|content| - 1] != '\n'
    requires var head := "--" + CRLF + line; Find(head + BLANK_LINE + content, BLANK_LINE) == |head|
    ensures HeadAndContent("--" + (CRLF + line + BLANK_LINE + content)) == Some(("--" + CRLF + line, content))
  {
    var head := "--" + CRLF + line;
    var s := head + BLANK_LINE + content;
    assert "--" + (CRLF + line + BLANK_LINE + content) == s;
    assert s[0] == '-' && s[|s| - 1] == content[|content| - 1];
    UnstrippedText(s);
    HeadThenContent(head, content);
  }

  // ----------------------------------------------------------- the theorem

  /** What a client rendered is what the parser reads: the same files in the same
      order with the same bytes, and the first value of every plain field, with
      nothing from the preamble or the closing delimiter; and nothing from the
      epilogue exactly when that does not read as a part. */
  lemma MultipartRoundTrip(parts: seq<Part>, boundary: string, preamble: string, epilogue: string)
    requires UsableBoundary(boundary) && (forall p :: p in parts ==> Sendable(p, boundary))
    requires preamble == "" || (preamble[|preamble| - 1] == '\n' && !Contains(preamble, "--" + boundary))
    requires !Contains("--" + epilogue, "--" + boundary)
    ensures Recovers(Parsed(preamble + RenderedBody(parts, boundary, epilogue), boundary), parts)
            <==> !EpilogueAdds(parts, epilogue)
  {
    BodyReads(parts, boundary, preamble, "--" + epilogue);
    StoredRecovers(parts);
    PieceEffect(Stored(Form(map[], []), parts), parts, "--" + epilogue);
  }

  /** Whatever follows the last delimiter is one more piece. */
  lemma BodyReads(parts: seq<Part>, boundary: string, preamble: string, closing: string)
    requires UsableBoundary(boundary) && (forall p :: p in parts ==> Sendable(p, boundary))
    requires preamble == "" || (preamble[|preamble| - 1] == '\n' && !Contains(preamble, "--" + boundary))
    requires closing != "" && !Contains(closing, "--" + boundary)
    ensures var mark := "--" + boundary;
            Parsed(preamble + (mark + Joined(RenderedParts(parts), mark, closing)), boundary)
            == WithPart(Stored(Form(map[], []), parts), closing)
  {
    var mark, texts := "--" + boundary, RenderedParts(parts);
    forall t | t in texts ensures Whole(t, mark) {
      var i :| 0 <= i < |parts| && t == Rendered(parts[i]);
      PartIsWhole(parts[i], boundary);
    }
    SplitOne(closing, mark);
    BodyPieces(texts, mark, closing);
    PreamblePiece(preamble, mark, Joined(texts, mark, closing));
    assert ([preamble] + (texts + [closing]))[1..] == texts + [closing];
    PartsMeaning(Form(map[], []), parts, closing);
  }
}
