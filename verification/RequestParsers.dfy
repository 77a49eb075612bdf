/** The incremental request parser: cached header facts, and `finalize`. */
module RequestParsers {

  import opened Common
  import opened Decimals
  import opened Text
  import Headers
  import Multipart

  datatype Method = Get | Post | Put | Patch | Options | Unknown

  // ---------------------------------------- what the bytes say, from scratch

  /** One past the blank line that ends the headers. */
  function HeaderEnd(view: string): Option<nat> {
    if Contains(view, BLANK_LINE) then Some(Find(view, BLANK_LINE) + 4) else None
  }

  /** The headers are there and hold a request line and at least one more line. */
  predicate Ready(view: string) {
    HeaderEnd(view).Some? && 0 < Find(view, CRLF) < Find(view, BLANK_LINE)
  }

  function RequestLine(view: string): string {
    view[..Find(view, CRLF)]
  }

  predicate Spaced(view: string) {
    Contains(RequestLine(view), " ")
  }

  function MethodNamed(token: string): Method {
    if token == "GET" then Get
    else if token == "POST" then Post
    else if token == "PUT" then Put
    else if token == "PATCH" then Patch
    else if token == "OPTIONS" then Options
    else Unknown
  }

  /** The method of a request line; Unknown too when the line has no space. */
  function MethodOf(line: string): Method {
    if Contains(line, " ") then MethodNamed(line[..Find(line, " ")]) else Unknown
  }

  /** The method is told by the first word of the line and the space behind it. */
  predicate MethodOfLine(line: string, verb: Method) {
    && (verb == Get <==> "GET " <= line)
    && (verb == Post <==> "POST " <= line)
    && (verb == Put <==> "PUT " <= line)
    && (verb == Patch <==> "PATCH " <= line)
    && (verb == Options <==> "OPTIONS " <= line)
  }

  /** The line starts with one of the five. */
  predicate HasMethod(line: string) {
    "GET " <= line || "POST " <= line || "PUT " <= line || "PATCH " <= line || "OPTIONS " <= line
  }

  lemma FirstWord(line: string, word: string)
    requires Lacks(word, ' ')
    ensures word + " " <= line <==> Contains(line, " ") && line[..Find(line, " ")] == word
  {
    if word + " " <= line {
      var rest := line[|word| + 1..];
      assert line == word + [' '] + rest;
      FindChar(word, ' ', rest);
      assert line[..|word|] == word;
    }
    if Contains(line, " ") && line[..Find(line, " ")] == word {
      var i := Find(line, " ");
      assert line[i..i + 1] == " ";
      assert line[..i + 1] == word + " ";
    }
  }

  lemma MethodMeaning(line: string)
    ensures MethodOfLine(line, MethodOf(line))
    ensures MethodOf(line) != Unknown <==> HasMethod(line)
  {
    FirstWord(line, "GET");
    FirstWord(line, "POST");
    FirstWord(line, "PUT");
    FirstWord(line, "PATCH");
    FirstWord(line, "OPTIONS");
    assert "GET" + " " == "GET " && "POST" + " " == "POST " && "PUT" + " " == "PUT ";
    assert "PATCH" + " " == "PATCH " && "OPTIONS" + " " == "OPTIONS ";
  }

  // ------------------------------------------------------- the cached facts

  datatype Parsing = Parsing(view: string, headerSize: Option<nat>, verb: Option<Method>)

  const FRESH := Parsing("", None, None)

  /** Bytes arrive: nothing cached changes. */
  function Received(p: Parsing, chunk: string): Parsing {
    p.(view := p.view + chunk)
  }

  /** The caches after `eof`. */
  function Asked(p: Parsing): Parsing {
    var size := if p.headerSize.Some? then p.headerSize else HeaderEnd(p.view);
    var line := Find(p.view, CRLF);
    var verb :=
      if p.verb.Some? || size.None? then p.verb
      else if p.view == "" || |p.view| < size.value || line == |p.view| || line == 0 || line + 4 >= size.value then None
      else Some(MethodOf(p.view[..line]));
    Parsing(p.view, size, verb)
  }

  /** The answer of `eof`: a line without a space is only a request the second time. */
  predicate Complete(p: Parsing) {
    Asked(p).headerSize.Some? && Asked(p).verb.Some? && (p.verb.Some? || Spaced(p.view))
  }

  /** Every cached fact is the one recomputed from the whole buffer. */
  predicate Exact(p: Parsing) {
    && (p.headerSize.Some? ==> p.headerSize == HeaderEnd(p.view))
    && (p.verb.Some? ==> p.headerSize.Some? && Ready(p.view) && p.verb == Some(MethodOf(RequestLine(p.view))))
  }

  /** The blank line is no sooner than the first line end, and cannot overlap it by
      one byte, so the unsigned length of the header slice does not wrap. */
  lemma SliceDoesNotWrap(view: string)
    requires Ready(view)
    ensures var p, q := Find(view, CRLF), Find(view, BLANK_LINE);
            p + 2 <= q && q + 4 == HeaderEnd(view).value <= |view|
  {
    var p, q := Find(view, CRLF), Find(view, BLANK_LINE);
    assert view[p..p + 2][1] == view[p + 1] == '\n';
    assert view[q..q + 4][0] == view[q] == '\r';
  }

  lemma BlankStartsWithBreak(s: string)
    requires s == BLANK_LINE
    ensures s[..2] == CRLF
  {
  }

  /** When the headers are there the first line end comes no later than the blank line. */
  lemma LineEndsFirst(view: string)
    requires HeaderEnd(view).Some?
    ensures Find(view, CRLF) <= Find(view, BLANK_LINE) && Contains(view, CRLF)
  {
    var q := Find(view, BLANK_LINE);
    BlankStartsWithBreak(view[q..q + 4]);
    assert view[q..q + 2] == view[q..q + 4][..2];
    assert Occurs(view, CRLF, q);
  }

  /** Later bytes change no header fact. */
  lemma FactsAreStable(view: string, more: string)
    requires HeaderEnd(view).Some?
    ensures HeaderEnd(view + more) == HeaderEnd(view)
    ensures Find(view + more, CRLF) == Find(view, CRLF)
    ensures RequestLine(view + more) == RequestLine(view)
    ensures Ready(view + more) == Ready(view)
  {
    LineEndsFirst(view);
    FindInPrefix(view, more, BLANK_LINE);
    FindInPrefix(view, more, CRLF);
    assert (view + more)[..Find(view, CRLF)] == view[..Find(view, CRLF)];
  }

  lemma ReceivedExact(p: Parsing, chunk: string)
    requires Exact(p)
    ensures Exact(Received(p, chunk))
  {
    if p.headerSize.Some? { FactsAreStable(p.view, chunk); }
  }

  lemma AskedExact(p: Parsing)
    requires Exact(p)
    ensures Exact(Asked(p))
    ensures Asked(p).verb.Some? <==> Ready(p.view)
    ensures Asked(p).headerSize == HeaderEnd(p.view)
  {
    if HeaderEnd(p.view).Some? { LineEndsFirst(p.view); }
  }

  // ------------------------------------------------------------------ runs

  datatype Event = Bytes(chunk: string) | Ask

  function Run(events: seq<Event>): Parsing {
    if events == [] then FRESH
    else
      var before := Run(events[..|events| - 1]);
      match events[|events| - 1]
      case Bytes(chunk) => Received(before, chunk)
      case Ask => Asked(before)
  }

  /** The input of a run. */
  function Input(events: seq<Event>): string {
    if events == [] then ""
    else
      Input(events[..|events| - 1])
      + match events[|events| - 1] case Bytes(chunk) => chunk case Ask => ""
  }

  /** Some `eof` of the run was asked when the headers were complete. */
  predicate AskedWhenReady(events: seq<Event>) {
    exists i :: 0 <= i < |events| && events[i].Ask? && Ready(Input(events[..i]))
  }

  lemma {:induction false} RunIsExact(events: seq<Event>)
    ensures Exact(Run(events)) && Run(events).view == Input(events)
  {
    if events != [] {
      var before := Run(events[..|events| - 1]);
      RunIsExact(events[..|events| - 1]);
      match events[|events| - 1]
      case Bytes(chunk) => ReceivedExact(before, chunk);
      case Ask => AskedExact(before);
    }
  }

  lemma AskedWhenReadyStep(events: seq<Event>, last: Event)
    ensures AskedWhenReady(events + [last])
            <==> AskedWhenReady(events) || (last.Ask? && Ready(Input(events)))
  {
    var all := events + [last];
    assert all[..|events|] == events;
    forall i | 0 <= i < |events| ensures all[..i] == events[..i] && all[i] == events[i] {}
    if AskedWhenReady(events) {
      var i :| 0 <= i < |events| && events[i].Ask? && Ready(Input(events[..i]));
      assert all[i].Ask? && Ready(Input(all[..i]));
    }
    if last.Ask? && Ready(Input(events)) {
      assert all[|events|].Ask? && Ready(Input(all[..|events|]));
    }
  }

  lemma {:induction false} MethodCachedWhen(events: seq<Event>)
    ensures Run(events).verb.Some? <==> AskedWhenReady(events)
  {
    if events != [] {
      var front, last := events[..|events| - 1], events[|events| - 1];
      MethodCachedWhen(front);
      AskedWhenReadyStep(front, last);
      assert events == front + [last];
      RunIsExact(front);
      if last.Ask? { AskedExact(Run(front)); }
    }
  }

  /** The answer of `eof` after any run: the headers are complete, and either the
      request line has a space or `eof` was asked before with the headers complete. */
  lemma EofMeaning(events: seq<Event>)
    ensures Complete(Run(events)) <==> Ready(Input(events)) && (Spaced(Input(events)) || AskedWhenReady(events))
  {
    RunIsExact(events);
    MethodCachedWhen(events);
    AskedExact(Run(events));
  }

  /** However the input is cut into reads, and however often `eof` is asked, the
      caches it leaves are those of the whole buffer. */
  lemma ChunkingIndependent(events: seq<Event>, other: seq<Event>)
    requires Input(events) == Input(other)
    ensures Asked(Run(events)) == Asked(Run(other))
    ensures Spaced(Input(events)) ==> (Complete(Run(events)) <==> Complete(Run(other)))
  {
    RunIsExact(events);
    RunIsExact(other);
    AskedExact(Run(events));
    AskedExact(Run(other));
    EofMeaning(events);
    EofMeaning(other);
  }

  /** Without a space in the request line two runs over the same input agree exactly
      when both, or neither, asked before with the headers complete. */
  lemma AgreementWithoutSpace(events: seq<Event>, other: seq<Event>)
    requires Input(events) == Input(other) && Ready(Input(events)) && !Spaced(Input(events))
    ensures (Complete(Run(events)) <==> Complete(Run(other))) <==> (AskedWhenReady(events) <==> AskedWhenReady(other))
  {
    EofMeaning(events);
    EofMeaning(other);
  }

  /** A complete request stays complete, with the same facts. */
  lemma CompleteIsStable(p: Parsing, more: string)
    requires Exact(p) && Complete(p)
    ensures Complete(Received(p, more))
    ensures Asked(Received(p, more)).headerSize == Asked(p).headerSize
    ensures Asked(Received(p, more)).verb == Asked(p).verb
  {
    AskedExact(p);
    FactsAreStable(p.view, more);
    ReceivedExact(p, more);
    AskedExact(Received(p, more));
  }

  /** A request line without a space is refused once and then accepted, whatever
      it and the header line behind it are. */
  lemma SecondAskDiffers(line: string, header: string)
    requires line != "" && OneLine(line) && Lacks(line, ' ') && header != "" && OneLine(header)
    ensures var input := line + CRLF + (header + BLANK_LINE);
            !Complete(Run([Bytes(input)])) && Complete(Run([Bytes(input), Ask]))
  {
    var input := line + CRLF + (header + BLANK_LINE);
    TwoLinesAreReady(line, header);
    OneRead(input);
    EofMeaning([Bytes(input)]);
    EofMeaning([Bytes(input), Ask]);
    assert [Bytes(input), Ask][1].Ask? && Ready(Input([Bytes(input), Ask][..1]));
  }

  lemma OneRead(input: string)
    ensures Input([Bytes(input)]) == input && Input([Bytes(input), Ask]) == input
    ensures Input([Bytes(input), Ask][..1]) == input && !AskedWhenReady([Bytes(input)])
  {
    var once, twice := [Bytes(input)], [Bytes(input), Ask];
    assert once[..0] == [] && twice[..1] == once;
    assert "" + input == input && input + "" == input;
  }

  /** Two lines and a blank line: the first is the request line. */
  lemma TwoLinesAreReady(a: string, b: string)
    requires a != "" && OneLine(a) && b != "" && OneLine(b)
    ensures var input := a + CRLF + (b + BLANK_LINE);
            Ready(input) && RequestLine(input) == a && (Lacks(a, ' ') ==> !Spaced(input))
  {
    var input := a + CRLF + (b + BLANK_LINE);
    TwoLinesThenBlank(a, b, "");
    assert a + CRLF + b + BLANK_LINE + "" == input;
    NoBreakInside(a, CRLF, b + BLANK_LINE);
    assert input[..|a|] == a;
    if Lacks(a, ' ') { LacksIsNotFound(a, ' '); }
  }

  lemma LacksIsNotFound(s: string, c: char)
    requires Lacks(s, c)
    ensures !Contains(s, [c])
  {
    forall k: nat | k < |s| ensures !Occurs(s, [c], k) { Differs(s, [c], k, 0); }
    FindNone(s, [c]);
  }

  // -------------------------------------------------------------- finalize

  const MAX_PATH := 2048
  const SIZE_LIMIT := 0x1_0000_0000_0000_0000

  datatype Head = Head(verb: Method, path: string, fields: map<string, string>)

  datatype Body = NoBody | Json(text: string) | FormData(form: Multipart.Form)

  datatype Request = Request(head: Head, body: Body)

  predicate Forbidden(c: char) {
    c == '%' || c == '\0' || c == '\r' || c == '\n' || c == '\\'
  }

  /** `is_valid_path`. */
  predicate IsValidPath(path: string) {
    path != "" && path[0] == '/' && (forall i :: 0 <= i < |path| ==> !Forbidden(path[i])) && !Contains(path, "..")
  }

  function ParseUri(uri: string): Result<string> {
    if Contains(uri, "?") then Err("URI query parameters are not allowed.")
    else if |uri| > MAX_PATH then Err("URI exceeds maximum length.")
    else if !IsValidPath(uri) then Err("Invalid URI path.")
    else Ok(uri)
  }

  function ParseRequestLine(line: string): Result<string> {
    var words := Split(line, " ");
    if words == [] then Err("Malformed request line: empty.")
    else if |words| == 1 then Err("Malformed request line: missing URI.")
    else ParseUri(words[1])
  }

  /** The header lines: between the request line and the blank line. */
  function HeaderText(view: string): string
    requires Ready(view)
  {
    SliceDoesNotWrap(view);
    view[Find(view, CRLF) + 2..Find(view, BLANK_LINE)]
  }

  /** Request line, method and headers, in the order `finalize` checks them. */
  function ParseHead(view: string): Result<Head>
    requires Ready(view)
  {
    match ParseRequestLine(RequestLine(view))
    case Err(message) => Err(message)
    case Ok(path) =>
      var verb := MethodOf(RequestLine(view));
      if verb.Unknown? then Err("Method Not Allowed or Unsupported")
      else
        match Headers.AddLines(Split(HeaderText(view), CRLF))
        case Rejected(_) => Err("Malformed headers")
        case Accepted(fields) => Ok(Head(verb, path, fields))
  }

  /** What the request line must be for a request to be accepted. */
  predicate AcceptableLine(line: string) {
    && HasMethod(line)
    && |Split(line, " ")| >= 2
    && var path := Split(line, " ")[1];
       && 0 < |path| <= 2048 && path[0] == '/'
       && (forall i :: 0 <= i < |path| ==> path[i] !in "?%\0\r\n\\")
       && (forall i :: 0 <= i < |path| - 1 ==> !(path[i] == '.' && path[i + 1] == '.'))
  }

  lemma PathChecks(path: string)
    ensures ParseUri(path).Ok?
            <==> && 0 < |path| <= 2048 && path[0] == '/'
                 && (forall i :: 0 <= i < |path| ==> path[i] !in "?%\0\r\n\\")
                 && (forall i :: 0 <= i < |path| - 1 ==> !(path[i] == '.' && path[i + 1] == '.'))
    ensures ParseUri(path).Ok? ==> ParseUri(path).value == path
  {
    assert Contains(path, "?") <==> exists i :: 0 <= i < |path| && path[i] == '?' by { OccursChar(path, '?'); }
    assert Contains(path, "..") <==> exists i :: 0 <= i < |path| - 1 && path[i] == '.' && path[i + 1] == '.' by {
      OccursDots(path);
    }
  }

  lemma OccursChar(s: string, c: char)
    ensures Contains(s, [c]) <==> exists i :: 0 <= i < |s| && s[i] == c
  {
    if Contains(s, [c]) {
      assert s[Find(s, [c])..Find(s, [c]) + 1][0] == s[Find(s, [c])];
    }
    if i :| 0 <= i < |s| && s[i] == c {
      assert s[i..i + 1] == [c];
      assert Occurs(s, [c], i);
    }
  }

  lemma OccursDots(s: string)
    ensures Contains(s, "..") <==> exists i :: 0 <= i < |s| - 1 && s[i] == '.' && s[i + 1] == '.'
  {
    if Contains(s, "..") {
      var i := Find(s, "..");
      assert s[i..i + 2][0] == s[i] && s[i..i + 2][1] == s[i + 1];
    }
    if i :| 0 <= i < |s| - 1 && s[i] == '.' && s[i + 1] == '.' {
      assert s[i..i + 2] == "..";
      assert Occurs(s, "..", i);
    }
  }

  /** A head is accepted exactly when its request line and its header lines are; then
      the method is that of the line, and the map finds every name's first trimmed value. */
  lemma HeadMeaning(view: string)
    requires Ready(view)
    ensures var lines := Split(HeaderText(view), CRLF);
            && (ParseHead(view).Ok? <==> AcceptableLine(RequestLine(view)) && Headers.Acceptable(lines))
            && (ParseHead(view).Ok? ==>
                  && ParseHead(view).value.path == Split(RequestLine(view), " ")[1]
                  && MethodOfLine(RequestLine(view), ParseHead(view).value.verb)
                  && Headers.FindsFirst(ParseHead(view).value.fields, lines))
  {
    Headers.HeadersMeaning(Split(HeaderText(view), CRLF));
    MethodMeaning(RequestLine(view));
    var words := Split(RequestLine(view), " ");
    if |words| >= 2 { PathChecks(words[1]); }
  }

  /** What `eof` lets through at the second call is then rejected. */
  lemma SpacelessIsRejected(view: string)
    requires Ready(view) && !Spaced(view)
    ensures ParseHead(view).Err?
  {
    HeadMeaning(view);
    MethodMeaning(RequestLine(view));
  }

  lemma HeadIsStable(view: string, more: string)
    requires Ready(view)
    ensures Ready(view + more) && ParseHead(view + more) == ParseHead(view)
  {
    FactsAreStable(view, more);
    SliceDoesNotWrap(view);
    var p, q := Find(view, CRLF), Find(view, BLANK_LINE);
    FindInPrefix(view, more, BLANK_LINE);
    assert (view + more)[p + 2..q] == view[p + 2..q];
    assert HeaderText(view + more) == HeaderText(view);
  }

  /** Nothing past the blank line reaches the method, the path or the header map. */
  lemma HeadIgnoresBody(view: string, other: string)
    requires Ready(view)
    requires var size := HeaderEnd(view).value; size <= |other| && other[..size] == view[..size]
    ensures Ready(other) && HeaderEnd(other) == HeaderEnd(view)
    ensures ParseHead(other) == ParseHead(view)
  {
    HeaderOnly(view);
    var size := HeaderEnd(view).value;
    var head := view[..size];
    assert other == head + other[size..] && view == head + view[size..];
    FactsAreStable(head, other[size..]);
    HeadIsStable(head, other[size..]);
    HeadIsStable(head, view[size..]);
  }

  /** The bytes up to the blank line are complete by themselves: no body is waited for. */
  lemma HeaderOnly(view: string)
    requires HeaderEnd(view).Some?
    ensures var size := HeaderEnd(view).value;
            && size <= |view| && HeaderEnd(view[..size]) == HeaderEnd(view)
            && (Ready(view[..size]) <==> Ready(view)) && (Spaced(view[..size]) <==> Spaced(view))
  {
    var q := Find(view, BLANK_LINE);
    var head := view[..q + 4];
    assert head[q..q + 4] == BLANK_LINE;
    assert Occurs(head, BLANK_LINE, q);
    forall k | 0 <= k < q ensures !Occurs(head, BLANK_LINE, k) {
      assert !Occurs(view, BLANK_LINE, k) && head[k..k + 4] == view[k..k + 4];
    }
    FindIs(head, BLANK_LINE, q);
    FactsAreStable(head, view[q + 4..]);
    assert view == head + view[q + 4..];
  }

  // ------------------------------------------------------------- the body

  /** `std::from_chars` over the whole text into a 64-bit unsigned. */
  function ParseSize(s: string): Option<nat> {
    if s != "" && AllDigits(s) && Denoted(s) < SIZE_LIMIT then Some(Denoted(s)) else None
  }

  function ContentLength(fields: map<string, string>): Option<nat> {
    if "content-length" in fields then ParseSize(fields["content-length"]) else None
  }

  /** `substr(header size, content length)`: short when the bytes are not there. */
  function BodyText(view: string, length: nat): (text: string)
    requires HeaderEnd(view).Some?
    ensures |text| <= length
  {
    var size := HeaderEnd(view).value;
    if size + length <= |view| then view[size..size + length] else view[size..]
  }

  function Boundary(kind: string): Option<string> {
    var i := Find(kind, "boundary=");
    if i == |kind| then None
    else
      var b := kind[i + 9..];
      var open := if b != "" && b[0] == '"' then b[1..] else b;
      Some(if open != "" && open[|open| - 1] == '"' then open[..|open| - 1] else open)
  }

  predicate HasBody(verb: Method) {
    verb.Post? || verb.Put? || verb.Patch?
  }

  /** `parse_body` and the checks before it; `isJson` is the foreign JSON parser's verdict. */
  function ParseBody(view: string, head: Head, isJson: string -> bool): Result<Body>
    requires HeaderEnd(view).Some?
  {
    if !HasBody(head.verb) then Ok(NoBody)
    else
      var length := ContentLength(head.fields);
      if length.None? && head.verb.Post? then Err("POST request without valid Content-Length header.")
      else if length.None? || length.value == 0 then Ok(NoBody)
      else if "content-type" !in head.fields then Err("Request with body is missing Content-Type header.")
      else
        var kind, text := head.fields["content-type"], BodyText(view, length.value);
        if "application/json" <= kind then
          if isJson(text) then Ok(Json(text)) else Err("JSON parse error")
        else if "multipart/form-data" <= kind then
          match Boundary(kind)
          case None => Err("Malformed multipart/form-data: boundary not found.")
          case Some(boundary) => Ok(FormData(Multipart.Parsed(text, boundary)))
        else Err("Unsupported Content-Type")
  }

  function Finalized(view: string, isJson: string -> bool): Result<Request>
    requires Ready(view)
  {
    match ParseHead(view)
    case Err(message) => Err(message)
    case Ok(head) =>
      match ParseBody(view, head, isJson)
      case Err(message) => Err(message)
      case Ok(body) => Ok(Request(head, body))
  }

  /** The announced length: decimal digits, and below 2^64. */
  predicate GivesLength(fields: map<string, string>) {
    && "content-length" in fields && fields["content-length"] != ""
    && AllDigits(fields["content-length"]) && Denoted(fields["content-length"]) < 0x1_0000_0000_0000_0000
  }

  function GivenLength(fields: map<string, string>): nat
    requires GivesLength(fields)
  {
    Denoted(fields["content-length"])
  }

  /** A POST, PUT or PATCH that announces at least one byte. */
  predicate Announces(head: Head) {
    (head.verb.Post? || head.verb.Put? || head.verb.Patch?) && GivesLength(head.fields) && GivenLength(head.fields) > 0
  }

  /** The first `length` bytes behind the blank line, or as many as are there. */
  predicate IsBody(view: string, length: nat, text: string)
    requires HeaderEnd(view).Some?
  {
    var end := Find(view, BLANK_LINE) + 4;
    && end + |text| <= |view| && view[end..end + |text|] == text
    && (|text| == length || (|text| < length && end + |text| == |view|))
  }

  lemma BodyTextMeaning(view: string, length: nat)
    requires HeaderEnd(view).Some?
    ensures IsBody(view, length, BodyText(view, length))
  {
  }

  /** What the body announcement of an accepted head must be: a POST has a valid
      Content-Length, and a non-empty body has a type the parser reads. */
  predicate AllowedBody(view: string, head: Head, isJson: string -> bool)
    requires HeaderEnd(view).Some?
  {
    && (head.verb.Post? ==> GivesLength(head.fields))
    && (Announces(head) ==>
          && "content-type" in head.fields
          && var kind := head.fields["content-type"];
             || ("application/json" <= kind && isJson(BodyText(view, GivenLength(head.fields))))
             || ("multipart/form-data" <= kind && Contains(kind, "boundary=")))
  }

  /** `raw` less a quote at either end, one quote alone being an opening one. */
  ghost predicate IsUnquoted(raw: string, text: string) {
    exists quote, close :: UnquotedBy(raw, text, quote, close)
  }

  predicate UnquotedBy(raw: string, text: string, quote: string, close: string) {
    && raw == quote + text + close && quote in ["", "\""] && close in ["", "\""]
    && (quote == "" ==> raw == "" || raw[0] != '"')
    && (close == "" ==> text == "" || text[|text| - 1] != '"')
  }

  /** The text is what follows the first `boundary=`, unquoted. */
  ghost predicate IsBoundary(kind: string, boundary: string) {
    exists i: nat ::
      && Occurs(kind, "boundary=", i) && (forall k: nat :: k < i ==> !Occurs(kind, "boundary=", k))
      && IsUnquoted(kind[i + 9..], boundary)
  }

  /** What is stored of the body: nothing unless one is announced, else its text, or
      the form read from it. */
  ghost predicate StoresBody(view: string, head: Head, body: Body)
    requires HeaderEnd(view).Some?
  {
    match body
    case NoBody => !Announces(head)
    case Json(text) =>
      && Announces(head) && "content-type" in head.fields && "application/json" <= head.fields["content-type"]
      && IsBody(view, GivenLength(head.fields), text)
    case FormData(form) =>
      && Announces(head) && "content-type" in head.fields && "multipart/form-data" <= head.fields["content-type"]
      && exists text, boundary ::
           && IsBody(view, GivenLength(head.fields), text) && IsBoundary(head.fields["content-type"], boundary)
           && form == Multipart.Parsed(text, boundary)
  }

  function Unquoted(raw: string): string {
    var open := if raw != "" && raw[0] == '"' then raw[1..] else raw;
    if open != "" && open[|open| - 1] == '"' then open[..|open| - 1] else open
  }

  lemma UnquotedMeaning(raw: string)
    ensures IsUnquoted(raw, Unquoted(raw))
  {
    var quote := if raw != "" && raw[0] == '"' then "\"" else "";
    var open := raw[|quote|..];
    var close := if open != "" && open[|open| - 1] == '"' then "\"" else "";
    assert open == Unquoted(raw) + close;
    assert raw == quote + open == quote + Unquoted(raw) + close;
    assert UnquotedBy(raw, Unquoted(raw), quote, close);
  }

  lemma BoundaryMeaning(kind: string)
    ensures Boundary(kind).Some? <==> Contains(kind, "boundary=")
    ensures Boundary(kind).Some? ==> IsBoundary(kind, Boundary(kind).value)
  {
    if Contains(kind, "boundary=") {
      var i := Find(kind, "boundary=");
      UnquotedMeaning(kind[i + 9..]);
      assert Occurs(kind, "boundary=", i);
    }
  }

  lemma KindsDiffer(kind: string)
    requires "application/json" <= kind
    ensures !("multipart/form-data" <= kind)
  {
    assert kind[0] == "application/json"[0] && "multipart/form-data"[0] == 'm';
  }

  lemma BodyMeaning(view: string, head: Head, isJson: string -> bool)
    requires HeaderEnd(view).Some?
    ensures ParseBody(view, head, isJson).Ok? <==> AllowedBody(view, head, isJson)
    ensures ParseBody(view, head, isJson).Ok? ==> StoresBody(view, head, ParseBody(view, head, isJson).value)
  {
    if GivesLength(head.fields) { BodyTextMeaning(view, GivenLength(head.fields)); }
    if "content-type" in head.fields { BoundaryMeaning(head.fields["content-type"]); }
    if "content-type" in head.fields && "application/json" <= head.fields["content-type"] {
      KindsDiffer(head.fields["content-type"]);
    }
  }

  /** A request is accepted exactly when its request line, its header lines and its
      body announcement are. */
  lemma FinalizedMeaning(view: string, isJson: string -> bool)
    requires Ready(view)
    ensures Finalized(view, isJson).Ok?
            <==> && AcceptableLine(RequestLine(view))
                 && Headers.Acceptable(Split(HeaderText(view), CRLF))
                 && ParseHead(view).Ok? && AllowedBody(view, ParseHead(view).value, isJson)
    ensures Finalized(view, isJson).Ok? ==>
              var request := Finalized(view, isJson).value;
              request.head == ParseHead(view).value && StoresBody(view, request.head, request.body)
  {
    var lines := Split(HeaderText(view), CRLF);
    assert ParseHead(view).Ok? <==> AcceptableLine(RequestLine(view)) && Headers.Acceptable(lines) by {
      HeadMeaning(view);
    }
    if ParseHead(view).Ok? { BodyMeaning(view, ParseHead(view).value, isJson); }
  }

  /** Why a request line is rejected: the first of these that is so. */
  lemma LineErrors(line: string)
    ensures line == "" ==> ParseRequestLine(line) == Err("Malformed request line: empty.")
    ensures line != "" && |Split(line, " ")| < 2
            ==> ParseRequestLine(line) == Err("Malformed request line: missing URI.")
    ensures |Split(line, " ")| >= 2 ==>
              var path := Split(line, " ")[1];
              && ('?' in path ==> ParseRequestLine(line) == Err("URI query parameters are not allowed."))
              && ('?' !in path && |path| > 2048 ==> ParseRequestLine(line) == Err("URI exceeds maximum length."))
              && ('?' !in path && |path| <= 2048 && ParseUri(path).Err?
                  ==> ParseRequestLine(line) == Err("Invalid URI path."))
  {
    if |Split(line, " ")| >= 2 { OccursChar(Split(line, " ")[1], '?'); }
  }

  /** Why a head is rejected: the request line comes before the method, and the method
      before the header lines. */
  lemma HeadErrors(view: string)
    requires Ready(view)
    ensures var line, lines := RequestLine(view), Split(HeaderText(view), CRLF);
            && (ParseRequestLine(line).Err? ==> ParseHead(view) == Err(ParseRequestLine(line).message))
            && (ParseRequestLine(line).Ok? && !HasMethod(line)
                ==> ParseHead(view) == Err("Method Not Allowed or Unsupported"))
            && (AcceptableLine(line) && !Headers.Acceptable(lines) ==> ParseHead(view) == Err("Malformed headers"))
  {
    Headers.HeadersMeaning(Split(HeaderText(view), CRLF));
    MethodMeaning(RequestLine(view));
    var words := Split(RequestLine(view), " ");
    if |words| >= 2 { PathChecks(words[1]); }
  }

  /** Why the body of an accepted head is rejected. */
  lemma BodyErrors(view: string, head: Head, isJson: string -> bool)
    requires HeaderEnd(view).Some?
    ensures var result, fields := ParseBody(view, head, isJson), head.fields;
            && (head.verb.Post? && !GivesLength(fields)
                ==> result == Err("POST request without valid Content-Length header."))
            && (Announces(head) && "content-type" !in fields
                ==> result == Err("Request with body is missing Content-Type header."))
            && (Announces(head) && "content-type" in fields ==>
                  var kind := fields["content-type"];
                  && ("application/json" <= kind && !isJson(BodyText(view, GivenLength(fields)))
                      ==> result == Err("JSON parse error"))
                  && ("multipart/form-data" <= kind && !Contains(kind, "boundary=")
                      ==> result == Err("Malformed multipart/form-data: boundary not found."))
                  && (!("application/json" <= kind) && !("multipart/form-data" <= kind)
                      ==> result == Err("Unsupported Content-Type")))
  {
    if "content-type" in head.fields && "application/json" <= head.fields["content-type"] {
      KindsDiffer(head.fields["content-type"]);
    }
  }

  // ------------------------------------------------------------ the object

  class RequestParser {

    var view: string
    var headerSize: Option<nat>
    var verb: Option<Method>
    /** What a successful `finalize` stored. */
    var request: Option<Request>

    ghost function State(): Parsing
      reads this
    {
      Parsing(view, headerSize, verb)
    }

    constructor ()
      ensures State() == FRESH && Exact(State()) && request.None?
    {
      view, headerSize, verb, request := "", None, None, None;
    }

    method UpdatePos(chunk: string)
      modifies this`view
      ensures State() == if request.Some? then old(State()) else Received(old(State()), chunk)
    {
      if request.None? {
        view := view + chunk;
      }
    }

    method FindAndStoreHeaderEnd() returns (found: bool)
      modifies this`headerSize
      ensures headerSize == Asked(old(State())).headerSize && found == headerSize.Some?
    {
      if headerSize.Some? { return true; }
      var end := Find(view, BLANK_LINE);
      if end < |view| {
        headerSize := Some(end + 4);
        return true;
      }
      return false;
    }

    method ParseAndStoreMethod() returns (known: bool)
      requires headerSize.Some?
      modifies this`verb
      ensures State() == Asked(old(State())) && known == Complete(old(State()))
    {
      if verb.Some? { return true; }
      if view == "" || |view| < headerSize.value { return false; }
      var end := Find(view, CRLF);
      if end == |view| || end == 0 || end + 4 >= headerSize.value { return false; }
      var line := view[..end];
      var space := Find(line, " ");
      if space == |line| {
        verb := Some(Unknown);
        return false;
      }
      verb := Some(MethodNamed(line[..space]));
      return true;
    }

    /** The Content-Length test of the code is never reached: every method it could
        apply to has already been answered. */
    method Eof() returns (complete: bool)
      modifies this`headerSize, this`verb
      ensures State() == Asked(old(State())) && complete == Complete(old(State()))
    {
      var found := FindAndStoreHeaderEnd();
      if !found { return false; }
      complete := ParseAndStoreMethod();
    }

    /** Request line, method and header lines, in this order. */
    method ReadHead() returns (result: Result<Head>)
      requires Ready(view) && headerSize == HeaderEnd(view) && verb == Some(MethodOf(RequestLine(view)))
      ensures result == ParseHead(view)
    {
      SliceDoesNotWrap(view);
      var end := Find(view, CRLF);
      assert view[..end] == RequestLine(view) && view[end + 2..headerSize.value - 4] == HeaderText(view);
      var path := ParseRequestLine(view[..end]);
      if path.Err? { return Err(path.message); }
      if verb.value.Unknown? { return Err("Method Not Allowed or Unsupported"); }
      var outcome := Headers.ParseHeaders(view[end + 2..headerSize.value - 4]);
      if outcome.Rejected? { return Err("Malformed headers"); }
      return Ok(Head(verb.value, path.value, outcome.fields));
    }

    /** The body announcement and `parse_body`. */
    method ReadBody(head: Head, isJson: string -> bool) returns (result: Result<Body>)
      requires Ready(view)
      ensures result == ParseBody(view, head, isJson)
    {
      if !HasBody(head.verb) { return Ok(NoBody); }
      var length := ContentLength(head.fields);
      if length.None? && head.verb.Post? { return Err("POST request without valid Content-Length header."); }
      if length.None? || length.value == 0 { return Ok(NoBody); }
      if "content-type" !in head.fields { return Err("Request with body is missing Content-Type header."); }
      var kind, text := head.fields["content-type"], BodyText(view, length.value);
      if "application/json" <= kind {
        return if isJson(text) then Ok(Json(text)) else Err("JSON parse error");
      }
      if !("multipart/form-data" <= kind) { return Err("Unsupported Content-Type"); }
      var boundary := Boundary(kind);
      if boundary.None? { return Err("Malformed multipart/form-data: boundary not found."); }
      var form := Multipart.ParseForm(text, boundary.value);
      return Ok(FormData(form));
    }

    /** A request is stored exactly when `eof` says yes and its line, headers and body
        announcement are allowed; method, path, header map and body are then those of
        the bytes. */
    method Finalize(isJson: string -> bool) returns (result: Result<Request>)
      requires Exact(State())
      modifies this
      ensures old(request).Some? ==> result == Ok(old(request).value) && State() == old(State())
      ensures old(request).None? ==>
        && State() == Asked(old(State()))
        && result == if Complete(old(State())) then Finalized(view, isJson)
                     else Err("Attempted to finalize before request reached eof().")
      ensures request == if result.Ok? then Some(result.value) else None
      ensures old(request).None? && result.Ok? ==>
        && Ready(view) && AcceptableLine(RequestLine(view)) && Headers.Acceptable(Split(HeaderText(view), CRLF))
        && result.value.head.path == Split(RequestLine(view), " ")[1]
        && MethodOfLine(RequestLine(view), result.value.head.verb)
        && Headers.FindsFirst(result.value.head.fields, Split(HeaderText(view), CRLF))
        && AllowedBody(view, result.value.head, isJson) && StoresBody(view, result.value.head, result.value.body)
    {
      if request.Some? { return Ok(request.value); }
      AskedExact(State());
      var complete := Eof();
      if !complete { return Err("Attempted to finalize before request reached eof()."); }
      HeadMeaning(view);
      FinalizedMeaning(view, isJson);
      var head := ReadHead();
      if head.Err? { return Err(head.message); }
      var body := ReadBody(head.value, isJson);
      if body.Err? { return Err(body.message); }
      result := Ok(Request(head.value, body.value));
      request := Some(result.value);
    }
  }
}
