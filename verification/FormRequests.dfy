/** Form requests from the client's rendering to the form the handler gets, and
    what the reactor's early `finalize` makes of a body still on its way. */
module FormRequests {

  import opened Common
  import opened Decimals
  import opened Text
  import opened RequestParsers
  import opened ReadEvents
  import C = CutForms
  import Headers
  import Multipart
  import M = MultipartRoundTrip
  import S = SocketBuffers

  const FORM_PREFIX := "multipart/form-data; "

  function Parameter(boundary: string, quoted: bool): string {
    if quoted then "\"" + boundary + "\"" else boundary
  }

  function FormType(boundary: string, quoted: bool): string {
    FORM_PREFIX + ("boundary=" + Parameter(boundary, quoted))
  }

  // ------------------------------------------------------- the content type

  /** Text without the letter the key starts with can stand in front of it. */
  lemma KeyBehind(before: string, key: string, value: string)
    requires key != "" && Lacks(before, key[0])
    ensures Find(before + (key + value), key) == |before|
  {
    var s := before + (key + value);
    assert s[|before|..|before| + |key|] == key;
    forall k | 0 <= k < |before| ensures !Occurs(s, key, k) { Differs(s, key, k, 0); }
    FindIs(s, key, |before|);
  }

  lemma BoundaryAt(before: string, value: string)
    requires Lacks(before, 'b')
    ensures var kind := before + ("boundary=" + value);
            Find(kind, "boundary=") == |before| && |before| + 9 <= |kind| && kind[|before| + 9..] == value
  {
    KeyBehind(before, "boundary=", value);
  }

  lemma StripQuotes(text: string)
    requires text != ""
    ensures var value := "\"" + text + "\"";
            && value != "" && value[0] == '"' && value[1..] == text + "\"" && |value[1..]| == |text| + 1
            && value[1..][|text|] == '"' && value[1..][..|text|] == text
  {
  }

  lemma ParameterStripped(boundary: string, quoted: bool)
    requires boundary != "" && Lacks(boundary, '"')
    ensures var value := Parameter(boundary, quoted);
            var open := if value != "" && value[0] == '"' then value[1..] else value;
            open != "" && (if open[|open| - 1] == '"' then open[..|open| - 1] else open) == boundary
  {
    if quoted {
      StripQuotes(boundary);
    } else {
      assert boundary[0] != '"' && boundary[|boundary| - 1] != '"';
    }
  }

  lemma PrefixLacksB()
    ensures Lacks(FORM_PREFIX, 'b')
  {
  }

  /** The boundary parameter comes back, quoted or not. */
  lemma BoundaryRoundTrip(boundary: string, quoted: bool)
    requires boundary != "" && Lacks(boundary, '"')
    ensures Boundary(FormType(boundary, quoted)) == Some(boundary)
  {
    PrefixLacksB();
    BoundaryAt(FORM_PREFIX, Parameter(boundary, quoted));
    ParameterStripped(boundary, quoted);
  }

  lemma FormTypeIsForm(boundary: string, quoted: bool)
    ensures var kind := FormType(boundary, quoted);
            !("application/json" <= kind) && "multipart/form-data" <= kind
  {
    var kind := FormType(boundary, quoted);
    assert kind[0] == 'm' && "application/json"[0] == 'a';
    assert kind[..|FORM_PREFIX|] == FORM_PREFIX;
    assert kind[..19] == FORM_PREFIX[..19] == "multipart/form-data";
  }

  // ---------------------------------------------------------- the request head

  function RequestLineOf(path: string): string {
    "POST" + " " + (path + " " + "HTTP/1.1")
  }

  function HeaderLine(name: string, value: string): string {
    name + ":" + (" " + value)
  }

  function HeadLines(host: string, boundary: string, quoted: bool, length: nat): seq<string> {
    [HeaderLine("Host", host), HeaderLine("Content-Type", FormType(boundary, quoted)),
     HeaderLine("Content-Length", Decimal(length))]
  }

  /** Request line and headers as section 5 of RFC 9112 has them. */
  function RenderedHead(path: string, host: string, boundary: string, quoted: bool, length: nat): string {
    RequestLineOf(path) + CRLF + JoinLines(HeadLines(host, boundary, quoted, length)) + BLANK_LINE
  }

  predicate SendablePath(path: string) {
    ParseUri(path).Ok? && Lacks(path, ' ')
  }

  /** A value that trimming leaves alone. */
  predicate SendableValue(value: string) {
    value != "" && OneLine(value) && !IsBlank(value[0]) && !IsBlank(value[|value| - 1])
  }

  /** Section 5.1.1 of RFC 2046: one line, no quote, no blank at the end. */
  predicate SendableBoundary(boundary: string) {
    M.UsableBoundary(boundary) && Lacks(boundary, '"') && !IsBlank(boundary[|boundary| - 1])
  }

  lemma ThreeWords(a: string, b: string, c: string)
    requires Lacks(a, ' ') && Lacks(b, ' ') && Lacks(c, ' ') && b != "" && c != ""
    ensures var line := a + " " + (b + " " + c);
            Split(line, " ") == [a, b, c] && Find(line, " ") == |a| && line[..|a|] == a
  {
    var tail := b + " " + c;
    FindChar(a, ' ', tail);
    assert a + " " + tail == a + [' '] + tail;
    FindChar(b, ' ', c);
    assert tail == b + [' '] + c;
    forall k: nat | k < |c| ensures !Occurs(c, " ", k) { Differs(c, " ", k, 0); }
    FindNone(c, " ");
    SplitOne(c, " ");
    SplitStep(b, " ", c);
    SplitStep(a, " ", tail);
  }

  lemma PathIsOneLine(path: string)
    requires SendablePath(path)
    ensures path != "" && OneLine(path)
  {
    PathChecks(path);
  }

  lemma RequestLineMeaning(path: string)
    requires SendablePath(path)
    ensures var line := RequestLineOf(path);
            line != "" && OneLine(line) && MethodOf(line) == Post && ParseRequestLine(line) == Ok(path)
  {
    PathIsOneLine(path);
    OneLineJoins(path, " ");
    OneLineJoins(path + " ", "HTTP/1.1");
    OneLineJoins("POST" + " ", path + " " + "HTTP/1.1");
    ThreeWords("POST", path, "HTTP/1.1");
    PathChecks(path);
  }

  lemma LineParts(name: string, value: string)
    requires Lacks(name, ':') && SendableValue(value)
    ensures var line := HeaderLine(name, value);
            && Headers.HasColon(line) && Headers.Key(line) == name && Headers.FieldValue(line) == value
            && Headers.Name(line) == LowerAll(name)
  {
    var line, rest := HeaderLine(name, value), " " + value;
    FindChar(name, ':', rest);
    assert line == name + [':'] + rest;
    assert line[..|name|] == name && line[|name| + 1..] == rest;
    TrimExact(" ", value, "");
    assert " " + value + "" == rest;
  }

  /** A line with a token name and a clean value, not Transfer-Encoding, is taken. */
  lemma GoodLine(name: string, value: string, lower: string)
    requires SendableValue(value) && Headers.IsToken(name) && OneLine(name) && Lacks(name, ':')
    requires LowerAll(name) == lower && lower != "transfer-encoding"
    ensures var line := HeaderLine(name, value);
            && line != "" && OneLine(line) && Headers.WellFormed(line)
            && Headers.Name(line) == lower && Headers.FieldValue(line) == value
  {
    LineParts(name, value);
    OneLineJoins(" ", value);
    OneLineJoins(name, ":");
    OneLineJoins(name + ":", " " + value);
  }

  lemma NewLine(fields: map<string, string>, line: string)
    requires line != "" && Headers.WellFormed(line) && |fields| < Headers.MAX_HEADERS && Headers.Name(line) !in fields
    ensures Headers.AddLine(fields, line)
            == Headers.Accepted(fields[Headers.Name(line) := Headers.FieldValue(line)])
  {
    Headers.CiEqualLiterals(line);
  }

  lemma ThreeNewLines(a: string, b: string, c: string)
    requires a != "" && Headers.WellFormed(a) && b != "" && Headers.WellFormed(b) && c != "" && Headers.WellFormed(c)
    requires Headers.Name(a) != Headers.Name(b) && Headers.Name(a) != Headers.Name(c)
    requires Headers.Name(b) != Headers.Name(c)
    ensures Headers.AddLines([a, b, c])
            == Headers.Accepted(map[Headers.Name(a) := Headers.FieldValue(a), Headers.Name(b) := Headers.FieldValue(b),
                                    Headers.Name(c) := Headers.FieldValue(c)])
  {
    var one := map[Headers.Name(a) := Headers.FieldValue(a)];
    var two := one[Headers.Name(b) := Headers.FieldValue(b)];
    NewLine(map[], a);
    NewLine(one, b);
    NewLine(two, c);
    assert [a][..0] == [] && [a, b][..1] == [a] && [a, b, c][..2] == [a, b];
    assert Headers.AddLines([a]) == Headers.Accepted(one);
    assert Headers.AddLines([a, b]) == Headers.Accepted(two);
  }

  lemma HostName()
    ensures Headers.IsToken("Host") && OneLine("Host") && Lacks("Host", ':') && LowerAll("Host") == "host"
  {
    assert LowerAll("Host") == "host";
  }

  lemma TypeName()
    ensures Headers.IsToken("Content-Type") && OneLine("Content-Type") && Lacks("Content-Type", ':')
    ensures LowerAll("Content-Type") == "content-type"
  {
    assert LowerAll("Content-Type") == "content-type";
  }

  lemma LengthName()
    ensures Headers.IsToken("Content-Length") && OneLine("Content-Length") && Lacks("Content-Length", ':')
    ensures LowerAll("Content-Length") == "content-length"
  {
    assert LowerAll("Content-Length") == "content-length";
  }

  lemma TypeIsValue(boundary: string, quoted: bool)
    requires SendableBoundary(boundary)
    ensures SendableValue(FormType(boundary, quoted))
  {
    var value, kind := Parameter(boundary, quoted), FormType(boundary, quoted);
    assert kind[0] == FORM_PREFIX[0] && kind[|kind| - 1] == value[|value| - 1];
  }

  lemma DigitsAreValue(s: string)
    requires s != "" && AllDigits(s)
    ensures SendableValue(s)
  {
    assert forall i :: 0 <= i < |s| ==> IsDigit(s[i]);
  }

  /** The three header lines and the map they give. */
  lemma HeadLinesMeaning(host: string, boundary: string, quoted: bool, length: nat)
    requires SendableValue(host) && SendableBoundary(boundary)
    ensures var lines := HeadLines(host, boundary, quoted, length);
            && AreLines(lines)
            && Headers.AddLines(lines)
               == Headers.Accepted(map["host" := host, "content-type" := FormType(boundary, quoted),
                                       "content-length" := Decimal(length)])
  {
    var kind, digits := FormType(boundary, quoted), Decimal(length);
    TypeIsValue(boundary, quoted);
    DigitsAreValue(digits);
    ThreeGoodLines(host, kind, digits);
  }

  predicate Gives(line: string, name: string, value: string) {
    && line != "" && OneLine(line) && Headers.WellFormed(line)
    && Headers.Name(line) == name && Headers.FieldValue(line) == value
  }

  lemma HostLine(host: string)
    requires SendableValue(host)
    ensures Gives(HeaderLine("Host", host), "host", host)
  {
    HostName();
    GoodLine("Host", host, "host");
  }

  lemma TypeLine(kind: string)
    requires SendableValue(kind)
    ensures Gives(HeaderLine("Content-Type", kind), "content-type", kind)
  {
    TypeName();
    GoodLine("Content-Type", kind, "content-type");
  }

  lemma LengthLine(digits: string)
    requires SendableValue(digits)
    ensures Gives(HeaderLine("Content-Length", digits), "content-length", digits)
  {
    LengthName();
    GoodLine("Content-Length", digits, "content-length");
  }

  lemma GivenLines(a: string, b: string, c: string, x: string, y: string, z: string, u: string, v: string, w: string)
    requires Gives(a, x, u) && Gives(b, y, v) && Gives(c, z, w) && x != y && x != z && y != z
    ensures AreLines([a, b, c]) && Headers.AddLines([a, b, c]) == Headers.Accepted(map[x := u, y := v, z := w])
  {
    ThreeNewLines(a, b, c);
  }

  lemma ThreeGoodLines(host: string, kind: string, digits: string)
    requires SendableValue(host) && SendableValue(kind) && SendableValue(digits)
    ensures var lines := [HeaderLine("Host", host), HeaderLine("Content-Type", kind),
                          HeaderLine("Content-Length", digits)];
            && AreLines(lines)
            && Headers.AddLines(lines)
               == Headers.Accepted(map["host" := host, "content-type" := kind, "content-length" := digits])
  {
    HostLine(host);
    TypeLine(kind);
    LengthLine(digits);
    NamesDiffer();
    GivenLines(HeaderLine("Host", host), HeaderLine("Content-Type", kind), HeaderLine("Content-Length", digits),
               "host", "content-type", "content-length", host, kind, digits);
  }

  lemma NamesDiffer()
    ensures "host" != "content-type" && "host" != "content-length" && "content-type" != "content-length"
  {
    assert "host"[0] == 'h' && "content-type"[0] == 'c' && "content-length"[0] == 'c';
    assert "content-type"[8] == 't' && "content-length"[8] == 'l';
  }

  /** Where the pieces of `line CRLF lines BLANK_LINE rest` are. */
  lemma PiecesAt(line: string, lines: string, rest: string)
    ensures var view := line + CRLF + lines + BLANK_LINE + rest;
            && view[..|line|] == line
            && view[|line| + 2..|line| + 2 + |lines|] == lines
            && view == line + CRLF + (lines + BLANK_LINE + rest)
  {
  }

  lemma BreaksAt(line: string, lines: seq<string>, rest: string)
    requires OneLine(line) && lines != [] && AreLines(lines)
    ensures var text := JoinLines(lines);
            var view := line + CRLF + text + BLANK_LINE + rest;
            Find(view, CRLF) == |line| && Find(view, BLANK_LINE) == |line| + 2 + |text|
  {
    var tail := JoinLines(lines) + BLANK_LINE + rest;
    PiecesAt(line, JoinLines(lines), rest);
    NoBreakInside(line, CRLF, tail);
    BlankBehindLines(lines, rest);
    JoinedStart(lines);
    assert tail[0] == JoinLines(lines)[0];
    BlankBehindLine(line, tail, |JoinLines(lines)|);
  }

  lemma HeadFound(view: string, line: string, lines: string)
    requires line != "" && |view| >= |line| + 2 + |lines| + 4
    requires Find(view, CRLF) == |line| && Find(view, BLANK_LINE) == |line| + 2 + |lines|
    requires view[..|line|] == line && view[|line| + 2..|line| + 2 + |lines|] == lines
    ensures Ready(view) && HeaderEnd(view) == Some(|line| + 2 + |lines| + 4)
    ensures RequestLine(view) == line && HeaderText(view) == lines
  {
  }

  lemma HeadSplits(line: string, lines: seq<string>, rest: string)
    requires line != "" && OneLine(line) && lines != [] && AreLines(lines)
    ensures var head := line + CRLF + JoinLines(lines) + BLANK_LINE;
            && Ready(head + rest) && HeaderEnd(head + rest) == Some(|head|) && RequestLine(head + rest) == line
            && Split(HeaderText(head + rest), CRLF) == lines
  {
    var text := JoinLines(lines);
    BreaksAt(line, lines, rest);
    PiecesAt(line, text, rest);
    HeadFound(line + CRLF + text + BLANK_LINE + rest, line, text);
    SplitJoined(lines);
  }

  lemma HeadFrom(view: string, path: string, lines: seq<string>, fields: map<string, string>)
    requires Ready(view) && MethodOf(RequestLine(view)) == Post && ParseRequestLine(RequestLine(view)) == Ok(path)
    requires Split(HeaderText(view), CRLF) == lines && Headers.AddLines(lines) == Headers.Accepted(fields)
    ensures ParseHead(view) == Ok(Head(Post, path, fields))
  {
  }

  /** The head announces a form of this length to this path. */
  predicate AnnouncesForm(view: string, path: string, boundary: string, quoted: bool, length: nat) {
    && Ready(view) && Spaced(view) && ParseHead(view).Ok?
    && var head := ParseHead(view).value;
       && head.verb == Post && head.path == path
       && "content-type" in head.fields && head.fields["content-type"] == FormType(boundary, quoted)
       && ContentLength(head.fields) == Some(length)
  }

  lemma LengthFrom(fields: map<string, string>, n: nat)
    requires n < SIZE_LIMIT && "content-length" in fields && fields["content-length"] == Decimal(n)
    ensures ContentLength(fields) == Some(n)
  {
    DecimalMeaning(n);
  }

  lemma AcceptedLineIsSpaced(view: string)
    requires Ready(view) && ParseHead(view).Ok?
    ensures Spaced(view)
  {
    HeadMeaning(view);
  }

  lemma AnnouncesFrom(view: string, path: string, host: string, boundary: string, quoted: bool, length: nat)
    requires Ready(view) && length < SIZE_LIMIT
    requires ParseHead(view) == Ok(Head(Post, path, map["host" := host, "content-type" := FormType(boundary, quoted),
                                                        "content-length" := Decimal(length)]))
    ensures AnnouncesForm(view, path, boundary, quoted, length)
  {
    LengthFrom(ParseHead(view).value.fields, length);
    AcceptedLineIsSpaced(view);
  }

  /** A rendered head parses to what was put in, whatever follows it. */
  lemma RenderedHeadAnnounces(path: string, host: string, boundary: string, quoted: bool, length: nat, rest: string)
    requires SendablePath(path) && SendableValue(host) && SendableBoundary(boundary) && length < SIZE_LIMIT
    ensures var head := RenderedHead(path, host, boundary, quoted, length);
            AnnouncesForm(head + rest, path, boundary, quoted, length) && HeadEndsAt(head + rest, |head|)
  {
    var lines := HeadLines(host, boundary, quoted, length);
    var view := RenderedHead(path, host, boundary, quoted, length) + rest;
    RequestLineMeaning(path);
    HeadLinesMeaning(host, boundary, quoted, length);
    HeadSplits(RequestLineOf(path), lines, rest);
    HeadFrom(view, path, lines, map["host" := host, "content-type" := FormType(boundary, quoted),
                                    "content-length" := Decimal(length)]);
    AnnouncesFrom(view, path, host, boundary, quoted, length);
  }

  // -------------------------------------------------------------- the body

  /** What `finalize` hands on: this path and this form. */
  predicate Hands(view: string, isJson: string -> bool, path: string, form: Multipart.Form) {
    && Ready(view)
    && var result := Finalized(view, isJson);
       && result.Ok? && result.value.head.verb == Post && result.value.head.path == path
       && result.value.body == FormData(form)
  }

  /** `finalize` reads the announced number of bytes, or as many as are there. */
  lemma FormFromBody(view: string, path: string, boundary: string, quoted: bool, length: nat, isJson: string -> bool)
    requires SendableBoundary(boundary) && 0 < length && AnnouncesForm(view, path, boundary, quoted, length)
    ensures Hands(view, isJson, path, Multipart.Parsed(BodyText(view, length), boundary))
  {
    BoundaryRoundTrip(boundary, quoted);
    FormTypeIsForm(boundary, quoted);
  }

  /** The body text is the announced bytes that are there. */
  lemma BodySoFar(head: string, body: string, extra: string, n: nat)
    requires |head| <= n <= |head + body + extra|
    requires var view := (head + body + extra)[..n]; HeaderEnd(view) == Some(|head|)
    ensures BodyText((head + body + extra)[..n], |body|) == C.Take(body, n - |head|)
  {
    var m := n - |head|;
    PrefixBehind(head, body + extra, m);
    assert head + body + extra == head + (body + extra);
    if m < |body| {
      assert (body + extra)[..m] == body[..m];
    } else {
      assert (body + extra)[..m][..|body|] == body && body[..|body|] == body;
      assert (head + (body + extra)[..m])[|head|..|head| + |body|] == (body + extra)[..m][..|body|];
    }
  }

  lemma PrefixBehind(head: string, rest: string, m: nat)
    requires m <= |rest|
    ensures (head + rest)[..|head| + m] == head + rest[..m] && (head + rest[..m])[|head|..] == rest[..m]
  {
  }

  /** The body a handler sees is the one announced exactly when all of it was there. */
  lemma BodyIsWhole(head: string, body: string, extra: string, n: nat)
    requires |head| <= n <= |head + body + extra|
    requires var view := (head + body + extra)[..n]; HeaderEnd(view) == Some(|head|)
    ensures BodyText((head + body + extra)[..n], |body|) == body <==> n >= |head| + |body|
  {
    BodySoFar(head, body, extra, n);
  }

  // ------------------------------------------------- a client and the reactor

  /** A form request as a client renders it, and what may follow it. */
  datatype FormRequest = FormRequest(
    path: string, host: string, parts: seq<M.Part>, boundary: string, quoted: bool,
    preamble: string, epilogue: string, extra: string)

  function BodyOf(q: FormRequest): (body: string)
    ensures body != ""
  {
    q.preamble + M.RenderedBody(q.parts, q.boundary, q.epilogue)
  }

  function HeadOf(q: FormRequest): string {
    RenderedHead(q.path, q.host, q.boundary, q.quoted, |BodyOf(q)|)
  }

  /** All the bytes. */
  function Sent(q: FormRequest): string {
    HeadOf(q) + BodyOf(q) + q.extra
  }

  predicate Sendable(q: FormRequest) {
    && SendablePath(q.path) && SendableValue(q.host) && SendableBoundary(q.boundary)
    && C.SendableForm(q.parts, q.boundary, q.preamble, q.epilogue)
    && |BodyOf(q)| < SIZE_LIMIT
  }

  /** The form read from the first `m` bytes of the body. */
  function BodyForm(q: FormRequest, m: nat): Multipart.Form {
    Multipart.Parsed(C.Take(BodyOf(q), m), q.boundary)
  }

  /** The form read from the first `n` bytes of the request. */
  function FormAt(q: FormRequest, n: nat): Multipart.Form
    requires |HeadOf(q)| <= n
  {
    BodyForm(q, n - |HeadOf(q)|)
  }

  lemma SentHeadEnds(q: FormRequest)
    requires Sendable(q)
    ensures HeadEndsAt(Sent(q), |HeadOf(q)|)
  {
    RenderedHeadAnnounces(q.path, q.host, q.boundary, q.quoted, |BodyOf(q)|, BodyOf(q) + q.extra);
    Regrouped(HeadOf(q), BodyOf(q), q.extra);
  }

  lemma Regrouped(head: string, body: string, extra: string)
    ensures head + body + extra == head + (body + extra)
  {
  }

  /** `finalize` on any prefix that holds the head hands on the form of that prefix. */
  lemma PrefixHands(q: FormRequest, n: nat, isJson: string -> bool)
    requires Sendable(q) && |HeadOf(q)| <= n <= |Sent(q)|
    ensures Hands(Sent(q)[..n], isJson, q.path, FormAt(q, n))
  {
    var head, view := HeadOf(q), Sent(q)[..n];
    PrefixAnnounces(q, n);
    BodySoFar(head, BodyOf(q), q.extra, n);
    FormFromBody(view, q.path, q.boundary, q.quoted, |BodyOf(q)|, isJson);
  }

  lemma PrefixAnnounces(q: FormRequest, n: nat)
    requires Sendable(q) && |HeadOf(q)| <= n <= |Sent(q)|
    ensures AnnouncesForm(Sent(q)[..n], q.path, q.boundary, q.quoted, |BodyOf(q)|)
    ensures HeaderEnd(Sent(q)[..n]) == Some(|HeadOf(q)|)
  {
    var rest := Sent(q)[..n][|HeadOf(q)|..];
    PrefixSplits(HeadOf(q), BodyOf(q), q.extra, n);
    RenderedHeadAnnounces(q.path, q.host, q.boundary, q.quoted, |BodyOf(q)|, rest);
  }

  lemma PrefixSplits(head: string, body: string, extra: string, n: nat)
    requires |head| <= n <= |head + body + extra|
    ensures (head + body + extra)[..n] == head + (head + body + extra)[..n][|head|..]
  {
  }

  /** The reactor finalizes on the first `n` bytes and hands on their form. */
  predicate ServedAt(q: FormRequest, events: seq<ReadEvent>, limit: nat, isJson: string -> bool, n: nat) {
    && |HeadOf(q)| <= n <= |Sent(q)|
    && Serve(FRESH_READER, events, limit) == Finalizing(Sent(q)[..n])
    && Hands(Sent(q)[..n], isJson, q.path, FormAt(q, n))
  }

  /** Whatever reads bring the bytes of a form request, unless the connection is
      closed the handler gets the form of exactly what has arrived at the end of
      the first read event that reaches the header end. */
  lemma HandlerGetsWhatArrived(q: FormRequest, events: seq<ReadEvent>, limit: nat, isJson: string -> bool)
    requires Sendable(q) && Arrived(events) <= Sent(q) && Serve(FRESH_READER, events, limit) != Closed
    ensures match FirstReaching(0, events, |HeadOf(q)|)
            case None => Serve(FRESH_READER, events, limit).Waiting?
            case Some(n) => ServedAt(q, events, limit, isJson, n)
  {
    SentHeadEnds(q);
    assert "" + Arrived(events) == Arrived(events);
    ServeMeaning(FRESH_READER, events, limit, Sent(q), |HeadOf(q)|);
    FirstReachingMeaning(0, events, |HeadOf(q)|);
    if FirstReaching(0, events, |HeadOf(q)|).Some? {
      PrefixHands(q, FirstReaching(0, events, |HeadOf(q)|).value, isJson);
    }
  }

  lemma {:induction false} FirstReachingMeaning(before: nat, events: seq<ReadEvent>, end: nat)
    ensures var n := FirstReaching(before, events, end);
            && (n.Some? ==> end <= n.value <= before + |Arrived(events)|)
            && (n.None? ==> events == [] || before + |Arrived(events)| < end)
    decreases |events|
  {
    if events != [] { FirstReachingMeaning(before + |ReadEvents.Joined(events[0].chunks)|, events[1..], end); }
  }

  lemma BodyFormMeaning(q: FormRequest, m: nat)
    requires Sendable(q)
    ensures BodyForm(q, m) == C.CutForm(q.parts, q.boundary, q.preamble, q.epilogue, m)
  {
    C.CutMeaning(q.parts, q.boundary, q.preamble, q.epilogue, m);
  }

  /** The form at any byte behind the head: the parts before it, and as much of the
      part it falls in as is there. */
  lemma FormAtMeaning(q: FormRequest, n: nat)
    requires Sendable(q) && |HeadOf(q)| <= n
    ensures FormAt(q, n) == C.CutForm(q.parts, q.boundary, q.preamble, q.epilogue, n - |HeadOf(q)|)
  {
    BodyFormMeaning(q, n - |HeadOf(q)|);
  }

  /** So much of the body is there that the client's parts can be read. */
  predicate EnoughAt(q: FormRequest, n: nat)
    requires |HeadOf(q)| <= n
  {
    C.Enough(q.parts, q.boundary, q.preamble, q.epilogue, n - |HeadOf(q)|)
  }

  lemma PartsRecoveredExactly(q: FormRequest, n: nat)
    requires Sendable(q) && |HeadOf(q)| <= n
    ensures M.Recovers(FormAt(q, n), q.parts) <==> EnoughAt(q, n)
  {
    C.RecoveredExactly(q.parts, q.boundary, q.preamble, q.epilogue, n - |HeadOf(q)|);
  }

  /** Whatever reads bring the bytes of a form request, unless the connection is
      closed the handler gets the client's parts exactly when enough of the body has
      arrived at the end of the first read event that reaches the header end. */
  lemma PartsArriveExactly(q: FormRequest, events: seq<ReadEvent>, limit: nat, isJson: string -> bool, n: nat)
    requires Sendable(q) && Arrived(events) <= Sent(q) && Serve(FRESH_READER, events, limit) != Closed
    requires FirstReaching(0, events, |HeadOf(q)|) == Some(n)
    ensures ServedAt(q, events, limit, isJson, n)
    ensures M.Recovers(FormAt(q, n), q.parts) <==> EnoughAt(q, n)
  {
    HandlerGetsWhatArrived(q, events, limit, isJson);
    PartsRecoveredExactly(q, n);
  }

  lemma WholeBodyForm(q: FormRequest, m: nat)
    requires Sendable(q) && |BodyOf(q)| <= m
    ensures M.Recovers(BodyForm(q, m), q.parts) <==> !M.EpilogueAdds(q.parts, q.epilogue)
  {
    WholeForm(BodyOf(q), q.boundary, m);
    M.MultipartRoundTrip(q.parts, q.boundary, q.preamble, q.epilogue);
  }

  lemma WholeForm(body: string, boundary: string, m: nat)
    requires |body| <= m
    ensures Multipart.Parsed(C.Take(body, m), boundary) == Multipart.Parsed(body, boundary)
  {
    assert body[..|body|] == body;
  }

  /** If the announced body was there at that moment, the handler gets the parts the
      client rendered, unless the epilogue reads as one more. */
  lemma PartsRecoveredWhenArrived(q: FormRequest, n: nat)
    requires Sendable(q) && |HeadOf(q)| + |BodyOf(q)| <= n
    ensures M.Recovers(FormAt(q, n), q.parts) <==> !M.EpilogueAdds(q.parts, q.epilogue)
  {
    hide M.Recovers, M.EpilogueAdds, Multipart.Parsed;
    WholeBodyForm(q, n - |HeadOf(q)|);
  }

  lemma EarlyBodyForm(q: FormRequest, m: nat)
    requires Sendable(q) && q.parts != [] && m <= C.ContentAt(q.parts, q.boundary, q.preamble, 0)
    ensures BodyForm(q, m) == C.NO_FORM
  {
    C.EarlyCutReadsNothing(q.parts, q.boundary, q.preamble, q.epilogue, m);
  }

  /** If no byte of the content of the first part had arrived, the handler gets an
      empty form: every part is lost. */
  lemma PartsLostWhenEarly(q: FormRequest, n: nat)
    requires Sendable(q) && q.parts != [] && |HeadOf(q)| <= n
    requires n - |HeadOf(q)| <= C.ContentAt(q.parts, q.boundary, q.preamble, 0)
    ensures FormAt(q, n) == C.NO_FORM && !M.Recovers(FormAt(q, n), q.parts)
  {
    var m := n - |HeadOf(q)|;
    assert BodyForm(q, m) == C.NO_FORM by { EarlyBodyForm(q, m); }
    assert !M.Recovers(C.NO_FORM, q.parts) by { C.NoFormRecovers(q.parts); }
  }

  /** A read event that brings the first `n` bytes, the head among them, is answered at once. */
  lemma PrefixIsFinalized(q: FormRequest, chunks: seq<string>, limit: nat, n: nat)
    requires Sendable(q) && |HeadOf(q)| <= n <= |Sent(q)| && ReadEvents.Joined(chunks) == Sent(q)[..n]
    requires ChunksFit(S.FRESH_SHAPE, chunks, limit) && S.Safe(n, limit)
    ensures OnReadEvent(FRESH_READER, ReadEvent(chunks, false), limit) == Finalizing(Sent(q)[..n])
  {
    SentHeadEnds(q);
    FirstEventFinalizes(chunks, limit, Sent(q), |HeadOf(q)|, n);
  }

  lemma FirstEventFinalizes(chunks: seq<string>, limit: nat, full: string, end: nat, n: nat)
    requires HeadEndsAt(full, end) && end <= n <= |full| && ReadEvents.Joined(chunks) == full[..n]
    requires ChunksFit(S.FRESH_SHAPE, chunks, limit) && S.Safe(n, limit)
    ensures OnReadEvent(FRESH_READER, ReadEvent(chunks, false), limit) == Finalizing(full[..n])
  {
    SafeChunksPass(FRESH_READER, chunks, limit);
    assert "" + full[..n] == full[..n];
    EventMeaning(FRESH_READER, ReadEvent(chunks, false), limit, full, end);
  }

  lemma FirstEventDecides(e: ReadEvent, later: seq<ReadEvent>, limit: nat)
    requires !OnReadEvent(FRESH_READER, e, limit).Waiting?
    ensures Serve(FRESH_READER, [e] + later, limit) == OnReadEvent(FRESH_READER, e, limit)
  {
  }

  /** One read event that ends at byte `n` settles what the handler gets.  `chunks` is any
      way in which the kernel hands out those bytes, `later` whatever comes after. */
  lemma OneEventDecides(q: FormRequest, chunks: seq<string>, later: seq<ReadEvent>, limit: nat,
                        isJson: string -> bool, n: nat)
    requires Sendable(q) && |HeadOf(q)| <= n <= |Sent(q)| && ReadEvents.Joined(chunks) == Sent(q)[..n]
    requires ChunksFit(S.FRESH_SHAPE, chunks, limit) && S.Safe(n, limit)
    ensures ServedAt(q, [ReadEvent(chunks, false)] + later, limit, isJson, n)
  {
    PrefixIsFinalized(q, chunks, limit, n);
    FirstEventDecides(ReadEvent(chunks, false), later, limit);
    PrefixHands(q, n, isJson);
  }

  /** Every form request with at least one part can lose them all: it is enough that
      one read event ends behind the blank line. */
  lemma HeadFirstLosesParts(q: FormRequest, chunks: seq<string>, later: seq<ReadEvent>, limit: nat,
                            isJson: string -> bool)
    requires Sendable(q) && q.parts != [] && ReadEvents.Joined(chunks) == HeadOf(q)
    requires ChunksFit(S.FRESH_SHAPE, chunks, limit) && S.Safe(|HeadOf(q)|, limit)
    ensures ServedAt(q, [ReadEvent(chunks, false)] + later, limit, isJson, |HeadOf(q)|)
    ensures FormAt(q, |HeadOf(q)|) == C.NO_FORM && !M.Recovers(C.NO_FORM, q.parts)
  {
    HeadIsPrefix(HeadOf(q), BodyOf(q), q.extra);
    OneEventDecides(q, chunks, later, limit, isJson, |HeadOf(q)|);
    PartsLostWhenEarly(q, |HeadOf(q)|);
  }

  lemma HeadIsPrefix(head: string, body: string, extra: string)
    ensures (head + body + extra)[..|head|] == head
  {
  }

  /** The part the bytes end in is truncated, and stored like the others. */
  ghost predicate Truncates(q: FormRequest, k: nat, c: nat, form: Multipart.Form)
    requires k < |q.parts| && c <= |q.parts[k].content|
  {
    form == Multipart.Store(M.Stored(C.NO_FORM, q.parts[..k]), M.HeadersOf(q.parts[k]), q.parts[k].content[..c])
  }

  lemma TruncatedBodyForm(q: FormRequest, k: nat, c: nat, m: nat)
    requires Sendable(q) && k < |q.parts| && 0 < c <= |q.parts[k].content|
    requires m == C.ContentAt(q.parts, q.boundary, q.preamble, k) + c && !C.EndsInBreak(q.parts[k].content[..c])
    ensures Truncates(q, k, c, BodyForm(q, m))
  {
    hide BodyForm, C.CutForm, C.ContentAt, C.EndsInBreak, M.HeadersOf, M.Stored, Multipart.Store;
    BodyFormMeaning(q, m);
    C.TruncatedIsStored(q.parts, q.boundary, q.preamble, q.epilogue, k, c);
  }

  lemma FormAtBehind(q: FormRequest, head: nat, m: nat)
    requires head == |HeadOf(q)|
    ensures FormAt(q, head + m) == BodyForm(q, m)
  {
  }

  /** Every part can be truncated: if a read event ends `c` bytes into its content, not
      behind a line end, the request is accepted and the handler takes those bytes for
      the whole content.  `m` is how much of the body that event has brought. */
  lemma TruncatedPartIsAccepted(q: FormRequest, k: nat, c: nat, m: nat, chunks: seq<string>, later: seq<ReadEvent>,
                                limit: nat, isJson: string -> bool)
    requires Sendable(q) && k < |q.parts| && 0 < c <= |q.parts[k].content|
    requires m == C.ContentAt(q.parts, q.boundary, q.preamble, k) + c && !C.EndsInBreak(q.parts[k].content[..c])
    requires |HeadOf(q)| + m <= |Sent(q)| && ReadEvents.Joined(chunks) == Sent(q)[..|HeadOf(q)| + m]
    requires ChunksFit(S.FRESH_SHAPE, chunks, limit) && S.Safe(|HeadOf(q)| + m, limit)
    ensures ServedAt(q, [ReadEvent(chunks, false)] + later, limit, isJson, |HeadOf(q)| + m)
    ensures Truncates(q, k, c, FormAt(q, |HeadOf(q)| + m))
  {
    OneEventDecides(q, chunks, later, limit, isJson, |HeadOf(q)| + m);
    TruncatedBodyForm(q, k, c, m);
    FormAtBehind(q, |HeadOf(q)|, m);
  }

  /** From a client that does not hang up, a request within the safe total is served
      with all its parts when the read event that completes the head also completes
      the body, that is, when no read event ends between the two. */
  lemma FormRequestRoundTrip(q: FormRequest, events: seq<ReadEvent>, limit: nat, isJson: string -> bool)
    requires Sendable(q) && !M.EpilogueAdds(q.parts, q.epilogue)
    requires Arrived(events) <= Sent(q) && |HeadOf(q)| + |BodyOf(q)| <= |Arrived(events)|
    requires EventsFit(FRESH_READER, events, limit) && NoHangup(events) && S.Safe(|Arrived(events)|, limit)
    requires FirstReaching(0, events, |HeadOf(q)|) == FirstReaching(0, events, |HeadOf(q)| + |BodyOf(q)|)
    ensures var n := FirstReaching(0, events, |HeadOf(q)|);
            && n.Some? && ServedAt(q, events, limit, isJson, n.value)
            && M.Recovers(FormAt(q, n.value), q.parts)
  {
    var head, all := |HeadOf(q)|, |HeadOf(q)| + |BodyOf(q)|;
    var n := FirstReaching(0, events, head);
    WholeReached(q, events);
    NeverClosed(q, events, limit);
    ServedWhole(q, events, limit, isJson, n.value);
  }

  lemma WholeReached(q: FormRequest, events: seq<ReadEvent>)
    requires |HeadOf(q)| + |BodyOf(q)| <= |Arrived(events)|
    requires FirstReaching(0, events, |HeadOf(q)|) == FirstReaching(0, events, |HeadOf(q)| + |BodyOf(q)|)
    ensures var n := FirstReaching(0, events, |HeadOf(q)|); n.Some? && n.value >= |HeadOf(q)| + |BodyOf(q)|
  {
    ReachesBoth(events, |HeadOf(q)|, |HeadOf(q)| + |BodyOf(q)|);
  }

  lemma ServedWhole(q: FormRequest, events: seq<ReadEvent>, limit: nat, isJson: string -> bool, n: nat)
    requires Sendable(q) && !M.EpilogueAdds(q.parts, q.epilogue)
    requires Arrived(events) <= Sent(q) && Serve(FRESH_READER, events, limit) != Closed
    requires FirstReaching(0, events, |HeadOf(q)|) == Some(n) && |HeadOf(q)| + |BodyOf(q)| <= n
    ensures ServedAt(q, events, limit, isJson, n) && M.Recovers(FormAt(q, n), q.parts)
  {
    HandlerGetsWhatArrived(q, events, limit, isJson);
    PartsRecoveredWhenArrived(q, n);
  }

  lemma ReachesBoth(events: seq<ReadEvent>, head: nat, all: nat)
    requires 0 < all <= |Arrived(events)| && FirstReaching(0, events, head) == FirstReaching(0, events, all)
    ensures FirstReaching(0, events, head).Some? && FirstReaching(0, events, head).value >= all
  {
    FirstReachingMeaning(0, events, all);
  }

  lemma NeverClosed(q: FormRequest, events: seq<ReadEvent>, limit: nat)
    requires Sendable(q) && Arrived(events) <= Sent(q)
    requires EventsFit(FRESH_READER, events, limit) && NoHangup(events) && S.Safe(|Arrived(events)|, limit)
    ensures Serve(FRESH_READER, events, limit) != Closed
  {
    SentHeadEnds(q);
    FreshServed(events, limit, Sent(q), |HeadOf(q)|);
  }

  lemma FreshServed(events: seq<ReadEvent>, limit: nat, full: string, end: nat)
    requires HeadEndsAt(full, end) && Arrived(events) <= full
    requires EventsFit(FRESH_READER, events, limit) && NoHangup(events) && S.Safe(|Arrived(events)|, limit)
    ensures Serve(FRESH_READER, events, limit) != Closed
  {
    assert "" + Arrived(events) == Arrived(events);
    SafeRequestsAreServed(FRESH_READER, events, limit, full, end);
  }
}
