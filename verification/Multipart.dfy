/** The multipart/form-data reader of the request parser.  What it makes of the forms
    that section 5.1 of RFC 2046 and section 4 of RFC 7578 let a client send is in
    MultipartRoundTrip and CutForms. */
module Multipart {

  import opened Common
  import opened Text

  // ------------------------------------------------------------ parameters

  datatype PartHeaders = PartHeaders(name: Option<string>, filename: Option<string>, contentType: Option<string>)

  const NO_HEADERS := PartHeaders(None, None, None)

  /** Strips an opening quote and, if there is one, the closing quote. */
  function Unquote(v: string): string {
    if |v| >= 2 && v[0] == '"' then
      if v[|v| - 1] == '"' then v[1..|v| - 1] else v[1..]
    else v
  }

  predicate IsSeparator(c: char) {
    c == '/' || c == '\\'
  }

  /** `sanitize_filename`: what follows the last path separator. */
  function BaseName(path: string): (base: string)
    ensures |base| <= |path| && base == path[|path| - |base|..]
    ensures forall i :: 0 <= i < |base| ==> !IsSeparator(base[i])
    ensures |base| < |path| ==> IsSeparator(path[|path| - |base| - 1])
  {
    if path == "" || IsSeparator(path[|path| - 1]) then ""
    else BaseName(path[..|path| - 1]) + [path[|path| - 1]]
  }

  /** `process_parameter`. */
  function WithParam(headers: PartHeaders, token: string): PartHeaders {
    var param := Trim(token);
    if !Contains(param, "=") then headers
    else
      var eq := Find(param, "=");
      var value := Unquote(param[eq + 1..]);
      if param[..eq] == "name" then headers.(name := Some(value))
      else if param[..eq] == "filename" then headers.(filename := Some(BaseName(value)))
      else headers
  }

  function WithParams(headers: PartHeaders, tokens: seq<string>): PartHeaders
    decreases |tokens|
  {
    if tokens == [] then headers else WithParams(WithParam(headers, tokens[0]), tokens[1..])
  }

  /** Length of the text before the first semicolon outside quotes. */
  function Break(s: string, quoted: bool): (n: nat)
    ensures n <= |s|
  {
    if s == "" then 0
    else if s[0] == '"' then 1 + Break(s[1..], !quoted)
    else if s[0] == ';' && !quoted then 0
    else 1 + Break(s[1..], quoted)
  }

  /** Whether the text ends inside quotes. */
  function Quotes(s: string, quoted: bool): bool {
    if s == "" then quoted else Quotes(s[1..], quoted != (s[0] == '"'))
  }

  /** The break is the first semicolon that no open quote covers. */
  lemma {:induction false} BreakMeaning(s: string, quoted: bool)
    ensures var n := Break(s, quoted);
            && (forall i :: 0 <= i < n && s[i] == ';' ==> Quotes(s[..i], quoted))
            && (n < |s| ==> s[n] == ';' && !Quotes(s[..n], quoted))
  {
    if s != "" && !(s[0] == ';' && !quoted) {
      var n, after := Break(s, quoted), quoted != (s[0] == '"');
      BreakMeaning(s[1..], after);
      forall i | 1 <= i <= |s| ensures Quotes(s[..i], quoted) == Quotes(s[1..][..i - 1], after) {
        assert s[..i][1..] == s[1..][..i - 1];
      }
      forall i | 0 <= i < n && s[i] == ';' ensures Quotes(s[..i], quoted) {
        if i > 0 { assert s[i] == s[1..][i - 1]; }
      }
    }
  }

  /** The pieces between the semicolons outside quotes. */
  function Tokens(s: string): seq<string>
    decreases |s|
  {
    var n := Break(s, false);
    if n == |s| then [s] else [s[..n]] + Tokens(s[n + 1..])
  }

  /** The scan stands at `i` inside the token that begins at `start`; what it still
      has to do gives the same parameters as a fresh start. */
  ghost predicate Scanning(content: string, start: nat, i: nat, inQuotes: bool,
                           headers: PartHeaders, goal: PartHeaders)
  {
    && start <= i <= |content|
    && Break(content[start..], false) == i - start + Break(content[i..], inQuotes)
    && WithParams(headers, Tokens(content[start..])) == goal
  }

  lemma Pass(content: string, start: nat, i: nat, inQuotes: bool, headers: PartHeaders, goal: PartHeaders)
    requires i < |content| && Scanning(content, start, i, inQuotes, headers, goal)
    requires content[i] == ';' ==> inQuotes
    ensures Scanning(content, start, i + 1, inQuotes != (content[i] == '"'), headers, goal)
  {
    assert content[i..][1..] == content[i + 1..];
  }

  lemma Cut(content: string, start: nat, i: nat, headers: PartHeaders, goal: PartHeaders)
    requires i < |content| && Scanning(content, start, i, false, headers, goal) && content[i] == ';'
    ensures Scanning(content, i + 1, i + 1, false, WithParam(headers, content[start..i]), goal)
  {
    TakeToken(content[start..], headers);
    assert content[start..][..i - start] == content[start..i];
    assert content[start..][i - start + 1..] == content[i + 1..];
  }

  /** The quote-aware loop over a Content-Disposition value. */
  method ExtractParams(content: string, initial: PartHeaders) returns (headers: PartHeaders)
    ensures headers == WithParams(initial, Tokens(content))
  {
    headers := initial;
    ghost var goal := WithParams(initial, Tokens(content));
    var start, i, inQuotes := 0, 0, false;
    while i < |content|
      invariant Scanning(content, start, i, inQuotes, headers, goal)
    {
      if content[i] == ';' && !inQuotes {
        Cut(content, start, i, headers, goal);
        headers := WithParam(headers, content[start..i]);
        start := i + 1;
      } else {
        Pass(content, start, i, inQuotes, headers, goal);
        inQuotes := inQuotes != (content[i] == '"');
      }
      i := i + 1;
    }
    TakeToken(content[start..], headers);
    assert content[start..][..i - start] == content[start..];
    headers := WithParam(headers, content[start..]);
  }

  lemma TakeToken(s: string, headers: PartHeaders)
    ensures var n := Break(s, false);
            WithParams(headers, Tokens(s))
            == if n == |s| then WithParam(headers, s[..n])
               else WithParams(WithParam(headers, s[..n]), Tokens(s[n + 1..]))
  {
    var n := Break(s, false);
    if n == |s| {
      assert s[..n] == s && Tokens(s)[1..] == [];
    } else {
      assert Tokens(s)[0] == s[..n] && Tokens(s)[1..] == Tokens(s[n + 1..]);
    }
  }

  // ---------------------------------------------------------- part headers

  function WithLine(headers: PartHeaders, line: string): PartHeaders {
    if !Contains(line, ":") then headers
    else
      var colon := Find(line, ":");
      if CiEqual(line[..colon], "Content-Disposition") then WithParams(headers, Tokens(line[colon + 1..]))
      else if CiEqual(line[..colon], "Content-Type") then headers.(contentType := Some(Trim(line[colon + 1..])))
      else headers
  }

  function WithLines(headers: PartHeaders, lines: seq<string>): PartHeaders
    decreases |lines|
  {
    if lines == [] then headers else WithLines(WithLine(headers, lines[0]), lines[1..])
  }

  /** `parse_part_headers`. */
  method ParsePartHeaders(text: string) returns (headers: PartHeaders)
    ensures headers == WithLines(NO_HEADERS, Split(text, CRLF))
  {
    headers := NO_HEADERS;
    var lines := Split(text, CRLF);
    var i := 0;
    while i < |lines|
      invariant i <= |lines|
      invariant WithLines(headers, lines[i..]) == WithLines(NO_HEADERS, lines)
    {
      var line := lines[i];
      assert lines[i..][0] == line && lines[i..][1..] == lines[i + 1..];
      if Contains(line, ":") {
        var colon := Find(line, ":");
        if CiEqual(line[..colon], "Content-Disposition") {
          headers := ExtractParams(line[colon + 1..], headers);
        } else if CiEqual(line[..colon], "Content-Type") {
          headers := headers.(contentType := Some(Trim(line[colon + 1..])));
        }
      }
      i := i + 1;
    }
  }

  // ----------------------------------------------------------------- parts

  datatype Item = Item(filename: string, content: string, contentType: string, field: string)

  datatype Form = Form(params: map<string, string>, files: seq<Item>)

  function StripCrlf(s: string): string {
    var t := if CRLF <= s then s[2..] else s;
    if |t| >= 2 && t[|t| - 2..] == CRLF then t[..|t| - 2] else t
  }

  /** Header block and content of a part, if a blank line separates them. */
  function HeadAndContent(part: string): Option<(string, string)> {
    var s := StripCrlf(part);
    var i := Find(s, BLANK_LINE);
    if i < |s| then Some((s[..i], s[i + 4..]))
    else
      var j := Find(s, "\n\n");
      if j < |s| then Some((s[..j], s[j + 2..])) else None
  }

  /** Where a part with these headers goes. */
  function Store(form: Form, headers: PartHeaders, content: string): Form {
    match headers.name
    case None => form
    case Some(field) =>
      match headers.filename
      case Some(filename) =>
        var kind := if headers.contentType.Some? then headers.contentType.value else "";
        form.(files := form.files + [Item(filename, content, kind, field)])
      case None =>
        if field in form.params then form else form.(params := form.params[field := content])
  }

  function WithPart(form: Form, part: string): Form {
    match HeadAndContent(part)
    case None => form
    case Some((head, content)) => Store(form, WithLines(NO_HEADERS, Split(head, CRLF)), content)
  }

  function WithParts(form: Form, parts: seq<string>): Form
    decreases |parts|
  {
    if parts == [] then form else WithParts(WithPart(form, parts[0]), parts[1..])
  }

  /** What a body with this boundary means to the reader. */
  function Parsed(body: string, boundary: string): Form {
    var pieces := Split(body, "--" + boundary);
    WithParts(Form(map[], []), if pieces == [] then [] else pieces[1..])
  }

  /** `process_multipart_part`. */
  method ProcessPart(part: string, form: Form) returns (result: Form)
    ensures result == WithPart(form, part)
  {
    var s := StripCrlf(part);
    var i, delimiter := Find(s, BLANK_LINE), 4;
    if i == |s| {
      i, delimiter := Find(s, "\n\n"), 2;
    }
    if i == |s| {
      return form;
    }
    var headers := ParsePartHeaders(s[..i]);
    result := Store(form, headers, s[i + delimiter..]);
  }

  /** `parse_multipart_form_data`. */
  method ParseForm(body: string, boundary: string) returns (form: Form)
    ensures form == Parsed(body, boundary)
  {
    var pieces := Split(body, "--" + boundary);
    form := Form(map[], []);
    var i := 1;
    while i < |pieces|
      invariant 1 <= i && (pieces != [] ==> i <= |pieces|)
      invariant pieces != [] ==> WithParts(form, pieces[i..]) == Parsed(body, boundary)
      invariant pieces == [] ==> form == Form(map[], [])
    {
      assert pieces[i..][0] == pieces[i] && pieces[i..][1..] == pieces[i + 1..];
      form := ProcessPart(pieces[i], form);
      i := i + 1;
    }
  }
}
