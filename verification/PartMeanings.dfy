/** What the form reader makes of any body whatever, well formed or not. */
module PartMeanings {

  import opened Common
  import opened Text
  import opened Multipart

  // ------------------------------------------------------------ parameters

  /** The value as it is written: in quotes, behind an opening quote that is never
      closed, or bare. */
  predicate Writes(raw: string, value: string) {
    || raw == "\"" + value + "\""
    || (raw == "\"" + value && value != "" && value[|value| - 1] != '"')
    || (raw == value && (|raw| < 2 || raw[0] != '"'))
  }

  lemma UnquoteMeaning(raw: string, value: string)
    ensures Writes(raw, value) <==> value == Unquote(raw)
  {
    if |raw| >= 2 && raw[0] == '"' {
      assert raw == "\"" + raw[1..];
      if raw[|raw| - 1] == '"' { assert raw == "\"" + raw[1..|raw| - 1] + "\""; }
    }
  }

  /** What follows the last slash or backslash. */
  predicate LastSegment(path: string, base: string) {
    && |base| <= |path| && base == path[|path| - |base|..]
    && (forall i :: 0 <= i < |base| ==> base[i] !in "/\\")
    && (|base| < |path| ==> path[|path| - |base| - 1] in "/\\")
  }

  lemma OtherSegment(path: string, a: string, b: string)
    requires LastSegment(path, a) && |a| != |b|
    ensures !LastSegment(path, b)
  {
    if |b| < |a| {
      assert a[|a| - |b| - 1] == path[|path| - |b| - 1];
    } else if |b| <= |path| && b == path[|path| - |b|..] {
      assert b[|b| - |a| - 1] == path[|path| - |a| - 1];
    }
  }

  lemma BaseNameIsSegment(path: string)
    ensures LastSegment(path, BaseName(path))
  {
    forall c: char ensures IsSeparator(c) <==> c in "/\\" {}
  }

  lemma BaseNameMeaning(path: string, base: string)
    ensures LastSegment(path, base) <==> base == BaseName(path)
  {
    BaseNameIsSegment(path);
    if |base| != |BaseName(path)| { OtherSegment(path, BaseName(path), base); }
  }

  /** The token, without the blanks around it, is `key=` and a way to write the value. */
  ghost predicate Says(token: string, key: string, value: string) {
    Lacks(key, '=') && exists raw :: Trim(token) == key + "=" + raw && Writes(raw, value)
  }

  /** The key and the value of a token that has an equals sign. */
  ghost predicate Splits(param: string, key: string, value: string) {
    Contains(param, "=") && key == param[..Find(param, "=")] && value == Unquote(param[Find(param, "=") + 1..])
  }

  lemma SaysOnce(token: string, key: string, value: string)
    ensures Says(token, key, value) <==> Splits(Trim(token), key, value)
  {
    var param := Trim(token);
    if Says(token, key, value) {
      var raw :| param == key + "=" + raw && Writes(raw, value);
      FindChar(key, '=', raw);
      UnquoteMeaning(raw, value);
    } else if Contains(param, "=") {
      var eq := Find(param, "=");
      forall i | 0 <= i < eq ensures param[i] != '=' {
        assert !Occurs(param, "=", i) && param[i..i + 1] == [param[i]];
      }
      assert param[eq..eq + 1] == "=" && param == param[..eq] + "=" + param[eq + 1..];
      UnquoteMeaning(param[eq + 1..], Unquote(param[eq + 1..]));
    }
  }

  lemma NameToken(headers: PartHeaders, token: string, value: string)
    requires Says(token, "name", value)
    ensures WithParam(headers, token) == headers.(name := Some(value))
  {
    SaysOnce(token, "name", value);
  }

  lemma FilenameStep(headers: PartHeaders, token: string)
    requires var param := Trim(token); Contains(param, "=") && param[..Find(param, "=")] == "filename"
    ensures var param := Trim(token);
            WithParam(headers, token)
            == headers.(filename := Some(BaseName(Unquote(param[Find(param, "=") + 1..]))))
  {
    assert |"filename"| != |"name"|;
  }

  lemma FilenameToken(headers: PartHeaders, token: string, value: string, base: string)
    requires Says(token, "filename", value) && LastSegment(value, base)
    ensures WithParam(headers, token) == headers.(filename := Some(base))
  {
    SaysOnce(token, "filename", value);
    FilenameStep(headers, token);
    BaseNameMeaning(value, base);
  }

  ghost predicate Silent(token: string, key: string) {
    forall v :: !Says(token, key, v)
  }

  lemma SilentToken(headers: PartHeaders, token: string)
    ensures Silent(token, "name") ==> WithParam(headers, token).name == headers.name
    ensures Silent(token, "filename") ==> WithParam(headers, token).filename == headers.filename
    ensures WithParam(headers, token).contentType == headers.contentType
  {
    var param := Trim(token);
    if Contains(param, "=") {
      var value := Unquote(param[Find(param, "=") + 1..]);
      SaysOnce(token, "name", value);
      SaysOnce(token, "filename", value);
    }
  }

  /** The last token that gives the key a value gives it this one. */
  ghost predicate LastSaid(tokens: seq<string>, key: string, value: string) {
    exists i :: 0 <= i < |tokens| && Says(tokens[i], key, value) && NoneSays(tokens[i + 1..], key)
  }

  ghost predicate NoneSays(tokens: seq<string>, key: string) {
    forall i :: 0 <= i < |tokens| ==> Silent(tokens[i], key)
  }

  /** The first token is the last word, or the rest has it. */
  lemma SaidFirst(tokens: seq<string>, key: string, value: string)
    requires tokens != [] && LastSaid(tokens, key, value)
    ensures LastSaid(tokens[1..], key, value)
            || (Says(tokens[0], key, value) && NoneSays(tokens[1..], key))
  {
    var i :| 0 <= i < |tokens| && Says(tokens[i], key, value) && NoneSays(tokens[i + 1..], key);
    if i > 0 {
      assert tokens[1..][i - 1] == tokens[i] && tokens[1..][i..] == tokens[i + 1..];
    }
  }

  lemma NoneSaysFirst(tokens: seq<string>, key: string)
    requires tokens != [] && NoneSays(tokens, key)
    ensures Silent(tokens[0], key) && NoneSays(tokens[1..], key)
  {
  }

  /** Over all tokens the last name and the last file name stay, the file name as what
      follows its last separator. */
  lemma {:induction false} NameMeaning(headers: PartHeaders, tokens: seq<string>, value: string)
    ensures LastSaid(tokens, "name", value) ==> WithParams(headers, tokens).name == Some(value)
    ensures NoneSays(tokens, "name") ==> WithParams(headers, tokens).name == headers.name
    decreases |tokens|
  {
    if tokens != [] {
      NameMeaning(WithParam(headers, tokens[0]), tokens[1..], value);
      if LastSaid(tokens, "name", value) {
        SaidFirst(tokens, "name", value);
        if Says(tokens[0], "name", value) { NameToken(headers, tokens[0], value); }
      }
      if NoneSays(tokens, "name") {
        NoneSaysFirst(tokens, "name");
        SilentToken(headers, tokens[0]);
      }
    }
  }

  lemma {:induction false} FilenameMeaning(headers: PartHeaders, tokens: seq<string>, value: string, base: string)
    ensures LastSaid(tokens, "filename", value) && LastSegment(value, base)
            ==> WithParams(headers, tokens).filename == Some(base)
    ensures NoneSays(tokens, "filename") ==> WithParams(headers, tokens).filename == headers.filename
    decreases |tokens|
  {
    if tokens != [] {
      FilenameMeaning(WithParam(headers, tokens[0]), tokens[1..], value, base);
      if LastSaid(tokens, "filename", value) && LastSegment(value, base) {
        SaidFirst(tokens, "filename", value);
        if Says(tokens[0], "filename", value) { FilenameToken(headers, tokens[0], value, base); }
      }
      if NoneSays(tokens, "filename") {
        NoneSaysFirst(tokens, "filename");
        SilentToken(headers, tokens[0]);
      }
    }
  }

  lemma {:induction false} TypeStays(headers: PartHeaders, tokens: seq<string>)
    ensures WithParams(headers, tokens).contentType == headers.contentType
    decreases |tokens|
  {
    if tokens != [] {
      SilentToken(headers, tokens[0]);
      TypeStays(WithParam(headers, tokens[0]), tokens[1..]);
    }
  }

  /** Every semicolon of the token is inside quotes, and they are closed at its end
      unless it is the last one. */
  predicate Uncut(token: string, last: bool) {
    && (forall i :: 0 <= i < |token| && token[i] == ';' ==> Quotes(token[..i], false))
    && (last || !Quotes(token, false))
  }

  lemma UncutPrefix(s: string, n: nat)
    requires n <= |s| && forall i :: 0 <= i < n && s[i] == ';' ==> Quotes(s[..i], false)
    requires n < |s| ==> !Quotes(s[..n], false)
    ensures Uncut(s[..n], n == |s|)
  {
    forall i | 0 <= i < n && s[..n][i] == ';' ensures Quotes(s[..n][..i], false) {
      assert s[..n][..i] == s[..i];
    }
  }

  lemma CutBack(s: string, n: nat, c: char)
    requires n < |s| && s[n] == c
    ensures s == s[..n] + [c] + s[n + 1..]
  {
  }

  lemma TokenUncut(s: string, n: nat)
    requires n == Break(s, false)
    ensures Uncut(s[..n], n == |s|) && (n < |s| ==> s == s[..n] + ";" + s[n + 1..])
  {
    BreakMeaning(s, false);
    UncutPrefix(s, n);
    if n < |s| { CutBack(s, n, ';'); }
  }

  /** The tokens are the text cut at the semicolons outside quotes, and there only. */
  lemma {:induction false} TokensMeaning(s: string)
    ensures var tokens := Tokens(s);
            && tokens != [] && Glued(tokens, ";") == s
            && forall i :: 0 <= i < |tokens| ==> Uncut(tokens[i], i == |tokens| - 1)
    decreases |s|
  {
    var n := Break(s, false);
    TokenUncut(s, n);
    if n < |s| {
      TokensMeaning(s[n + 1..]);
    } else {
      assert s[..n] == s;
    }
  }

  // ---------------------------------------------------------- part headers

  /** The line is a header of this name, in any case, with this text behind the colon. */
  ghost predicate Carries(line: string, header: string, value: string) {
    exists key :: line == key + ":" + value && Lacks(key, ':') && SameButCase(key, header)
  }

  lemma ColonCuts(line: string)
    requires Contains(line, ":")
    ensures var colon := Find(line, ":");
            line == line[..colon] + ":" + line[colon + 1..] && Lacks(line[..colon], ':')
  {
    var colon := Find(line, ":");
    forall i | 0 <= i < colon ensures line[i] != ':' {
      assert !Occurs(line, ":", i) && line[i..i + 1] == [line[i]];
    }
    assert line[colon..colon + 1] == ":";
  }

  lemma CarriesOnce(line: string, header: string, value: string)
    ensures Carries(line, header, value)
            <==> Contains(line, ":") && SameButCase(line[..Find(line, ":")], header)
                 && value == line[Find(line, ":") + 1..]
  {
    if Carries(line, header, value) {
      var key :| line == key + ":" + value && Lacks(key, ':') && SameButCase(key, header);
      FindChar(key, ':', value);
    } else if Contains(line, ":") {
      ColonCuts(line);
    }
  }

  ghost predicate Foreign(line: string, header: string) {
    forall v :: !Carries(line, header, v)
  }

  lemma DispositionLine(headers: PartHeaders, line: string, value: string)
    requires Carries(line, "Content-Disposition", value)
    ensures WithLine(headers, line) == WithParams(headers, Tokens(value)) && Foreign(line, "Content-Type")
  {
    CarriesOnce(line, "Content-Disposition", value);
    CiEqualMeaning(line[..Find(line, ":")], "Content-Disposition");
    assert |"Content-Type"| != |"Content-Disposition"|;
    forall v ensures !Carries(line, "Content-Type", v) { CarriesOnce(line, "Content-Type", v); }
  }

  lemma TypeLine(headers: PartHeaders, line: string, value: string)
    requires Carries(line, "Content-Type", value)
    ensures WithLine(headers, line) == headers.(contentType := Some(Trim(value)))
  {
    CarriesOnce(line, "Content-Type", value);
    CiEqualMeaning(line[..Find(line, ":")], "Content-Type");
    assert |"Content-Type"| != |"Content-Disposition"|;
  }

  lemma ForeignLine(headers: PartHeaders, line: string)
    requires Foreign(line, "Content-Disposition") && Foreign(line, "Content-Type")
    ensures WithLine(headers, line) == headers
  {
    if Contains(line, ":") {
      var key, value := line[..Find(line, ":")], line[Find(line, ":") + 1..];
      CarriesOnce(line, "Content-Disposition", value);
      CarriesOnce(line, "Content-Type", value);
      CiEqualMeaning(key, "Content-Disposition");
      CiEqualMeaning(key, "Content-Type");
    }
  }

  /** The tokens of every Content-Disposition line, in order. */
  ghost function AllTokens(lines: seq<string>): seq<string> {
    if lines == [] then []
    else if value :| Carries(lines[0], "Content-Disposition", value) then Tokens(value) + AllTokens(lines[1..])
    else AllTokens(lines[1..])
  }

  lemma {:induction false} WithMore(headers: PartHeaders, a: seq<string>, b: seq<string>)
    ensures WithParams(headers, a + b) == WithParams(WithParams(headers, a), b)
    decreases |a|
  {
    if a == [] {
      assert a + b == b;
    } else {
      assert (a + b)[1..] == a[1..] + b;
      WithMore(WithParam(headers, a[0]), a[1..], b);
    }
  }

  /** Two header records that name the same field and file. */
  predicate SameNames(a: PartHeaders, b: PartHeaders) {
    a.name == b.name && a.filename == b.filename
  }

  lemma {:induction false} SameNamesStay(a: PartHeaders, b: PartHeaders, tokens: seq<string>)
    requires SameNames(a, b)
    ensures SameNames(WithParams(a, tokens), WithParams(b, tokens))
    decreases |tokens|
  {
    if tokens != [] { SameNamesStay(WithParam(a, tokens[0]), WithParam(b, tokens[0]), tokens[1..]); }
  }

  lemma LineNames(headers: PartHeaders, lines: seq<string>)
    requires lines != []
    ensures SameNames(WithParams(headers, AllTokens(lines)),
                      WithParams(WithLine(headers, lines[0]), AllTokens(lines[1..])))
  {
    if value :| Carries(lines[0], "Content-Disposition", value) {
      DispositionLine(headers, lines[0], value);
      forall v | Carries(lines[0], "Content-Disposition", v) ensures v == value {
        CarriesOnce(lines[0], "Content-Disposition", v);
        CarriesOnce(lines[0], "Content-Disposition", value);
      }
      WithMore(headers, Tokens(value), AllTokens(lines[1..]));
    } else if value :| Carries(lines[0], "Content-Type", value) {
      TypeLine(headers, lines[0], value);
      SameNamesStay(headers, WithLine(headers, lines[0]), AllTokens(lines[1..]));
    } else {
      ForeignLine(headers, lines[0]);
    }
  }

  lemma {:induction false} LinesNames(headers: PartHeaders, lines: seq<string>)
    ensures SameNames(WithLines(headers, lines), WithParams(headers, AllTokens(lines)))
    decreases |lines|
  {
    if lines != [] {
      LineNames(headers, lines);
      LinesNames(WithLine(headers, lines[0]), lines[1..]);
    }
  }

  ghost predicate NoneCarries(lines: seq<string>, header: string) {
    forall i :: 0 <= i < |lines| ==> Foreign(lines[i], header)
  }

  ghost predicate LastCarried(lines: seq<string>, header: string, value: string) {
    exists i :: 0 <= i < |lines| && Carries(lines[i], header, value) && NoneCarries(lines[i + 1..], header)
  }

  lemma LineType(headers: PartHeaders, line: string)
    requires Foreign(line, "Content-Type")
    ensures WithLine(headers, line).contentType == headers.contentType
  {
    if value :| Carries(line, "Content-Disposition", value) {
      DispositionLine(headers, line, value);
      TypeStays(headers, Tokens(value));
    } else {
      ForeignLine(headers, line);
    }
  }

  lemma {:induction false} LinesType(headers: PartHeaders, lines: seq<string>, value: string)
    ensures LastCarried(lines, "Content-Type", value)
            ==> WithLines(headers, lines).contentType == Some(Trim(value))
    ensures NoneCarries(lines, "Content-Type") ==> WithLines(headers, lines).contentType == headers.contentType
    decreases |lines|
  {
    if lines != [] {
      LinesType(WithLine(headers, lines[0]), lines[1..], value);
      if LastCarried(lines, "Content-Type", value) {
        var i :| 0 <= i < |lines| && Carries(lines[i], "Content-Type", value)
                 && NoneCarries(lines[i + 1..], "Content-Type");
        if i == 0 {
          TypeLine(headers, lines[0], value);
        } else {
          assert lines[1..][i - 1] == lines[i] && lines[1..][i..] == lines[i + 1..];
        }
      }
      if NoneCarries(lines, "Content-Type") { LineType(headers, lines[0]); }
    }
  }

  /** The headers of a part, whatever its lines: the last field name and file name among
      the tokens of all Content-Disposition lines, and the last Content-Type without the
      blanks around it. */
  lemma PartHeadersMeaning(lines: seq<string>, value: string, base: string)
    ensures var headers, tokens := WithLines(NO_HEADERS, lines), AllTokens(lines);
            && (LastSaid(tokens, "name", value) ==> headers.name == Some(value))
            && (NoneSays(tokens, "name") ==> headers.name == None)
            && (LastSaid(tokens, "filename", value) && LastSegment(value, base) ==> headers.filename == Some(base))
            && (NoneSays(tokens, "filename") ==> headers.filename == None)
            && (LastCarried(lines, "Content-Type", value) ==> headers.contentType == Some(Trim(value)))
            && (NoneCarries(lines, "Content-Type") ==> headers.contentType == None)
  {
    LinesNames(NO_HEADERS, lines);
    LinesType(NO_HEADERS, lines, value);
    NameMeaning(NO_HEADERS, AllTokens(lines), value);
    FilenameMeaning(NO_HEADERS, AllTokens(lines), value, base);
  }

  // ----------------------------------------------------------------- parts

  /** The text is the core, and a line end behind it if it has one. */
  predicate Ended(s: string, core: string) {
    s == core + "\r\n" || (s == core && (|s| < 2 || s[|s| - 2..] != "\r\n"))
  }

  /** The part is a line end in front, if it has one, and the core that is ended. */
  ghost predicate Core(part: string, core: string) {
    || (exists s :: part == "\r\n" + s && Ended(s, core))
    || (!("\r\n" <= part) && Ended(part, core))
  }

  lemma StripMeaning(part: string)
    ensures Core(part, StripCrlf(part))
  {
    if CRLF <= part { assert part == "\r\n" + part[2..] && Ended(part[2..], StripCrlf(part)); }
  }

  /** Header block and content: cut at the first blank line, and where there is none at
      the first pair of line feeds. */
  lemma HeadAndContentMeaning(part: string)
    ensures var s := StripCrlf(part);
            match HeadAndContent(part)
            case Some((head, content)) =>
              || (s == head + "\r\n\r\n" + content && CutAtFirst(head, "\r\n\r\n"))
              || (s == head + "\n\n" + content && CutAtFirst(head, "\n\n") && !Contains(s, "\r\n\r\n"))
            case None => !Contains(s, "\r\n\r\n") && !Contains(s, "\n\n")
  {
    var s := StripCrlf(part);
    if Contains(s, BLANK_LINE) {
      FirstCut(s, BLANK_LINE);
    } else if Contains(s, "\n\n") {
      FirstCut(s, "\n\n");
    }
  }

  // ------------------------------------------------------------------ form

  /** The headers and the content of a part that has a header block. */
  ghost predicate HasHeaders(piece: string, headers: PartHeaders, content: string) {
    match HeadAndContent(piece)
    case Some((head, text)) => headers == WithLines(NO_HEADERS, Split(head, "\r\n")) && content == text
    case None => false
  }

  /** The piece is a file: it has a field name and a file name. */
  ghost predicate IsFile(piece: string, item: Item) {
    exists headers ::
      && HasHeaders(piece, headers, item.content)
      && headers.name == Some(item.field) && headers.filename == Some(item.filename)
      && (headers.contentType == Some(item.contentType) || (headers.contentType == None && item.contentType == ""))
  }

  /** The piece is a field: it has a field name and no file name. */
  ghost predicate IsField(piece: string, name: string, value: string) {
    exists headers :: HasHeaders(piece, headers, value) && headers.name == Some(name) && headers.filename == None
  }

  /** The files are the pieces that are one, in order. */
  ghost predicate InOrder(pieces: seq<string>, files: seq<Item>)
    decreases |pieces|
  {
    if pieces == [] then files == []
    else if item :| IsFile(pieces[0], item) then files != [] && files[0] == item && InOrder(pieces[1..], files[1..])
    else InOrder(pieces[1..], files)
  }

  ghost predicate NoField(pieces: seq<string>, name: string) {
    forall i, v :: 0 <= i < |pieces| ==> !IsField(pieces[i], name, v)
  }

  /** The first piece that is a field of this name has this value. */
  ghost predicate FirstField(pieces: seq<string>, name: string, value: string) {
    exists i :: 0 <= i < |pieces| && IsField(pieces[i], name, value) && NoField(pieces[..i], name)
  }

  lemma FilePiece(form: Form, piece: string, item: Item)
    requires IsFile(piece, item)
    ensures WithPart(form, piece) == form.(files := form.files + [item])
    ensures forall name, v :: !IsField(piece, name, v)
  {
  }

  lemma FieldPiece(form: Form, piece: string, name: string, value: string)
    requires IsField(piece, name, value)
    ensures WithPart(form, piece)
            == if name in form.params then form else form.(params := form.params[name := value])
    ensures forall item :: !IsFile(piece, item)
    ensures forall n, v :: IsField(piece, n, v) ==> n == name && v == value
  {
  }

  lemma NamedPiece(piece: string, headers: PartHeaders, content: string)
    requires HasHeaders(piece, headers, content) && headers.name.Some?
    ensures (exists item :: IsFile(piece, item)) || (exists name, v :: IsField(piece, name, v))
  {
    if headers.filename.Some? {
      var kind := if headers.contentType.Some? then headers.contentType.value else "";
      assert IsFile(piece, Item(headers.filename.value, content, kind, headers.name.value));
    } else {
      assert IsField(piece, headers.name.value, content);
    }
  }

  lemma OtherPiece(form: Form, piece: string)
    requires forall item :: !IsFile(piece, item)
    requires forall name, v :: !IsField(piece, name, v)
    ensures WithPart(form, piece) == form
  {
    match HeadAndContent(piece)
    case None =>
    case Some((head, content)) =>
      var headers := WithLines(NO_HEADERS, Split(head, CRLF));
      if headers.name.Some? { NamedPiece(piece, headers, content); }
  }

  ghost predicate NoFile(piece: string) {
    forall item :: !IsFile(piece, item)
  }

  lemma PieceFiles(form: Form, piece: string) returns (file: Option<Item>)
    ensures match file
            case Some(item) => IsFile(piece, item) && WithPart(form, piece).files == form.files + [item]
            case None => NoFile(piece) && WithPart(form, piece).files == form.files
  {
    if item :| IsFile(piece, item) {
      FilePiece(form, piece, item);
      file := Some(item);
    } else {
      if name, value :| IsField(piece, name, value) {
        FieldPiece(form, piece, name, value);
      } else {
        OtherPiece(form, piece);
      }
      file := None;
    }
  }

  lemma FileInOrder(pieces: seq<string>, item: Item, rest: seq<Item>)
    requires pieces != [] && IsFile(pieces[0], item) && InOrder(pieces[1..], rest)
    ensures InOrder(pieces, [item] + rest)
  {
    assert ([item] + rest)[1..] == rest;
    forall other | IsFile(pieces[0], other) ensures other == item {}
  }

  lemma OtherInOrder(pieces: seq<string>, rest: seq<Item>)
    requires pieces != [] && NoFile(pieces[0]) && InOrder(pieces[1..], rest)
    ensures InOrder(pieces, rest)
  {
  }

  lemma PieceInOrder(file: Option<Item>, pieces: seq<string>, rest: seq<Item>)
    requires pieces != [] && InOrder(pieces[1..], rest)
    requires match file case Some(item) => IsFile(pieces[0], item) case None => NoFile(pieces[0])
    ensures InOrder(pieces, ItemsOf(file) + rest)
  {
    match file
    case Some(item) => FileInOrder(pieces, item, rest);
    case None =>
      OtherInOrder(pieces, rest);
      assert [] + rest == rest;
  }

  function ItemsOf(file: Option<Item>): seq<Item> {
    match file
    case Some(item) => [item]
    case None => []
  }

  /** The form after the first piece, and what that piece adds. */
  lemma FirstPiece(form: Form, pieces: seq<string>) returns (next: Form, file: Option<Item>)
    requires pieces != []
    ensures WithParts(form, pieces) == WithParts(next, pieces[1..])
    ensures next.files == form.files + ItemsOf(file)
    ensures match file case Some(item) => IsFile(pieces[0], item) case None => NoFile(pieces[0])
  {
    next := WithPart(form, pieces[0]);
    file := PieceFiles(form, pieces[0]);
    assert form.files + [] == form.files;
  }

  lemma NoPieces(form: Form)
    ensures WithParts(form, []).files == form.files + [] && InOrder([], [])
  {
  }

  /** One more piece in front. */
  lemma MoreFiles(form: Form, next: Form, file: Option<Item>, rest: seq<Item>, all: Form)
    requires next.files == form.files + ItemsOf(file) && all.files == next.files + rest
    ensures all.files == form.files + (ItemsOf(file) + rest)
  {
  }

  lemma {:induction false} FilesOf(form: Form, pieces: seq<string>) returns (files: seq<Item>)
    ensures WithParts(form, pieces).files == form.files + files && InOrder(pieces, files)
    decreases |pieces|
  {
    if pieces == [] {
      files := [];
      NoPieces(form);
    } else {
      var next, file := FirstPiece(form, pieces);
      var rest := FilesOf(next, pieces[1..]);
      files := ItemsOf(file) + rest;
      MoreFiles(form, next, file, rest, WithParts(form, pieces));
      PieceInOrder(file, pieces, rest);
    }
  }

  lemma PieceField(form: Form, piece: string, name: string)
    ensures name in form.params
            ==> name in WithPart(form, piece).params && WithPart(form, piece).params[name] == form.params[name]
    ensures forall v :: IsField(piece, name, v) && name !in form.params
                        ==> name in WithPart(form, piece).params && WithPart(form, piece).params[name] == v
    ensures (forall v :: !IsField(piece, name, v)) && name !in form.params ==> name !in WithPart(form, piece).params
  {
    if n, value :| IsField(piece, n, value) {
      FieldPiece(form, piece, n, value);
    } else if item :| IsFile(piece, item) {
      FilePiece(form, piece, item);
    } else {
      OtherPiece(form, piece);
    }
  }

  lemma NoFieldRest(pieces: seq<string>, name: string)
    requires pieces != [] && NoField(pieces, name)
    ensures NoField(pieces[1..], name)
  {
  }

  lemma FirstFieldAt(pieces: seq<string>, i: nat, name: string, value: string)
    requires 0 < i < |pieces| && IsField(pieces[i], name, value) && NoField(pieces[..i], name)
    ensures FirstField(pieces[1..], name, value)
  {
    NoFieldRest(pieces[..i], name);
    assert pieces[1..][..i - 1] == pieces[..i][1..];
    assert pieces[1..][i - 1] == pieces[i];
  }

  lemma FirstFieldRest(pieces: seq<string>, name: string, value: string)
    requires pieces != [] && FirstField(pieces, name, value)
    ensures IsField(pieces[0], name, value)
            || (FirstField(pieces[1..], name, value) && forall v :: !IsField(pieces[0], name, v))
  {
    var i :| 0 <= i < |pieces| && IsField(pieces[i], name, value) && NoField(pieces[..i], name);
    if i > 0 {
      FirstFieldAt(pieces, i, name, value);
      assert pieces[..i][0] == pieces[0];
    }
  }

  lemma {:induction false} FieldOf(form: Form, pieces: seq<string>, name: string, value: string)
    ensures name in form.params
            ==> name in WithParts(form, pieces).params && WithParts(form, pieces).params[name] == form.params[name]
    ensures name !in form.params && FirstField(pieces, name, value)
            ==> name in WithParts(form, pieces).params && WithParts(form, pieces).params[name] == value
    ensures name !in form.params && NoField(pieces, name) ==> name !in WithParts(form, pieces).params
    decreases |pieces|
  {
    if pieces != [] {
      PieceField(form, pieces[0], name);
      FieldOf(WithPart(form, pieces[0]), pieces[1..], name, value);
      if FirstField(pieces, name, value) { FirstFieldRest(pieces, name, value); }
    }
  }

  /** The form of any body: the pieces behind the first delimiter that are files, in
      order, and for every name the first piece that is a field of that name. */
  lemma FormMeaning(body: string, boundary: string, name: string, value: string)
    ensures var form, pieces := Parsed(body, boundary), Split(body, "--" + boundary);
            var parts := if pieces == [] then [] else pieces[1..];
            && InOrder(parts, form.files)
            && (FirstField(parts, name, value) ==> name in form.params && form.params[name] == value)
            && (NoField(parts, name) ==> name !in form.params)
  {
    var pieces := Split(body, "--" + boundary);
    var parts := if pieces == [] then [] else pieces[1..];
    var files := FilesOf(Form(map[], []), parts);
    assert [] + files == files;
    FieldOf(Form(map[], []), parts, name, value);
  }
}
