/**
 An upload on its way from the tool (mcp/testbench_mcp.py, `_multipart`, `_upload_parts`) to the portal
 (pi/portal.py, the `_handle_flash` that is in force): multipart/form-data of RFC 7578 section 4, cut at the
 delimiters of RFC 2046 section 5.1.1.

 A byte is a character.  Text is ASCII, so that its encoding is the identity.
 */
module Multipart {
  import opened Options
  import opened Sequences

  const CRLF: string := "\r\n"
  const BLANK_LINE: string := "\r\n\r\n"
  const DISPOSITION: string := "Content-Disposition: form-data"
  const DISPOSITION_KEY: string := "content-disposition"
  const NAME_KEY: string := "name="
  const FILENAME_KEY: string := "filename="
  const TYPE_LINE: string := "Content-Type: application/octet-stream"

  datatype Part =
    | Field(name: string, value: string)
    | File(name: string, filename: string, content: string)

  // ----- the writer

  function Quoted(s: string): string {
    "\"" + s + "\""
  }

  function NameToken(p: Part): string {
    " " + NAME_KEY + Quoted(p.name)
  }

  function FilenameToken(p: Part): string
    requires p.File?
  {
    " " + FILENAME_KEY + Quoted(p.filename)
  }

  /** The disposition line. */
  function Line(p: Part): string {
    DISPOSITION + ";" + if p.File? then NameToken(p) + ";" + FilenameToken(p) else NameToken(p)
  }

  function Header(p: Part): string {
    if p.File? then Line(p) + CRLF + TYPE_LINE else Line(p)
  }

  function Data(p: Part): string {
    if p.File? then p.content else p.value
  }

  /** What stands between two delimiters. */
  function Chunk(p: Part): string {
    CRLF + (Header(p) + BLANK_LINE + Data(p)) + CRLF
  }

  function Delimiter(boundary: string): string {
    "--" + boundary
  }

  function Print(boundary: string, parts: seq<Part>): string {
    if parts == [] then Delimiter(boundary) + "--\r\n"
    else Delimiter(boundary) + Chunk(parts[0]) + Print(boundary, parts[1..])
  }

  // ----- the reader

  datatype Upload = Upload(
    fields: map<string, string>, files: map<string, string>, offsets: seq<(string, string)>, flashArgs: Option<string>)

  datatype Result = Ok(upload: Upload) | PathTraversal(filename: string) | InvalidOffset(name: string)

  datatype Names = Names(name: Option<string>, filename: Option<string>)

  function ToLower(s: string): string {
    seq(|s|, i requires 0 <= i < |s| => if 'A' <= s[i] <= 'Z' then s[i] + ' ' else s[i])
  }

  /** The value of a header parameter: spaces, then double quotes, then single quotes taken off. */
  function Unquote(s: string): string {
    Strip(Strip(Strip(s, TEXT_SPACES), {'"'}), {'\''})
  }

  function ReadToken(n: Names, token: string): Names {
    var tok := Strip(token, TEXT_SPACES);
    if NAME_KEY <= tok then n.(name := Some(Unquote(tok[5..])))
    else if FILENAME_KEY <= tok then n.(filename := Some(Unquote(tok[9..])))
    else n
  }

  function ReadTokens(n: Names, tokens: seq<string>): Names
    decreases |tokens|
  {
    if tokens == [] then n else ReadTokens(ReadToken(n, tokens[0]), tokens[1..])
  }

  function ReadLine(n: Names, line: string): Names {
    var h := Strip(line, TEXT_SPACES);
    if DISPOSITION_KEY <= ToLower(h) then ReadTokens(n, Split(h, ";")) else n
  }

  function ReadLines(n: Names, lines: seq<string>): Names
    decreases |lines|
  {
    if lines == [] then n else ReadLines(ReadLine(n, lines[0]), lines[1..])
  }

  /** The header section and the content, if there is an empty line between them. */
  function Cut(part: string): Option<(string, string)> {
    match Find(part, BLANK_LINE, 0)
    case Some(at) => Some((part[..at], WithoutCrlf(part[at + 4..])))
    case None =>
      match Find(part, "\n\n", 0)
      case Some(at) => Some((part[..at], WithoutCrlf(part[at + 2..])))
      case None => None
  }

  function WithoutCrlf(content: string): string {
    if |content| >= 2 && content[|content| - 2..] == CRLF then content[..|content| - 2] else content
  }

  /** Puts one part away; `isOffset` says whether the text is a number to Python's `int(text, 0)`. */
  function Store(u: Upload, names: Names, content: string, isOffset: string -> bool): Result {
    if names.name.None? then Ok(u)
    else if names.filename.None? then Ok(u.(fields := u.fields[names.name.value := Strip(content, TEXT_SPACES)]))
    else StoreFile(u, names.name.value, names.filename.value, content, isOffset)
  }

  const FLASH_ARGS: string := "flash_args"
  const BIN_KEY: string := "bin@"

  function StoreFile(u: Upload, name: string, filename: string, content: string, isOffset: string -> bool): Result {
    if '/' in filename || Occurs("..", filename) then PathTraversal(filename)
    else if name == FLASH_ARGS then Ok(u.(flashArgs := Some(content)))
    else if BIN_KEY <= name then
      if !isOffset(name[4..]) then InvalidOffset(name)
      else Ok(u.(offsets := u.offsets + [(name[4..], filename)], files := u.files[filename := content]))
    else Ok(u.(files := u.files[filename := content]))
  }

  function ReadPart(u: Upload, part: string, isOffset: string -> bool): Result {
    var p := Strip(part, SPACES);
    if p == "" || p == "--" then Ok(u)
    else
      match Cut(p)
      case None => Ok(u)
      case Some((header, content)) => Store(u, ReadLines(Names(None, None), Split(header, "\n")), content, isOffset)
  }

  function ReadParts(u: Upload, parts: seq<string>, isOffset: string -> bool): Result
    decreases |parts|
  {
    if parts == [] then Ok(u)
    else
      match ReadPart(u, parts[0], isOffset)
      case Ok(u') => ReadParts(u', parts[1..], isOffset)
      case error => error
  }

  const EMPTY: Upload := Upload(map[], map[], [], None)

  function Receive(body: string, boundary: string, isOffset: string -> bool): Result {
    ReadParts(EMPTY, Split(body, Delimiter(boundary)), isOffset)
  }

  // ----- the loops

  method Multipart(boundary: string, fields: seq<(string, string)>, files: seq<(string, string, string)>)
      returns (out: string)
    ensures out == Print(boundary, Parts(fields, files))
  {
    hide Chunk, Print, Delimiter, Parts;
    out := "";
    ghost var parts := Parts(fields, files);
    PartsAt(fields, files);
    for i := 0 to |fields|
      invariant Print(boundary, parts) == out + Print(boundary, parts[i..])
    {
      var text := Delimiter(boundary) + Chunk(Field(fields[i].0, fields[i].1));
      PrintNext(boundary, parts, i);
      Regroup(out, text, Print(boundary, parts[i + 1..]));
      out := out + text;
    }
    for i := 0 to |files|
      invariant Print(boundary, parts) == out + Print(boundary, parts[|fields| + i..])
    {
      var text := Delimiter(boundary) + Chunk(File(files[i].0, files[i].1, files[i].2));
      PrintNext(boundary, parts, |fields| + i);
      Regroup(out, text, Print(boundary, parts[|fields| + i + 1..]));
      out := out + text;
    }
    PrintNothing(boundary);
    assert parts[|parts|..] == [];
    out := out + (Delimiter(boundary) + "--\r\n");
  }

  lemma PrintNothing(boundary: string)
    ensures Print(boundary, []) == Delimiter(boundary) + "--\r\n"
  {
  }

  lemma PartsAt(fields: seq<(string, string)>, files: seq<(string, string, string)>)
    ensures var parts := Parts(fields, files);
            && parts[0..] == parts && |parts| == |fields| + |files|
            && (forall i :: 0 <= i < |fields| ==> parts[i] == Field(fields[i].0, fields[i].1))
            && (forall i :: 0 <= i < |files| ==> parts[|fields| + i] == File(files[i].0, files[i].1, files[i].2))
  {
  }

  lemma PrintNext(boundary: string, parts: seq<Part>, i: nat)
    requires i < |parts|
    ensures Print(boundary, parts[i..]) == Delimiter(boundary) + Chunk(parts[i]) + Print(boundary, parts[i + 1..])
  {
    assert parts[i..][1..] == parts[i + 1..];
  }

  function Parts(fields: seq<(string, string)>, files: seq<(string, string, string)>): (parts: seq<Part>)
    ensures |parts| == |fields| + |files|
  {
    seq(|fields|, i requires 0 <= i < |fields| => Field(fields[i].0, fields[i].1)) +
    seq(|files|, i requires 0 <= i < |files| => File(files[i].0, files[i].1, files[i].2))
  }

  method ReadHeaders(header: string) returns (name: Option<string>, filename: Option<string>)
    ensures Names(name, filename) == ReadLines(Names(None, None), Split(header, "\n"))
  {
    hide Split, Strip, Unquote, ToLower;
    name, filename := None, None;
    var lines := Split(header, "\n");
    for i := 0 to |lines|
      invariant ReadLines(Names(name, filename), lines[i..]) == ReadLines(Names(None, None), lines)
    {
      ghost var before := Names(name, filename);
      var h := Strip(lines[i], TEXT_SPACES);
      if DISPOSITION_KEY <= ToLower(h) {
        var tokens := Split(h, ";");
        for j := 0 to |tokens|
          invariant ReadTokens(Names(name, filename), tokens[j..]) == ReadTokens(before, tokens)
        {
          var tok := Strip(tokens[j], TEXT_SPACES);
          assert tokens[j..][1..] == tokens[j + 1..];
          if NAME_KEY <= tok {
            name := Some(Unquote(tok[5..]));
          } else if FILENAME_KEY <= tok {
            filename := Some(Unquote(tok[9..]));
          }
        }
      }
      assert lines[i..][1..] == lines[i + 1..];
    }
  }

  /** The loop over the parts of an upload. */
  method HandleFlash(body: string, boundary: string, isOffset: string -> bool) returns (r: Result)
    ensures r == Receive(body, boundary, isOffset)
  {
    hide Split, Strip, Cut, ReadLines;
    var u := EMPTY;
    var parts := Split(body, Delimiter(boundary));
    for i := 0 to |parts|
      invariant ReadParts(u, parts[i..], isOffset) == ReadParts(EMPTY, parts, isOffset)
    {
      assert parts[i..][1..] == parts[i + 1..];
      var part := Strip(parts[i], SPACES);
      if part == "" || part == "--" {
        continue;
      }
      var cut := Cut(part);
      if cut.None? {
        continue;
      }
      var (header, content) := cut.value;
      var name, filename := ReadHeaders(header);
      if name.None? {
        continue;
      }
      if filename.Some? {
        var stored := StoreFile(u, name.value, filename.value, content, isOffset);
        if !stored.Ok? {
          return stored;
        }
        u := stored.upload;
      } else {
        u := u.(fields := u.fields[name.value := Strip(content, TEXT_SPACES)]);
      }
    }
    r := Ok(u);
  }

  // ----- the boundary, on its way in the content type

  const MULTIPART: string := "multipart/form-data"
  const BOUNDARY_KEY: string := "boundary="

  function ContentType(boundary: string): string {
    MULTIPART + ";" + (" " + BOUNDARY_KEY + boundary)
  }

  function BoundaryIn(found: string, pieces: seq<string>): string
    decreases |pieces|
  {
    if pieces == [] then found
    else
      var piece := Strip(pieces[0], TEXT_SPACES);
      BoundaryIn(if BOUNDARY_KEY <= piece then Strip(piece[9..], {'"'}) else found, pieces[1..])
  }

  /** None for a request that is refused: no multipart, or no boundary. */
  method FindBoundary(contentType: string) returns (boundary: Option<string>)
    ensures boundary ==
            if !Occurs(MULTIPART, contentType) || BoundaryIn("", Split(contentType, ";")) == "" then None
            else Some(BoundaryIn("", Split(contentType, ";")))
  {
    hide Split, Strip, Occurs;
    if !Occurs(MULTIPART, contentType) {
      return None;
    }
    var found := "";
    var pieces := Split(contentType, ";");
    for i := 0 to |pieces|
      invariant BoundaryIn(found, pieces[i..]) == BoundaryIn("", pieces)
    {
      assert pieces[i..][1..] == pieces[i + 1..];
      var piece := Strip(pieces[i], TEXT_SPACES);
      if BOUNDARY_KEY <= piece {
        found := Strip(piece[9..], {'"'});
      }
    }
    boundary := if found == "" then None else Some(found);
  }

  /** The boundary the tool announces is the one the portal cuts at. */
  lemma BoundaryArrives(boundary: string)
    requires boundary != "" && ';' !in boundary
    requires boundary[0] != '"' && boundary[|boundary| - 1] !in TEXT_SPACES + {'"'}
    ensures Occurs(MULTIPART, ContentType(boundary))
    ensures BoundaryIn("", Split(ContentType(boundary), ";")) == boundary
  {
    hide Split, Find;
    var piece := BOUNDARY_KEY + boundary;
    MultipartPiece();
    CleanOfOne(MULTIPART, ';');
    CleanOfOne(" " + piece, ';');
    assert " " + BOUNDARY_KEY + boundary == " " + piece;
    SplitBehind(MULTIPART, ";", " " + piece);
    SplitOnce(" " + piece, ";");
    BoundaryPiece(boundary);
    assert Stands(ContentType(boundary), 0, MULTIPART);
    TwoPieces(MULTIPART, " " + piece);
  }

  lemma MultipartPiece()
    ensures ';' !in MULTIPART && ';' !in BOUNDARY_KEY && Strip(MULTIPART, TEXT_SPACES)[0] == 'm'
        && BOUNDARY_KEY[0] == 'b'
  {
    StripSolid(MULTIPART, TEXT_SPACES);
  }

  lemma BoundaryPiece(boundary: string)
    requires boundary != "" && boundary[0] != '"' && boundary[|boundary| - 1] !in TEXT_SPACES + {'"'}
    ensures var piece := BOUNDARY_KEY + boundary;
            Strip(" " + piece, TEXT_SPACES) == piece && BOUNDARY_KEY <= piece && Strip(piece[9..], {'"'}) == boundary
  {
    var piece := BOUNDARY_KEY + boundary;
    StripLeftBlank(" ", piece, TEXT_SPACES);
    assert piece[0] == 'b' && piece[|piece| - 1] == boundary[|boundary| - 1];
    assert piece[9..] == boundary;
    StripSolid(boundary, {'"'});
  }

  lemma TwoPieces(a: string, b: string)
    ensures BoundaryIn("", [a, b]) ==
            var first := Strip(a, TEXT_SPACES); var second := Strip(b, TEXT_SPACES);
            if BOUNDARY_KEY <= second then Strip(second[9..], {'"'})
            else if BOUNDARY_KEY <= first then Strip(first[9..], {'"'}) else ""
  {
    hide Strip;
    assert [a, b][1..] == [b] && [b][1..] == [];
    var first := Strip(a, TEXT_SPACES);
    var found := if BOUNDARY_KEY <= first then Strip(first[9..], {'"'}) else "";
    OnePiece(found, b);
    assert BoundaryIn("", [a, b]) == BoundaryIn(found, [b]);
  }

  lemma OnePiece(found: string, b: string)
    ensures BoundaryIn(found, [b]) ==
            var piece := Strip(b, TEXT_SPACES); if BOUNDARY_KEY <= piece then Strip(piece[9..], {'"'}) else found
  {
    hide Strip;
    assert [b][1..] == [];
  }

  // ----- what an upload should leave behind

  /** The effect of one part that was written. */
  function Add(u: Upload, p: Part, isOffset: string -> bool): Result {
    if Blank(Data(p), SPACES) then Ok(u)
    else if p.Field? then Ok(u.(fields := u.fields[p.name := Strip(p.value, TEXT_SPACES)]))
    else StoreFile(u, p.name, p.filename, StripRight(p.content, SPACES), isOffset)
  }

  function AddAll(u: Upload, parts: seq<Part>, isOffset: string -> bool): Result
    decreases |parts|
  {
    if parts == [] then Ok(u)
    else
      match Add(u, parts[0], isOffset)
      case Ok(u') => AddAll(u', parts[1..], isOffset)
      case error => error
  }

  /** A name that its quotes carry: nothing that ends a parameter or a line, no quote at either end. */
  predicate CleanName(s: string) {
    && ';' !in s && '\n' !in s
    && (s != "" ==> s[0] !in {'"', '\''} && s[|s| - 1] !in {'"', '\''})
  }

  predicate CleanPart(p: Part) {
    CleanName(p.name) && (p.File? ==> CleanName(p.filename))
  }

  /** The boundary has no line end and its delimiter stands in no part. */
  predicate Separates(boundary: string, parts: seq<Part>) {
    && boundary != "" && '\n' !in boundary && '\r' !in boundary
    && forall p :: p in parts ==> !Occurs(Delimiter(boundary), Chunk(p))
  }

  // ----- header lines

  lemma StripSolid(s: string, cs: set<char>)
    requires s != "" && s[0] !in cs && s[|s| - 1] !in cs
    ensures Strip(s, cs) == s
  {
  }

  lemma UnquoteQuoted(s: string)
    requires CleanName(s)
    ensures Unquote(Quoted(s)) == s
  {
    StripSolid(Quoted(s), TEXT_SPACES);
    StripQuotes(s);
    if s != "" {
      StripSolid(s, {'\''});
    }
  }

  lemma StripQuotes(s: string)
    requires s != "" ==> s[0] != '"' && s[|s| - 1] != '"'
    ensures Strip(Quoted(s), {'"'}) == s
  {
    var cs := {'"'};
    StripLeftBlank("\"", s + "\"", cs);
    assert Quoted(s) == "\"" + (s + "\"");
    if s == "" {
      StripOfBlank("\"", cs);
    } else {
      assert StripLeft(s + "\"", cs) == s + "\"";
      StripRightBlank(s, "\"", cs);
    }
  }

  /** One parameter, read off its token. */
  lemma ReadParameter(n: Names, key: string, value: string)
    requires CleanName(value) && key in {NAME_KEY, FILENAME_KEY}
    ensures ReadToken(n, " " + key + Quoted(value)) ==
            if key == NAME_KEY then n.(name := Some(value)) else n.(filename := Some(value))
  {
    hide Strip, Unquote, Quoted, CleanName;
    var tok := key + Quoted(value);
    assert " " + key + Quoted(value) == " " + tok;
    TrimToken(key, value);
    UnquoteQuoted(value);
    assert tok[|key|..] == Quoted(value);
    KeysDiffer(key, Quoted(value));
  }

  lemma TrimToken(key: string, value: string)
    requires key in {NAME_KEY, FILENAME_KEY}
    ensures Strip(" " + (key + Quoted(value)), TEXT_SPACES) == key + Quoted(value)
  {
    var tok := key + Quoted(value);
    StripLeftBlank(" ", tok, TEXT_SPACES);
    assert tok[0] == key[0] && key[0] in {'n', 'f'} && tok[|tok| - 1] == '"';
  }

  lemma KeysDiffer(key: string, rest: string)
    requires key in {NAME_KEY, FILENAME_KEY}
    ensures key <= key + rest && |NAME_KEY| == 5 && |FILENAME_KEY| == 9
    ensures NAME_KEY <= key + rest <==> key == NAME_KEY
  {
    assert NAME_KEY[0] == 'n' && FILENAME_KEY[0] == 'f';
    assert (key + rest)[0] == key[0];
  }

  function NamesOf(p: Part): Names {
    Names(Some(p.name), if p.File? then Some(p.filename) else None)
  }

  lemma LineTokens(p: Part)
    requires CleanPart(p)
    ensures Split(Line(p), ";") == [DISPOSITION, NameToken(p)] + if p.File? then [FilenameToken(p)] else []
  {
    hide Split, NameToken, FilenameToken;
    LineOfTokens(p);
    CleanOfOne(DISPOSITION, ';');
    CleanOfOne(NameToken(p), ';');
    if p.File? {
      CleanOfOne(FilenameToken(p), ';');
      SplitBehind(DISPOSITION, ";", NameToken(p) + ";" + FilenameToken(p));
      SplitBehind(NameToken(p), ";", FilenameToken(p));
      SplitOnce(FilenameToken(p), ";");
    } else {
      SplitBehind(DISPOSITION, ";", NameToken(p));
      SplitOnce(NameToken(p), ";");
    }
  }

  lemma LineOfTokens(p: Part)
    requires CleanPart(p)
    ensures ';' !in DISPOSITION && ';' !in NameToken(p) && (p.File? ==> ';' !in FilenameToken(p))
  {
  }

  lemma DispositionToken(n: Names)
    ensures ReadToken(n, DISPOSITION) == n
  {
    StripSolid(DISPOSITION, TEXT_SPACES);
    assert DISPOSITION[0] == 'C' && NAME_KEY[0] == 'n' && FILENAME_KEY[0] == 'f';
  }

  /** The disposition line gives the names, however it is surrounded by line ends. */
  lemma ReadDisposition(p: Part, line: string)
    requires CleanPart(p) && Strip(line, TEXT_SPACES) == Line(p)
    ensures ReadLine(Names(None, None), line) == NamesOf(p)
  {
    hide Split, ReadToken, Strip, ToLower, Line;
    LineTokens(p);
    LowerLine(p);
    var none := Names(None, None);
    DispositionToken(none);
    ReadParameter(none, NAME_KEY, p.name);
    var tokens := Split(Line(p), ";");
    if p.File? {
      ReadParameter(none.(name := Some(p.name)), FILENAME_KEY, p.filename);
      assert tokens == [DISPOSITION, NameToken(p), FilenameToken(p)];
      ThreeTokens(none, DISPOSITION, NameToken(p), FilenameToken(p));
    } else {
      ThreeTokens(none, DISPOSITION, NameToken(p), "");
      assert tokens == [DISPOSITION, NameToken(p)];
    }
  }

  lemma ThreeTokens(n: Names, a: string, b: string, c: string)
    ensures ReadTokens(n, [a, b]) == ReadToken(ReadToken(n, a), b)
    ensures ReadTokens(n, [a, b, c]) == ReadToken(ReadToken(ReadToken(n, a), b), c)
  {
    hide ReadToken;
    assert [a, b, c][1..] == [b, c] && [b, c][1..] == [c] && [a, b][1..] == [b];
    OneToken(ReadToken(n, a), b);
    OneToken(ReadToken(ReadToken(n, a), b), c);
    assert ReadTokens(ReadToken(n, a), [b, c]) == ReadTokens(ReadToken(ReadToken(n, a), b), [c]);
  }

  lemma OneToken(n: Names, a: string)
    ensures ReadTokens(n, [a]) == ReadToken(n, a)
  {
    assert [a][1..] == [];
  }

  lemma LowerLine(p: Part)
    ensures DISPOSITION_KEY <= ToLower(Line(p))
  {
    hide ToLower, Quoted;
    assert DISPOSITION <= Line(p);
    LowerDisposition();
    LowerPrefix(DISPOSITION, Line(p), DISPOSITION_KEY);
  }

  lemma LowerDisposition()
    ensures DISPOSITION_KEY <= ToLower(DISPOSITION)
  {
  }

  lemma LowerPrefix(prefix: string, s: string, key: string)
    requires prefix <= s && key <= ToLower(prefix)
    ensures key <= ToLower(s)
  {
  }

  lemma TypeLine(n: Names)
    ensures ReadLine(n, TYPE_LINE) == n
  {
    StripSolid(TYPE_LINE, TEXT_SPACES);
    assert TYPE_LINE[8] == 'T' && DISPOSITION_KEY[8] == 'd';
    assert ToLower(TYPE_LINE)[8] == 't';
  }

  /** The reader takes both names off a header. */
  lemma ReadHeader(p: Part)
    requires CleanPart(p)
    ensures ReadLines(Names(None, None), Split(Header(p), "\n")) == NamesOf(p)
  {
    hide Split, ReadLine, Strip, Line;
    var line := Line(p);
    LineIsSolid(p);
    if p.File? {
      CleanOfOne(line + "\r", '\n');
      assert Header(p) == (line + "\r") + "\n" + TYPE_LINE;
      SplitBehind(line + "\r", "\n", TYPE_LINE);
      CleanOfOne(TYPE_LINE, '\n');
      SplitOnce(TYPE_LINE, "\n");
      ReadDisposition(p, line + "\r");
      TypeLine(NamesOf(p));
      TwoLines(Names(None, None), line + "\r", TYPE_LINE);
    } else {
      CleanOfOne(line, '\n');
      assert Header(p) == line;
      SplitOnce(line, "\n");
      ReadDisposition(p, line);
      TwoLines(Names(None, None), line, "");
    }
  }

  lemma TwoLines(n: Names, a: string, b: string)
    ensures ReadLines(n, [a]) == ReadLine(n, a)
    ensures ReadLines(n, [a, b]) == ReadLine(ReadLine(n, a), b)
  {
    hide ReadLine;
    assert [a, b][1..] == [b] && [b][1..] == [] && [a][1..] == [];
    assert ReadLines(ReadLine(n, a), [b]) == ReadLine(ReadLine(n, a), b);
  }

  lemma LineIsSolid(p: Part)
    requires CleanPart(p)
    ensures var line := Line(p); line != "" && '\n' !in line && line[0] == 'C' && line[|line| - 1] == '"'
    ensures Strip(Line(p), TEXT_SPACES) == Line(p)
    ensures Strip(Line(p) + "\r", TEXT_SPACES) == Line(p)
  {
    hide Strip, Quoted;
    var line := Line(p);
    assert '\n' !in DISPOSITION && '\n' !in NAME_KEY && '\n' !in FILENAME_KEY && DISPOSITION[0] == 'C';
    QuotedEnds(p.name);
    if p.File? {
      QuotedEnds(p.filename);
    }
    StripSolid(line, TEXT_SPACES);
    StripEnd(line, "\r", TEXT_SPACES);
  }

  lemma QuotedEnds(s: string)
    requires '\n' !in s
    ensures '\n' !in Quoted(s) && Quoted(s) != "" && Quoted(s)[|Quoted(s)| - 1] == '"'
  {
  }

  lemma StripEnd(s: string, b: string, cs: set<char>)
    requires s != "" && s[0] !in cs && s[|s| - 1] !in cs && Blank(b, cs)
    ensures Strip(s + b, cs) == s
  {
    StripRightBlank(s, b, cs);
    assert (s + b)[0] == s[0];
  }

  // ----- one part

  lemma NoBlankLineInHeader(p: Part)
    requires CleanPart(p)
    ensures var h := Header(p); h != "" && h[0] == 'C' && h[|h| - 1] !in SPACES
    ensures !Occurs(BLANK_LINE, Header(p)) && !Occurs("\n\n", Header(p))
    ensures CleanBefore(Header(p), BLANK_LINE)
  {
    hide Line, Occurs, CleanPart, CleanBefore;
    LineIsSolid(p);
    if p.File? {
      TypeLineIsSolid();
      TwoLineHeader(Line(p), TYPE_LINE);
    } else {
      OneLineEnd(Line(p), |Line(p)| + 1);
    }
  }

  lemma TypeLineIsSolid()
    ensures TYPE_LINE != "" && '\n' !in TYPE_LINE && TYPE_LINE[0] == 'C' && TYPE_LINE[|TYPE_LINE| - 1] == 'm'
  {
  }

  lemma TwoLineHeader(line: string, second: string)
    requires '\n' !in line && '\n' !in second && line != "" && second != "" && second[0] != '\r'
    ensures var h := line + CRLF + second;
            && h[0] == line[0] && h[|h| - 1] == second[|second| - 1]
            && !Occurs(BLANK_LINE, h) && !Occurs("\n\n", h) && CleanBefore(h, BLANK_LINE)
  {
    hide Occurs;
    var h := line + CRLF + second;
    forall i {:trigger h[i]} | 0 <= i < |h| && i != |line| + 1 ensures h[i] != '\n' {
      if i >= |line| + 2 {
        assert h[i] == second[i - |line| - 2];
      } else if i < |line| {
        assert h[i] == line[i];
      }
    }
    assert h[|line| + 2] == second[0];
    OneLineEnd(h, |line| + 1);
  }

  /** A text with one line end at most, not followed by a line end, has no empty line. */
  lemma OneLineEnd(h: string, at: nat)
    requires forall i {:trigger h[i]} :: 0 <= i < |h| && i != at ==> h[i] != '\n'
    requires at + 1 < |h| ==> h[at + 1] != '\r'
    requires at + 1 != |h|
    ensures !Occurs(BLANK_LINE, h) && !Occurs("\n\n", h) && CleanBefore(h, BLANK_LINE)
  {
    forall q: nat ensures !Stands(h, q, BLANK_LINE) && !Stands(h, q, "\n\n") {
      if Stands(h, q, BLANK_LINE) {
        Element(h, q, BLANK_LINE, 1);
        Element(h, q, BLANK_LINE, 3);
      } else if Stands(h, q, "\n\n") {
        Element(h, q, "\n\n", 0);
        Element(h, q, "\n\n", 1);
      }
    }
    var s := h + BLANK_LINE;
    forall q | 0 <= q < |h| ensures !Stands(s, q, BLANK_LINE) {
      if Stands(s, q, BLANK_LINE) {
        Element(s, q, BLANK_LINE, 1);
        Element(s, q, BLANK_LINE, 2);
      }
    }
  }

  /** Stripping a part takes the line ends around it, and the spaces at the end of its data. */
  lemma StripChunk(p: Part)
    requires CleanPart(p)
    ensures Strip(Chunk(p), SPACES) ==
            if Blank(Data(p), SPACES) then Header(p) else Header(p) + BLANK_LINE + StripRight(Data(p), SPACES)
  {
    hide Header, Data, Strip, StripLeft, StripRight;
    NoBlankLineInHeader(p);
    assert Blank(CRLF, SPACES) && Blank(BLANK_LINE, SPACES);
    StripAround(CRLF, Header(p), BLANK_LINE, Data(p), CRLF, SPACES);
  }

  lemma StripAround(a: string, h: string, m: string, data: string, z: string, cs: set<char>)
    requires Blank(a, cs) && Blank(m, cs) && Blank(z, cs) && h != "" && h[0] !in cs && h[|h| - 1] !in cs
    ensures Strip(a + (h + m + data) + z, cs) == if Blank(data, cs) then h else h + m + StripRight(data, cs)
  {
    hide Strip, StripRight, StripLeft;
    var inner := h + m + data;
    assert inner[0] == h[0];
    StripFront(a, inner, z, cs);
    if Blank(data, cs) {
      BlankTail(h, m, data, cs);
    } else {
      StripRightKeeps(h + m, data, cs);
    }
  }

  lemma BlankTail(h: string, m: string, data: string, cs: set<char>)
    requires Blank(m, cs) && Blank(data, cs) && h != "" && h[|h| - 1] !in cs
    ensures StripRight(h + m + data, cs) == h
  {
    assert h + m + data == h + (m + data);
    StripRightBlank(h, m + data, cs);
  }

  lemma StripFront(a: string, s: string, b: string, cs: set<char>)
    requires Blank(a, cs) && Blank(b, cs) && s != "" && s[0] !in cs
    ensures Strip(a + s + b, cs) == StripRight(s, cs)
  {
    hide Blank, StripRight;
    assert a + s + b == a + (s + b);
    StripLeftBlank(a, s + b, cs);
    assert (s + b)[0] == s[0];
    StripRightBlank(s, b, cs);
  }

  lemma CutPart(h: string, data: string)
    requires CleanBefore(h, BLANK_LINE) && data != "" && data[|data| - 1] !in SPACES
    ensures Cut(h + BLANK_LINE + data) == Some((h, data))
  {
    FindBehind(h, BLANK_LINE, data);
    var part := h + BLANK_LINE + data;
    assert part[..|h|] == h && part[|h| + 4..] == data;
    if |data| >= 2 {
      assert data[|data| - 2..][1] == data[|data| - 1];
    }
  }

  lemma NoCut(h: string)
    requires !Occurs(BLANK_LINE, h) && !Occurs("\n\n", h)
    ensures Cut(h) == None
  {
  }

  lemma {:induction false} StripIgnoresTail(x: string, w: string, cs: set<char>)
    requires Blank(w, cs)
    ensures Strip(x + w, cs) == Strip(x, cs)
  {
    if x == [] {
      assert x + w == w;
      StripOfBlank(w, cs);
    } else if x[0] in cs {
      assert (x + w)[1..] == x[1..] + w;
      StripIgnoresTail(x[1..], w, cs);
    } else {
      StripRightBlank(x, w, cs);
    }
  }

  lemma {:induction false} StripRightSplits(s: string, cs: set<char>)
    ensures exists w :: Blank(w, cs) && s == StripRight(s, cs) + w
  {
    if s != [] && s[|s| - 1] in cs {
      StripRightSplits(s[..|s| - 1], cs);
      var w :| Blank(w, cs) && s[..|s| - 1] == StripRight(s, cs) + w;
      assert s == StripRight(s, cs) + (w + [s[|s| - 1]]);
    } else {
      assert Blank([], cs) && s == StripRight(s, cs) + [];
    }
  }

  lemma StripTwice(s: string)
    ensures Strip(StripRight(s, SPACES), TEXT_SPACES) == Strip(s, TEXT_SPACES)
  {
    StripRightSplits(s, SPACES);
    var w :| Blank(w, SPACES) && s == StripRight(s, SPACES) + w;
    StripIgnoresTail(StripRight(s, SPACES), w, TEXT_SPACES);
  }

  /** The reader makes of a part what the part should leave behind. */
  lemma ReadUndoesPrint(u: Upload, p: Part, isOffset: string -> bool)
    requires CleanPart(p)
    ensures ReadPart(u, Chunk(p), isOffset) == Add(u, p, isOffset)
  {
    hide Chunk, Header, Strip, Cut, Split, StripRight, ReadLines, StoreFile;
    StripChunk(p);
    NoBlankLineInHeader(p);
    ReadHeader(p);
    var h, data := Header(p), StripRight(Data(p), SPACES);
    if Blank(Data(p), SPACES) {
      NoCut(h);
    } else {
      StripRightKeeps([], Data(p), SPACES);
      StripRightEnd(Data(p), SPACES);
      CutPart(h, data);
      assert (h + BLANK_LINE + data)[0] == 'C';
      StripTwice(Data(p));
    }
  }

  // ----- the whole body

  /** What follows a delimiter. */
  function Rest(boundary: string, parts: seq<Part>): string {
    if parts == [] then "--\r\n" else Chunk(parts[0]) + Print(boundary, parts[1..])
  }

  lemma PrintIsRest(boundary: string, parts: seq<Part>)
    ensures Print(boundary, parts) == Delimiter(boundary) + Rest(boundary, parts)
  {
    hide Chunk, Delimiter;
    if parts != [] {
      Regroup(Delimiter(boundary), Chunk(parts[0]), Print(boundary, parts[1..]));
    }
  }

  lemma ChunkIsClean(boundary: string, p: Part)
    requires '\n' !in boundary && !Occurs(Delimiter(boundary), Chunk(p))
    ensures CleanBefore(Chunk(p), Delimiter(boundary))
  {
    EndCleans(Chunk(p), Delimiter(boundary));
  }

  /** A separator without a line end does not reach over one. */
  lemma EndCleans(a: string, sep: string)
    requires a != "" && a[|a| - 1] == '\n' && '\n' !in sep && !Occurs(sep, a)
    ensures CleanBefore(a, sep)
  {
    forall q | 0 <= q < |a| ensures !Stands(a + sep, q, sep) {
      if q + |sep| <= |a| {
        assert (a + sep)[q..q + |sep|] == a[q..q + |sep|];
        assert !Stands(a, q, sep);
      } else if Stands(a + sep, q, sep) {
        Element(a + sep, q, sep, |a| - 1 - q);
      }
    }
  }

  lemma LastPiece(boundary: string, u: Upload, isOffset: string -> bool)
    requires boundary != "" && '\r' !in boundary
    ensures ReadParts(u, Split("--\r\n", Delimiter(boundary)), isOffset) == Ok(u)
  {
    var last, sep := "--\r\n", Delimiter(boundary);
    assert sep[2] == boundary[0] && last[2] == '\r' && last[3] == '\n';
    forall q: nat ensures !Stands(last, q, sep) {
      if Stands(last, q, sep) {
        Element(last, q, sep, 2);
      }
    }
    SplitOnce(last, sep);
    StripRightBlank("--", "\r\n", SPACES);
    assert last == "--" + "\r\n";
    assert Strip(last, SPACES) == "--";
    assert [last][1..] == [];
  }

  lemma {:induction false} ReadRest(u: Upload, boundary: string, parts: seq<Part>, isOffset: string -> bool)
    requires Separates(boundary, parts) && forall p :: p in parts ==> CleanPart(p)
    ensures ReadParts(u, Split(Rest(boundary, parts), Delimiter(boundary)), isOffset) == AddAll(u, parts, isOffset)
    decreases |parts|
  {
    hide Chunk, Split, Delimiter, ReadPart, Add, CleanPart;
    if parts == [] {
      LastPiece(boundary, u, isOffset);
    } else {
      var rest := Rest(boundary, parts[1..]);
      ChunkIsClean(boundary, parts[0]);
      PrintIsRest(boundary, parts[1..]);
      DelimiterNotEmpty(boundary);
      SplitBehind(Chunk(parts[0]), Delimiter(boundary), rest);
      assert Rest(boundary, parts) == Chunk(parts[0]) + Delimiter(boundary) + rest;
      var pieces := Split(rest, Delimiter(boundary));
      assert ([Chunk(parts[0])] + pieces)[1..] == pieces;
      ReadUndoesPrint(u, parts[0], isOffset);
      match Add(u, parts[0], isOffset) {
        case Ok(u') => ReadRest(u', boundary, parts[1..], isOffset);
        case _ =>
      }
    }
  }

  lemma DelimiterNotEmpty(boundary: string)
    ensures Delimiter(boundary) != []
  {
  }

  /** The portal makes of what the tool wrote exactly what its parts should leave behind. */
  lemma ReceiveUndoesPrint(boundary: string, parts: seq<Part>, isOffset: string -> bool)
    requires Separates(boundary, parts) && forall p :: p in parts ==> CleanPart(p)
    ensures Receive(Print(boundary, parts), boundary, isOffset) == AddAll(EMPTY, parts, isOffset)
  {
    hide Split, ReadPart, Rest, AddAll, Print;
    var sep := Delimiter(boundary);
    PrintIsRest(boundary, parts);
    assert CleanBefore([], sep);
    SplitBehind([], sep, Rest(boundary, parts));
    assert [] + sep + Rest(boundary, parts) == Print(boundary, parts);
    var pieces := Split(Rest(boundary, parts), sep);
    assert ([""] + pieces)[1..] == pieces;
    EmptyPiece(EMPTY, isOffset);
    ReadRest(EMPTY, boundary, parts, isOffset);
  }

  lemma EmptyPiece(u: Upload, isOffset: string -> bool)
    ensures ReadPart(u, "", isOffset) == Ok(u)
  {
  }

  // ----- other writers

  /** A text that starts and ends with neither white space nor a quote. */
  predicate BareText(s: string) {
    s != "" && Outer(s[0]) && Outer(s[|s| - 1])
  }

  predicate Outer(c: char) {
    c !in TEXT_SPACES && c != '"' && c != '\''
  }

  /** A parameter's value is the same without quotes, in double quotes and in single quotes. */
  lemma QuoteStyles(s: string)
    requires BareText(s)
    ensures Unquote(s) == s && Unquote("\"" + s + "\"") == s && Unquote("'" + s + "'") == s
  {
    hide Strip;
    StripSolid(s, TEXT_SPACES);
    StripSolid(s, {'"'});
    StripSolid(s, {'\''});
    StripSolid("\"" + s + "\"", TEXT_SPACES);
    StripSolid("'" + s + "'", TEXT_SPACES);
    StripSolid("'" + s + "'", {'"'});
    StripQuotes(s);
    assert Quoted(s) == "\"" + s + "\"";
    StripFront("'", s, "'", {'\''});
    StripRightEnd(s, {'\''});
  }

  /** A header that ends in a plain empty line, of a part with no empty line of the other kind. */
  lemma CutAtPlainLine(h: string, data: string)
    requires CleanBefore(h, "\n\n") && !Occurs(BLANK_LINE, h + "\n\n" + data)
    ensures Cut(h + "\n\n" + data) == Some((h, WithoutCrlf(data)))
  {
    var p := h + "\n\n" + data;
    FindBehind(h, "\n\n", data);
    assert p[..|h|] == h && p[|h| + 2..] == data;
  }

  /** The body is framed as RFC 2046 has it, section 5.1.1: a delimiter in front of each part, and at the end the one
      that closes it. */
  lemma {:induction false} PrintFrames(boundary: string, parts: seq<Part>) returns (front: string)
    ensures "--" + boundary <= Print(boundary, parts)
    ensures Print(boundary, parts) == front + ("--" + boundary + "--\r\n")
  {
    hide Chunk;
    front := "";
    if parts != [] {
      var rest := PrintFrames(boundary, parts[1..]);
      front := "--" + boundary + Chunk(parts[0]) + rest;
      Frames("--" + boundary + Chunk(parts[0]), rest, "--" + boundary + "--\r\n");
    }
  }

  /** The disposition line of a field and of a file. */
  lemma FieldLine(p: Part)
    requires p.Field?
    ensures Line(p) == "Content-Disposition: form-data; name=\"" + p.name + "\""
  {
    assert DISPOSITION + ";" + (" " + NAME_KEY + ("\"" + p.name + "\"")) ==
           "Content-Disposition: form-data; name=\"" + p.name + "\"";
  }

  lemma FileLine(p: Part)
    requires p.File?
    ensures Line(p) ==
            "Content-Disposition: form-data; name=\"" + p.name + "\"; filename=\"" + p.filename + "\""
  {
    var name, filename := NameToken(p), FilenameToken(p);
    assert name == " name=\"" + p.name + "\"" && filename == " filename=\"" + p.filename + "\"";
    assert Line(p) == DISPOSITION + ";" + (name + ";" + filename);
  }

  lemma Frames(a: string, b: string, c: string)
    ensures a + (b + c) == a + b + c
  {
  }

  // ----- what is left behind, by name

  /** The upload is not refused on account of this part. */
  predicate Accepted(p: Part, isOffset: string -> bool) {
    Blank(Data(p), SPACES) || p.Field?
    || ('/' !in p.filename && !Occurs("..", p.filename) && (BIN_KEY <= p.name ==> isOffset(p.name[4..])))
  }

  predicate Kept(p: Part) {
    p.File? && p.name != FLASH_ARGS && !Blank(p.content, SPACES)
  }

  /** What one part leaves under a field name, under a file name, and among the offsets. */
  function OwnField(p: Part, name: string): Option<string> {
    if p.Field? && p.name == name && !Blank(p.value, SPACES) then Some(Strip(p.value, TEXT_SPACES)) else None
  }

  function OwnFile(p: Part, filename: string): Option<string> {
    if Kept(p) && p.filename == filename then Some(StripRight(p.content, SPACES)) else None
  }

  function OwnOffset(p: Part): seq<(string, string)> {
    if Kept(p) && BIN_KEY <= p.name then [(p.name[4..], p.filename)] else []
  }

  function OwnArgs(p: Part): Option<string> {
    if p.File? && p.name == FLASH_ARGS && !Blank(p.content, SPACES) then Some(StripRight(p.content, SPACES)) else None
  }

  /** What a part that is not accepted has the upload refused with. */
  predicate RefusedAs(r: Result, p: Part) {
    if p.File? && ('/' in p.filename || Occurs("..", p.filename)) then r == PathTraversal(p.filename)
    else r == InvalidOffset(p.name)
  }

  function OrElse(first: Option<string>, second: Option<string>): Option<string> {
    if first.Some? then first else second
  }

  /** The last field of that name that is not blank; earlier ones, and blank ones, are lost. */
  function LastField(parts: seq<Part>, name: string): Option<string> {
    if parts == [] then None else OrElse(LastField(parts[1..], name), OwnField(parts[0], name))
  }

  /** The content kept under a file name: that of the last file of that name that is not blank. */
  function LastFile(parts: seq<Part>, filename: string): Option<string> {
    if parts == [] then None else OrElse(LastFile(parts[1..], filename), OwnFile(parts[0], filename))
  }

  /** The content of the last file of esptool arguments that is not blank. */
  function LastArgs(parts: seq<Part>): Option<string> {
    if parts == [] then None else OrElse(LastArgs(parts[1..]), OwnArgs(parts[0]))
  }

  function Offsets(parts: seq<Part>): seq<(string, string)> {
    if parts == [] then [] else OwnOffset(parts[0]) + Offsets(parts[1..])
  }

  function Lookup(m: map<string, string>, key: string): Option<string> {
    if key in m then Some(m[key]) else None
  }

  lemma AddByName(u: Upload, p: Part, isOffset: string -> bool, key: string)
    ensures var r := Add(u, p, isOffset);
            && (r.Ok? <==> Accepted(p, isOffset)) && (!r.Ok? ==> RefusedAs(r, p))
            && (r.Ok? ==> && Lookup(r.upload.fields, key) == OrElse(OwnField(p, key), Lookup(u.fields, key))
                          && Lookup(r.upload.files, key) == OrElse(OwnFile(p, key), Lookup(u.files, key))
                          && r.upload.offsets == u.offsets + OwnOffset(p)
                          && r.upload.flashArgs == OrElse(OwnArgs(p), u.flashArgs))
  {
    hide Blank, Occurs, Strip, StripRight;
    assert FLASH_ARGS[0] == 'f' && BIN_KEY[0] == 'b';
  }

  /** An upload, part by part: refused exactly when a part is, as the first such part has it refused; and otherwise each
      name holds what its last part with data left, and the offsets stand in order. */
  lemma {:induction false} AddAllByName(u: Upload, parts: seq<Part>, isOffset: string -> bool, key: string)
    ensures var r := AddAll(u, parts, isOffset);
            && (r.Ok? <==> forall p :: p in parts ==> Accepted(p, isOffset))
            && (forall i :: (0 <= i < |parts| && !Accepted(parts[i], isOffset)
                             && forall j :: 0 <= j < i ==> Accepted(parts[j], isOffset)) ==> RefusedAs(r, parts[i]))
            && (r.Ok? ==> && Lookup(r.upload.fields, key) == OrElse(LastField(parts, key), Lookup(u.fields, key))
                          && Lookup(r.upload.files, key) == OrElse(LastFile(parts, key), Lookup(u.files, key))
                          && r.upload.offsets == u.offsets + Offsets(parts)
                          && r.upload.flashArgs == OrElse(LastArgs(parts), u.flashArgs))
    decreases |parts|
  {
    hide Add, Accepted, OwnField, OwnFile, OwnOffset, OwnArgs, RefusedAs, Lookup;
    if parts != [] {
      AddByName(u, parts[0], isOffset, key);
      match Add(u, parts[0], isOffset) {
        case Ok(u') =>
          AddAllByName(u', parts[1..], isOffset, key);
        case _ =>
          assert !Accepted(parts[0], isOffset);
      }
    }
  }

  // ----- the flash tool

  datatype Bin = Bin(offset: string, basename: string, content: string)

  datatype FlashArgs = FlashArgs(slot: string, chip: string, baud: string, erase: bool, bins: seq<Bin>)

  function FlashFields(args: FlashArgs): seq<(string, string)> {
    [("slot", args.slot), ("chip", args.chip), ("baud", args.baud)] + if args.erase then [("erase", "1")] else []
  }

  function BinFiles(bins: seq<Bin>): (files: seq<(string, string, string)>)
    ensures |files| == |bins|
  {
    seq(|bins|, i requires 0 <= i < |bins| => (BIN_KEY + bins[i].offset, bins[i].basename, bins[i].content))
  }

  method UploadParts(args: FlashArgs) returns (fields: seq<(string, string)>, files: seq<(string, string, string)>)
    ensures fields == FlashFields(args) && files == BinFiles(args.bins)
  {
    fields := [("slot", args.slot), ("chip", args.chip), ("baud", args.baud)];
    if args.erase {
      fields := fields + [("erase", "1")];
    }
    files := [];
    for i := 0 to |args.bins|
      invariant |files| == i && files == BinFiles(args.bins)[..i]
    {
      var bin := args.bins[i];
      files := files + [(BIN_KEY + bin.offset, bin.basename, bin.content)];
    }
  }

  function FlashParts(args: FlashArgs): seq<Part> {
    Parts(FlashFields(args), BinFiles(args.bins))
  }

  predicate Intact(content: string) {
    content != "" && content[|content| - 1] !in SPACES
  }

  predicate SolidText(s: string) {
    s != "" && Strip(s, TEXT_SPACES) == s
  }

  /** The portal knows what the tool was told. */
  predicate Delivered(u: Upload, args: FlashArgs) {
    && Lookup(u.fields, "slot") == Some(args.slot)
    && Lookup(u.fields, "chip") == Some(args.chip)
    && Lookup(u.fields, "baud") == Some(args.baud)
    && Lookup(u.fields, "erase") == (if args.erase then Some("1") else None)
    && |u.offsets| == |args.bins|
    && forall i :: 0 <= i < |args.bins| ==>
         && u.offsets[i] == (args.bins[i].offset, args.bins[i].basename)
         && Lookup(u.files, args.bins[i].basename) == Some(args.bins[i].content)
  }

  /** What the tool has to be told for that: texts and images that do not start or end where stripping bites, and
      no two different images under one base name. */
  predicate Sendable(args: FlashArgs) {
    && SolidText(args.slot) && SolidText(args.chip) && SolidText(args.baud)
    && BinsSendable(args.bins)
  }

  predicate Wellformed(args: FlashArgs, isOffset: string -> bool) {
    forall i :: 0 <= i < |args.bins| ==>
      '/' !in args.bins[i].basename && !Occurs("..", args.bins[i].basename) && isOffset(args.bins[i].offset)
  }

  lemma {:induction false} ByNameConcat(a: seq<Part>, b: seq<Part>, key: string)
    ensures LastField(a + b, key) == OrElse(LastField(b, key), LastField(a, key))
    ensures LastFile(a + b, key) == OrElse(LastFile(b, key), LastFile(a, key))
    ensures Offsets(a + b) == Offsets(a) + Offsets(b)
  {
    hide OwnField, OwnFile, OwnOffset;
    if a == [] {
      assert a + b == b;
    } else {
      var all := a + b;
      assert all[0] == a[0] && all[1..] == a[1..] + b;
      ByNameConcat(a[1..], b, key);
    }
  }

  lemma {:induction false} OnlyFiles(parts: seq<Part>, key: string)
    requires forall p :: p in parts ==> p.File?
    ensures LastField(parts, key) == None
  {
    if parts != [] {
      assert parts[0] in parts;
      OnlyFiles(parts[1..], key);
    }
  }

  lemma {:induction false} OnlyFields(parts: seq<Part>, key: string)
    requires forall p :: p in parts ==> p.Field?
    ensures LastFile(parts, key) == None && Offsets(parts) == []
  {
    if parts != [] {
      assert parts[0] in parts;
      OnlyFields(parts[1..], key);
    }
  }

  /** The file that gives a base name its content. */
  lemma {:induction false} Winner(parts: seq<Part>, i: nat) returns (j: nat)
    requires i < |parts| && Kept(parts[i])
    ensures j < |parts| && Kept(parts[j]) && parts[j].filename == parts[i].filename
    ensures LastFile(parts, parts[i].filename) == Some(StripRight(parts[j].content, SPACES))
  {
    hide Blank, StripRight;
    var f := parts[i].filename;
    if LastFile(parts[1..], f).Some? {
      var k :| 0 <= k < |parts[1..]| && Kept(parts[1..][k]) && parts[1..][k].filename == f by {
        SomeKept(parts[1..], f);
      }
      j := Winner(parts[1..], k);
      j := j + 1;
    } else {
      if i > 0 {
        var k := Winner(parts[1..], i - 1);
        assert false;
      }
      j := 0;
    }
  }

  lemma {:induction false} SomeKept(parts: seq<Part>, f: string)
    requires LastFile(parts, f).Some?
    ensures exists k :: 0 <= k < |parts| && Kept(parts[k]) && parts[k].filename == f
  {
    if LastFile(parts[1..], f).Some? {
      SomeKept(parts[1..], f);
      var k :| 0 <= k < |parts[1..]| && Kept(parts[1..][k]) && parts[1..][k].filename == f;
      assert Kept(parts[k + 1]) && parts[k + 1].filename == f;
    } else {
      assert Kept(parts[0]) && parts[0].filename == f;
    }
  }

  /** Every image has its offset exactly when none is blank. */
  lemma {:induction false} EveryOffset(parts: seq<Part>)
    requires forall p :: p in parts ==> p.File? && BIN_KEY <= p.name && p.name != FLASH_ARGS
    ensures |Offsets(parts)| <= |parts|
    ensures |Offsets(parts)| == |parts| <==> forall i :: 0 <= i < |parts| ==> Kept(parts[i])
    ensures |Offsets(parts)| == |parts| ==>
              forall i :: 0 <= i < |parts| ==> Offsets(parts)[i] == (parts[i].name[4..], parts[i].filename)
  {
    hide Kept;
    if parts != [] {
      EveryOffset(parts[1..]);
      assert forall i :: 0 < i < |parts| ==> parts[i] == parts[1..][i - 1];
    }
  }

  function FieldParts(args: FlashArgs): seq<Part> {
    [Field("slot", args.slot), Field("chip", args.chip), Field("baud", args.baud)] +
    if args.erase then [Field("erase", "1")] else []
  }

  function BinParts(bins: seq<Bin>): (parts: seq<Part>)
    ensures |parts| == |bins|
    ensures forall p :: p in parts ==> p.File? && BIN_KEY <= p.name && p.name != FLASH_ARGS
  {
    assert BIN_KEY[0] == 'b' && FLASH_ARGS[0] == 'f';
    seq(|bins|, i requires 0 <= i < |bins| => File(BIN_KEY + bins[i].offset, bins[i].basename, bins[i].content))
  }

  lemma FlashPartsSplit(args: FlashArgs)
    ensures FlashParts(args) == FieldParts(args) + BinParts(args.bins)
  {
    var parts := Parts(FlashFields(args), BinFiles(args.bins));
    assert parts == FieldParts(args) + BinParts(args.bins);
  }

  lemma OneField(p: Part, key: string)
    ensures LastField([p], key) == OwnField(p, key)
  {
    hide OwnField;
    assert [p][1..] == [];
  }

  lemma ThreeFields(a: Part, b: Part, c: Part, key: string)
    ensures LastField([a, b, c], key) == OrElse(OwnField(c, key), OrElse(OwnField(b, key), OwnField(a, key)))
  {
    hide OwnField, LastField;
    OneField(a, key);
    OneField(b, key);
    OneField(c, key);
    ByNameConcat([a], [b], key);
    ByNameConcat([a] + [b], [c], key);
    assert [a] + [b] + [c] == [a, b, c];
  }

  /** A text field of the tool, by its name. */
  lemma FieldByName(args: FlashArgs, key: string)
    ensures LastField(FieldParts(args), key) ==
            OrElse(if args.erase then OwnField(Field("erase", "1"), key) else None,
              OrElse(OwnField(Field("baud", args.baud), key),
                OrElse(OwnField(Field("chip", args.chip), key), OwnField(Field("slot", args.slot), key))))
  {
    hide OwnField, LastField;
    var a, b, c, d := Field("slot", args.slot), Field("chip", args.chip), Field("baud", args.baud), Field("erase", "1");
    ThreeFields(a, b, c, key);
    if args.erase {
      OneField(d, key);
      ByNameConcat([a, b, c], [d], key);
    } else {
      assert [a, b, c] + [] == [a, b, c];
    }
  }

  lemma FourFields(args: FlashArgs)
    ensures var fs := FieldParts(args);
            && LastField(fs, "slot") == OwnField(Field("slot", args.slot), "slot")
            && LastField(fs, "chip") == OwnField(Field("chip", args.chip), "chip")
            && LastField(fs, "baud") == OwnField(Field("baud", args.baud), "baud")
            && LastField(fs, "erase") == if args.erase then Some("1") else None
  {
    hide Strip, Blank, LastField, FieldParts;
    assert "slot"[0] == 's' && "chip"[0] == 'c' && "baud"[0] == 'b' && "erase"[0] == 'e';
    FieldByName(args, "slot");
    FieldByName(args, "chip");
    FieldByName(args, "baud");
    FieldByName(args, "erase");
    EraseField();
  }

  lemma EraseField()
    ensures OwnField(Field("erase", "1"), "erase") == Some("1")
  {
    StripSolid("1", TEXT_SPACES);
    assert "1"[0] !in SPACES;
  }

  lemma SolidField(name: string, value: string)
    ensures OwnField(Field(name, value), name) == Some(value) <==> SolidText(value)
  {
    if Blank(value, SPACES) {
      StripLeftBlank(value, [], TEXT_SPACES);
      StripOfBlank(value, TEXT_SPACES);
    }
  }

  predicate BinsDelivered(bins: seq<Bin>) {
    var parts := BinParts(bins);
    && |Offsets(parts)| == |bins|
    && forall i :: 0 <= i < |bins| ==>
         && Offsets(parts)[i] == (bins[i].offset, bins[i].basename)
         && LastFile(parts, bins[i].basename) == Some(bins[i].content)
  }

  predicate BinsSendable(bins: seq<Bin>) {
    && (forall i :: 0 <= i < |bins| ==> Intact(bins[i].content))
    && (forall i, j :: 0 <= i < j < |bins| && bins[i].basename == bins[j].basename ==>
        bins[i].content == bins[j].content)
  }

  /** One image: what stands under its base name in the end. */
  lemma BinWinner(bins: seq<Bin>, i: nat) returns (j: nat)
    requires i < |bins| && !Blank(bins[i].content, SPACES)
    ensures j < |bins| && bins[j].basename == bins[i].basename && !Blank(bins[j].content, SPACES)
    ensures LastFile(BinParts(bins), bins[i].basename) == Some(StripRight(bins[j].content, SPACES))
  {
    hide Blank, StripRight, LastFile;
    j := Winner(BinParts(bins), i);
  }

  lemma BinOffsets(bins: seq<Bin>)
    ensures var offsets := Offsets(BinParts(bins));
            && (|offsets| == |bins| <==> forall i :: 0 <= i < |bins| ==> !Blank(bins[i].content, SPACES))
            && (|offsets| == |bins| ==> forall i :: 0 <= i < |bins| ==>
                offsets[i] == (bins[i].offset, bins[i].basename))
  {
    hide Blank, Offsets;
    var parts := BinParts(bins);
    EveryOffset(parts);
    assert forall i :: 0 <= i < |bins| ==> Kept(parts[i]) == !Blank(bins[i].content, SPACES);
    assert forall i :: 0 <= i < |bins| ==> parts[i].name[4..] == bins[i].offset;
  }

  /** The images and their offsets arrive exactly when each image is intact and equal base names mean equal
      images. */
  lemma BinsArrive(bins: seq<Bin>)
    ensures BinsDelivered(bins) <==> BinsSendable(bins)
  {
    hide Blank, StripRight, LastFile, Offsets, BinParts, Intact;
    BinOffsets(bins);
    if BinsDelivered(bins) {
      forall i | 0 <= i < |bins| ensures Intact(bins[i].content) {
        var j := BinWinner(bins, i);
        StrippedIsIntact(bins[j].content);
      }
    } else if BinsSendable(bins) {
      forall i | 0 <= i < |bins| ensures !Blank(bins[i].content, SPACES) {
        IntactIsKept(bins[i].content);
      }
      forall i | 0 <= i < |bins| ensures LastFile(BinParts(bins), bins[i].basename) == Some(bins[i].content) {
        var j := BinWinner(bins, i);
        IntactIsKept(bins[j].content);
        assert bins[i].content == bins[j].content;
      }
    }
  }

  lemma StrippedIsIntact(content: string)
    requires !Blank(content, SPACES)
    ensures Intact(StripRight(content, SPACES))
  {
    StripRightEnd(content, SPACES);
    StripRightKeeps([], content, SPACES);
  }

  lemma IntactIsKept(content: string)
    ensures Intact(content) <==> !Blank(content, SPACES) && StripRight(content, SPACES) == content
  {
    StripRightEnd(content, SPACES);
    if Intact(content) {
      assert content[|content| - 1] in content;
    }
  }

  lemma FieldPartsAreFields(args: FlashArgs)
    ensures forall p :: p in FieldParts(args) ==> p.Field?
  {
  }

  /** The names that the portal looks up, read off the parts of a flash upload. */
  lemma FlashByName(args: FlashArgs, key: string)
    ensures LastField(FlashParts(args), key) == LastField(FieldParts(args), key)
    ensures LastFile(FlashParts(args), key) == LastFile(BinParts(args.bins), key)
    ensures Offsets(FlashParts(args)) == Offsets(BinParts(args.bins))
  {
    hide LastField, LastFile, Offsets, FieldParts, BinParts, FlashParts;
    FlashPartsSplit(args);
    FieldPartsAreFields(args);
    ByNameConcat(FieldParts(args), BinParts(args.bins), key);
    OnlyFields(FieldParts(args), key);
    OnlyFiles(BinParts(args.bins), key);
  }

  lemma FlashAccepted(args: FlashArgs, isOffset: string -> bool)
    ensures (forall p :: p in FlashParts(args) ==> Accepted(p, isOffset)) <==>
            forall i :: 0 <= i < |args.bins| ==> Accepted(BinParts(args.bins)[i], isOffset)
  {
    hide Accepted, FieldParts, BinParts, FlashParts;
    FlashPartsSplit(args);
    FieldsAccepted(args, isOffset);
    var bins := BinParts(args.bins);
    assert forall p :: p in FlashParts(args) <==> p in FieldParts(args) || p in bins;
    assert forall i :: 0 <= i < |args.bins| ==> bins[i] in bins;
  }

  lemma FieldsAccepted(args: FlashArgs, isOffset: string -> bool)
    ensures forall p :: p in FieldParts(args) ==> Accepted(p, isOffset)
  {
    FieldPartsAreFields(args);
  }

  lemma BinAccepted(bins: seq<Bin>, i: nat, isOffset: string -> bool)
    requires i < |bins|
    ensures Accepted(BinParts(bins)[i], isOffset) <==>
            Blank(bins[i].content, SPACES) ||
            ('/' !in bins[i].basename && !Occurs("..", bins[i].basename) && isOffset(bins[i].offset))
  {
    hide Blank, Occurs;
    assert (BIN_KEY + bins[i].offset)[4..] == bins[i].offset;
  }

  /** The flash tool's upload arrives: the portal takes it, with exactly the texts, the images and the offsets the
      tool was given, if and only if the texts are solid, each image is intact, base names do not hide one
      another, and no base name or offset is refused. */
  lemma FlashArrives(boundary: string, args: FlashArgs, isOffset: string -> bool)
    requires Separates(boundary, FlashParts(args)) && forall p :: p in FlashParts(args) ==> CleanPart(p)
    ensures var r := Receive(Print(boundary, FlashParts(args)), boundary, isOffset);
            r.Ok? && Delivered(r.upload, args) <==> Sendable(args) && Wellformed(args, isOffset)
  {
    hide Receive, Print, Separates, CleanPart, FlashParts, FieldParts, BinParts, LastField, LastFile, Offsets,
      Accepted, AddAll,
      SolidText, Intact, BinsSendable;
    var parts := FlashParts(args);
    ReceiveUndoesPrint(boundary, parts, isOffset);
    var r := AddAll(EMPTY, parts, isOffset);
    forall key
      ensures r.Ok? <==> forall p :: p in parts ==> Accepted(p, isOffset)
      ensures r.Ok? ==> && Lookup(r.upload.fields, key) == LastField(FieldParts(args), key)
                        && Lookup(r.upload.files, key) == LastFile(BinParts(args.bins), key)
                        && r.upload.offsets == Offsets(BinParts(args.bins))
    {
      AddAllByName(EMPTY, parts, isOffset, key);
      FlashByName(args, key);
    }
    FlashAccepted(args, isOffset);
    FlashTexts(args);
    BinsArrive(args.bins);
    if BinsSendable(args.bins) {
      FlashBins(args, isOffset);
    }
  }

  lemma FlashTexts(args: FlashArgs)
    ensures var fs := FieldParts(args);
            && (LastField(fs, "slot") == Some(args.slot) <==> SolidText(args.slot))
            && (LastField(fs, "chip") == Some(args.chip) <==> SolidText(args.chip))
            && (LastField(fs, "baud") == Some(args.baud) <==> SolidText(args.baud))
            && (LastField(fs, "erase") == if args.erase then Some("1") else None)
  {
    hide OwnField, LastField, FieldParts;
    FourFields(args);
    SolidField("slot", args.slot);
    SolidField("chip", args.chip);
    SolidField("baud", args.baud);
  }

  lemma FlashBins(args: FlashArgs, isOffset: string -> bool)
    requires BinsSendable(args.bins)
    ensures (forall i :: 0 <= i < |args.bins| ==> Accepted(BinParts(args.bins)[i], isOffset)) <==>
        Wellformed(args, isOffset)
  {
    hide Accepted, BinParts, Blank, Occurs;
    forall i | 0 <= i < |args.bins| ensures !Blank(args.bins[i].content, SPACES) {
      IntactIsKept(args.bins[i].content);
    }
    forall i | 0 <= i < |args.bins|
      ensures Accepted(BinParts(args.bins)[i], isOffset) <==>
              ('/' !in args.bins[i].basename && !Occurs("..", args.bins[i].basename) && isOffset(args.bins[i].offset)) {
      BinAccepted(args.bins, i, isOffset);
    }
  }
}
