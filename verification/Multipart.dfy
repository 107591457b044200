/** Multipart forms (RFC 7578): what the client writes, what the proxy reads back, and the
    field it adds in between. A byte is a `char` here. */
module Multipart {
  import opened Text

  datatype Part =
    | Field(name: string, value: string)
    | File(name: string, filename: string, content: string)
  {
    function Payload(): string {
      if Field? then value else content
    }
  }

  const BLANK_LINE := "\r\n\r\n"
  const DISPOSITION := "Content-Disposition: form-data; " + "name="
  const FILENAME := "; file" + "name="
  const TYPE := "Content-Type: application/octet-strea"
  const OCTETS := TYPE + "m"
  const QUOTE := "\""

  // ------------------------------------------------------------------ printing

  function Header(p: Part): string {
    match p
    case Field(name, _) => DISPOSITION + QUOTE + name + QUOTE
    case File(name, filename, _) =>
      DISPOSITION + QUOTE + name + QUOTE + FILENAME + QUOTE + filename + QUOTE + CRLF + OCTETS
  }

  /** What stands between two delimiters. */
  function Segment(p: Part): string {
    CRLF + Header(p) + BLANK_LINE + p.Payload() + CRLF
  }

  function Delimiter(boundary: string): string {
    "--" + boundary
  }

  function Printed(parts: seq<Part>, boundary: string): string {
    Delimiter(boundary) + Tail(parts, boundary)
  }

  /** What follows the first delimiter. */
  function Tail(parts: seq<Part>, boundary: string): string {
    if parts == [] then "--" + CRLF
    else Segment(parts[0]) + Delimiter(boundary) + Tail(parts[1..], boundary)
  }

  // -------------------------------------------------------------------- reading

  const NEWLINES := {'\r', '\n'}
  const HEAD_EDGES := {'\r', '\n', ' ', '-'}

  datatype Piece = Piece(head: string, payload: string)

  function ReadPiece(raw: string): Option<Piece> {
    if Find(raw, BLANK_LINE) == -1 then None
    else
      var head := TrimBoth(Ahead(raw, BLANK_LINE), HEAD_EDGES);
      if head == "" then None else Some(Piece(head, After(raw, BLANK_LINE)))
  }

  function ReadPieces(raws: seq<string>): seq<Piece> {
    if raws == [] then []
    else
      var p := ReadPiece(raws[0]);
      (if p.Some? then [p.value] else []) + ReadPieces(raws[1..])
  }

  function Parts(body: string, boundary: string): seq<Piece> {
    var r := SplitOn(body, Delimiter(boundary));
    ReadPieces(r.pieces + [r.rest])
  }

  function FirstLine(s: string): string {
    if Find(s, CRLF) == -1 then s else Ahead(s, CRLF)
  }

  /** A payload as a field value. */
  function Cleaned(payload: string): string {
    TrimBoth(FirstLine(TrimBoth(payload, NEWLINES)), BLANKS)
  }

  function Named(name: string): string {
    "name=" + QUOTE + name + QUOTE
  }

  predicate IsNamed(piece: Piece, name: string) {
    Find(piece.head, Named(name)) != -1
  }

  function FieldIn(pieces: seq<Piece>, name: string): Option<string> {
    if pieces == [] then None
    else if IsNamed(pieces[0], name) && Cleaned(pieces[0].payload) != "" then Some(Cleaned(pieces[0].payload))
    else FieldIn(pieces[1..], name)
  }

  /** The group of the pattern `key"([^"]*)"`. */
  function Matched(s: string, key: string): Option<string> {
    if Find(s, key + QUOTE) == -1 then None
    else
      var rest := After(s, key + QUOTE);
      if Find(rest, QUOTE) == -1 then None else Some(Ahead(rest, QUOTE))
  }

  function FilenameIn(head: string): Option<string> {
    Matched(head, "filename=")
  }

  datatype Upload = Upload(filename: string, content: string)

  function UploadOf(piece: Piece): Upload {
    var f := FilenameIn(piece.head);
    Upload(if f.Some? && f.value != "" then f.value else "upload", RTrim(piece.payload, NEWLINES))
  }

  function FileIn(pieces: seq<Piece>): Option<Upload> {
    if pieces == [] then None
    else if IsNamed(pieces[0], "file") then Some(UploadOf(pieces[0]))
    else FileIn(pieces[1..])
  }

  /** `bytes.replace`. */
  function Replace(s: string, sep: string, other: string): string
    requires sep != ""
    decreases |s|
  {
    if Find(s, sep) == -1 then s
    else
      AroundTag(s, sep);
      Ahead(s, sep) + other + Replace(After(s, sep), sep, other)
  }

  function Injected(body: string, boundary: string, name: string, value: string): string {
    var closing := Delimiter(boundary) + "--";
    if FieldIn(Parts(body, boundary), name).Some? || Find(body, closing) == -1 then body
    else Replace(body, closing, Delimiter(boundary) + Segment(Field(name, value)) + closing)
  }

  // ---------------------------------------------------- the code that does it

  method RequestMultipart(fields: seq<(string, string)>, files: seq<(string, string, string)>, boundary: string)
    returns (body: string)
    ensures body == Printed(FieldParts(fields) + FileParts(files), boundary)
  {
    hide Segment, Delimiter, Opened, Printed, CRLF;
    Closing([], boundary);
    ghost var parts := [];
    body := "";
    for i := 0 to |fields|
      invariant parts == FieldParts(fields[..i]) && body == Opened(parts, boundary)
    {
      var (name, value) := fields[i];
      OpenedMore(parts, Field(name, value), boundary);
      assert fields[..i + 1] == fields[..i] + [fields[i]];
      body := ExtendField(body, name, value, boundary);
      parts := parts + [Field(name, value)];
    }
    assert fields[..|fields|] == fields;
    for i := 0 to |files|
      invariant parts == FieldParts(fields) + FileParts(files[..i]) && body == Opened(parts, boundary)
    {
      var (name, filename, content) := files[i];
      OpenedMore(parts, File(name, filename, content), boundary);
      assert files[..i + 1] == files[..i] + [files[i]];
      body := ExtendFile(body, name, filename, content, boundary);
      parts := parts + [File(name, filename, content)];
    }
    assert files[..|files|] == files;
    Closing(parts, boundary);
    return body + ("--" + boundary + "--" + CRLF);
  }

  lemma Closing(parts: seq<Part>, boundary: string)
    ensures Opened(parts, boundary) + ("--" + boundary + "--" + CRLF) == Printed(parts, boundary)
    ensures Opened([], boundary) == ""
  {
    OpenedCloses(parts, boundary);
    var d := Delimiter(boundary);
    assert d == "--" + boundary && Opened([], boundary) == "";
    hide Delimiter, CRLF, Printed, Opened;
    Assoc(d, "--", CRLF);
    Assoc(Opened(parts, boundary), d, "--" + CRLF);
  }

  method ExtendField(body: string, name: string, value: string, boundary: string) returns (more: string)
    ensures more == body + Delimiter(boundary) + Segment(Field(name, value))
  {
    FieldExtends(body, name, value, boundary);
    hide Delimiter, Segment, DISPOSITION, QUOTE, CRLF, BLANK_LINE;
    more := body + ("--" + boundary + CRLF);
    more := more + (DISPOSITION + QUOTE + name + QUOTE + BLANK_LINE);
    more := more + value;
    more := more + CRLF;
  }

  method ExtendFile(body: string, name: string, filename: string, content: string, boundary: string)
    returns (more: string)
    ensures more == body + Delimiter(boundary) + Segment(File(name, filename, content))
  {
    FileExtends(body, name, filename, content, boundary);
    hide Delimiter, Segment, DISPOSITION, FILENAME, OCTETS, QUOTE, CRLF, BLANK_LINE;
    more := body + ("--" + boundary + CRLF);
    more := more + (DISPOSITION + QUOTE + name + QUOTE + FILENAME + QUOTE + filename + QUOTE + CRLF);
    more := more + (OCTETS + BLANK_LINE);
    more := more + content;
    more := more + CRLF;
  }

  lemma FieldExtends(body: string, name: string, value: string, boundary: string)
    ensures body + ("--" + boundary + CRLF) + (DISPOSITION + QUOTE + name + QUOTE + BLANK_LINE) + value + CRLF
         == body + Delimiter(boundary) + Segment(Field(name, value))
  {
    var d, h := Delimiter(boundary), DISPOSITION + QUOTE + name + QUOTE;
    assert Header(Field(name, value)) == h;
    hide Delimiter, Header, DISPOSITION, QUOTE, CRLF, BLANK_LINE;
    Regroup(body, d, h, value);
  }

  lemma FileExtends(body: string, name: string, filename: string, content: string, boundary: string)
    ensures body + ("--" + boundary + CRLF)
            + (DISPOSITION + QUOTE + name + QUOTE + FILENAME + QUOTE + filename + QUOTE + CRLF)
            + (OCTETS + BLANK_LINE) + content + CRLF
         == body + Delimiter(boundary) + Segment(File(name, filename, content))
  {
    var line := DISPOSITION + QUOTE + name + QUOTE + FILENAME + QUOTE + filename + QUOTE + CRLF;
    assert Header(File(name, filename, content)) == line + OCTETS;
    var start := body + ("--" + boundary + CRLF);
    hide Delimiter, Header, DISPOSITION, FILENAME, OCTETS, QUOTE, CRLF, BLANK_LINE;
    Assoc(start + line, OCTETS, BLANK_LINE);
    Assoc(start, line, OCTETS);
    Assoc(start, line + OCTETS, BLANK_LINE);
    Regroup(body, Delimiter(boundary), line + OCTETS, content);
  }

  lemma Regroup(body: string, d: string, h: string, payload: string)
    ensures body + (d + CRLF) + (h + BLANK_LINE) + payload + CRLF
         == body + d + (CRLF + h + BLANK_LINE + payload + CRLF)
  {
    hide CRLF, BLANK_LINE;
    Assoc(body, d, CRLF);
    var start := body + d;
    Assoc(start + CRLF, h, BLANK_LINE);
    Assoc(start, CRLF, h);
    Assoc(start, CRLF + h, BLANK_LINE);
    Assoc(start, CRLF + h + BLANK_LINE, payload);
    Assoc(start, CRLF + h + BLANK_LINE + payload, CRLF);
  }

  function FieldParts(fields: seq<(string, string)>): seq<Part> {
    seq(|fields|, i requires 0 <= i < |fields| => Field(fields[i].0, fields[i].1))
  }

  function FileParts(files: seq<(string, string, string)>): seq<Part> {
    seq(|files|, i requires 0 <= i < |files| => File(files[i].0, files[i].1, files[i].2))
  }

  /** Everything in front of the closing delimiter. */
  function Opened(parts: seq<Part>, boundary: string): string {
    if parts == [] then "" else Delimiter(boundary) + Segment(parts[0]) + Opened(parts[1..], boundary)
  }

  lemma {:induction false} OpenedMore(parts: seq<Part>, p: Part, boundary: string)
    ensures Opened(parts + [p], boundary) == Opened(parts, boundary) + Delimiter(boundary) + Segment(p)
  {
    hide Segment, Delimiter;
    if parts == [] {
      assert [p][1..] == [] && [] + [p] == [p];
    } else {
      assert (parts + [p])[1..] == parts[1..] + [p];
      OpenedMore(parts[1..], p, boundary);
    }
  }

  lemma {:induction false} OpenedCloses(parts: seq<Part>, boundary: string)
    ensures Opened(parts, boundary) + Delimiter(boundary) + ("--" + CRLF) == Printed(parts, boundary)
  {
    var d, close := Delimiter(boundary), "--" + CRLF;
    if parts == [] {
      assert "" + d == d;
    } else {
      var rest := parts[1..];
      OpenedCloses(rest, boundary);
      hide Segment, Delimiter, Opened, Tail;
      Assoc(d + Segment(parts[0]), Opened(rest, boundary), d);
      Assoc(d + Segment(parts[0]), Opened(rest, boundary) + d, close);
      Assoc(d, Segment(parts[0]), d + Tail(rest, boundary));
      Assoc(Segment(parts[0]), d, Tail(rest, boundary));
      PrintedStep(parts, boundary);
    }
  }

  lemma PrintedStep(parts: seq<Part>, boundary: string)
    requires parts != []
    ensures Printed(parts, boundary)
         == Delimiter(boundary) + (Segment(parts[0]) + Delimiter(boundary) + Tail(parts[1..], boundary))
    ensures Opened(parts, boundary) == Delimiter(boundary) + Segment(parts[0]) + Opened(parts[1..], boundary)
  {
    hide Segment, Delimiter;
  }

  method MultipartParts(body: string, boundary: Option<string>) returns (parts: seq<Piece>)
    ensures parts == if boundary.None? then [] else Parts(body, boundary.value)
  {
    if boundary.None? { return []; }
    hide SplitOn, ReadPiece, ReadPieces;
    var r := SplitOn(body, Delimiter(boundary.value));
    var raws := r.pieces + [r.rest];
    parts := [];
    NoPieces(raws);
    for i := 0 to |raws|
      invariant parts + ReadPieces(raws[i..]) == ReadPieces(raws)
    {
      ReadPiecesFrom(raws, i, parts);
      var p := ReadPiece(raws[i]);
      if p.None? { continue; }
      parts := parts + [p.value];
    }
    NoPieces(raws);
  }

  lemma ReadPiecesFrom(raws: seq<string>, i: nat, parts: seq<Piece>)
    requires i < |raws|
    ensures var p := ReadPiece(raws[i]);
            parts + ReadPieces(raws[i..])
            == if p.None? then parts + ReadPieces(raws[i + 1..]) else (parts + [p.value]) + ReadPieces(raws[i + 1..])
  {
    hide ReadPiece;
    assert raws[i..][0] == raws[i] && raws[i..][1..] == raws[i + 1..];
    var p := ReadPiece(raws[i]);
    Assoc(parts, if p.Some? then [p.value] else [], ReadPieces(raws[i + 1..]));
  }

  lemma NoPieces(raws: seq<string>)
    ensures raws[0..] == raws && ReadPieces(raws[|raws|..]) == []
  {
  }

  method MultipartField(body: string, boundary: Option<string>, name: string) returns (value: Option<string>)
    ensures value == if boundary.None? then None else FieldIn(Parts(body, boundary.value), name)
  {
    hide Parts, IsNamed, Cleaned;
    var parts := MultipartParts(body, boundary);
    for i := 0 to |parts|
      invariant FieldIn(parts[i..], name) == FieldIn(parts, name)
    {
      assert parts[i..][0] == parts[i] && parts[i..][1..] == parts[i + 1..];
      if IsNamed(parts[i], name) {
        var cleaned := Cleaned(parts[i].payload);
        if cleaned != "" { return Some(cleaned); }
      }
    }
    return None;
  }

  method MultipartFile(body: string, boundary: Option<string>) returns (upload: Option<Upload>)
    ensures upload == if boundary.None? then None else FileIn(Parts(body, boundary.value))
  {
    hide Parts, IsNamed, UploadOf;
    var parts := MultipartParts(body, boundary);
    for i := 0 to |parts|
      invariant FileIn(parts[i..]) == FileIn(parts)
    {
      assert parts[i..][0] == parts[i] && parts[i..][1..] == parts[i + 1..];
      if !IsNamed(parts[i], "file") { continue; }
      return Some(UploadOf(parts[i]));
    }
    return None;
  }

  method MultipartInjectField(body: string, boundary: Option<string>, name: string, value: string)
    returns (r: string)
    ensures r == if boundary.None? then body else Injected(body, boundary.value, name, value)
  {
    hide Parts, FieldIn, Replace, Find, Segment;
    if boundary.None? { return body; }
    var present := MultipartField(body, boundary, name);
    if present.Some? { return body; }
    var delimiter := Delimiter(boundary.value);
    var closing := delimiter + "--";
    if Find(body, closing) == -1 { return body; }
    return Replace(body, closing, delimiter + Segment(Field(name, value)) + closing);
  }
}
