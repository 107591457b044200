/** Reading back what was written: for every well-formed form the proxy's readers see exactly
    the fields and files the client wrote, and an added field disturbs none of them. */
module MultipartTheorems {
  import opened Text
  import opened Multipart

  predicate Without(s: string, c: char) {
    forall i :: 0 <= i < |s| ==> s[i] != c
  }

  /** What may stand between quotes in a header. */
  predicate Quotable(s: string) {
    Without(s, '"') && Find(s, BLANK_LINE) == -1
  }

  /** The names of a part can stand in its header. */
  predicate Headable(p: Part) {
    Quotable(p.name) && (p.File? ==> Quotable(p.filename))
  }

  predicate GoodBoundary(boundary: string) {
    boundary != "" && Without(boundary, '\r') && Without(boundary, '\n')
  }

  /** Names and file names can stand in a header, and the delimiter does not occur in the part
      (section 5.1.1 of RFC 2046). */
  predicate WellFormed(p: Part, boundary: string) {
    Headable(p) && Find(Segment(p), Delimiter(boundary)) == -1
  }

  predicate GoodForm(parts: seq<Part>, boundary: string) {
    GoodBoundary(boundary) && forall p :: p in parts ==> WellFormed(p, boundary)
  }

  // ------------------------------------------------------------------ splitting

  /** A delimiter cannot start in a part and end behind it: parts end with a newline. */
  lemma FirstDelimiter(seg: string, d: string, tail: string)
    requires d != "" && seg != "" && Find(seg, d) == -1 && Without(d, seg[|seg| - 1])
    ensures Find(seg + d + tail, d) == |seg|
  {
    var all := seg + d + tail;
    assert all == seg + (d + tail);
    assert At(all, d, |seg|) by { assert all[|seg|..|seg| + |d|] == d; }
    hide FindFrom;
    var i := Find(all, d);
    if i < |seg| {
      if i + |d| <= |seg| {
        AtAppend(seg, d + tail, d, i);
      } else {
        AtChar(all, d, i, |seg| - 1 - i);
      }
    }
  }

  function Segments(parts: seq<Part>): seq<string> {
    if parts == [] then [] else [Segment(parts[0])] + Segments(parts[1..])
  }

  lemma SegmentEnds(p: Part)
    ensures var s := Segment(p); |s| > 2 && s[0] == '\r' && s[|s| - 1] == '\n'
  {
    hide Header;
    var front := CRLF + Header(p) + BLANK_LINE + p.Payload();
    assert Segment(p) == front + CRLF;
  }

  lemma DelimiterShape(boundary: string)
    requires GoodBoundary(boundary)
    ensures var d := Delimiter(boundary); |d| > 2 && Without(d, '\r') && Without(d, '\n')
    ensures Find("--" + CRLF, Delimiter(boundary)) == -1
  {
    var d, close := Delimiter(boundary), "--" + CRLF;
    var i := Find(close, d);
    if i != -1 {
      AtChar(close, d, i, 0);
      AtChar(close, d, i, 2);
    }
  }

  lemma {:induction false} SplitTail(parts: seq<Part>, boundary: string)
    requires GoodForm(parts, boundary)
    ensures SplitOn(Tail(parts, boundary), Delimiter(boundary)) == Split(Segments(parts), "--" + CRLF)
  {
    DelimiterShape(boundary);
    if parts != [] {
      var p, rest := parts[0], parts[1..];
      assert WellFormed(p, boundary);
      SegmentEnds(p);
      SplitTail(rest, boundary);
      var d, tail := Delimiter(boundary), Tail(rest, boundary);
      hide Segment, Delimiter, SplitOn, Find;
      FirstDelimiter(Segment(p), d, tail);
      SplitStep(Tail(parts, boundary), d, Segment(p), tail);
    }
  }

  lemma SplitLead(d: string, tail: string)
    requires d != ""
    ensures SplitOn(d + tail, d) == Split([""], "").Then(SplitOn(tail, d))
  {
    assert At(d + tail, d, 0) by { assert (d + tail)[0..|d|] == d; }
    assert "" + d == d;
    hide FindFrom, SplitOn;
    SplitStep(d + tail, d, "", tail);
  }

  lemma SplitPrinted(parts: seq<Part>, boundary: string)
    requires GoodForm(parts, boundary)
    ensures SplitOn(Printed(parts, boundary), Delimiter(boundary))
         == Split([""] + Segments(parts), "--" + CRLF)
  {
    DelimiterShape(boundary);
    hide CRLF, GoodForm, Delimiter, Tail, SplitOn, Segments;
    SplitTail(parts, boundary);
    SplitLead(Delimiter(boundary), Tail(parts, boundary));
  }

  // --------------------------------------------------------- reading one part

  function PieceOf(p: Part): Piece {
    Piece(Header(p), p.Payload() + CRLF)
  }

  function Pieces(parts: seq<Part>): seq<Piece> {
    if parts == [] then [] else [PieceOf(parts[0])] + Pieces(parts[1..])
  }

  /** No tag can stand across a character that does not occur in it. */
  lemma Barrier(a: string, c: char, b: string, tag: string)
    requires tag != "" && Without(tag, c) && Find(a, tag) == -1 && Find(b, tag) == -1
    ensures Find(a + [c] + b, tag) == -1
  {
    var s := a + [c] + b;
    assert s == a + ([c] + b) && s == (a + [c]) + b;
    hide FindFrom;
    var i := Find(s, tag);
    AtAppend(a, [c] + b, tag, i);
    AtAppend(a + [c], b, tag, i);
    if 0 <= i <= |a| < i + |tag| { AtChar(s, tag, i, |a| - i); }
  }

  /** The first tag, behind such a character. */
  lemma FirstBehind(a: string, c: char, tag: string, rest: string)
    requires tag != "" && Without(tag, c) && Find(a, tag) == -1
    ensures Find((a + [c]) + (tag + rest), tag) == |a| + 1
  {
    var s := (a + [c]) + (tag + rest);
    assert s == a + ([c] + (tag + rest));
    assert At(s, tag, |a| + 1) by { assert s[|a| + 1..|a| + 1 + |tag|] == tag; }
    hide FindFrom;
    var i := Find(s, tag);
    AtAppend(a, [c] + (tag + rest), tag, i);
    if i <= |a| < i + |tag| { AtChar(s, tag, i, |a| - i); }
  }

  /** A header but for its last character. */
  function Most(p: Part): string {
    match p
    case Field(name, _) => (CRLF + DISPOSITION) + QUOTE + name
    case File(name, filename, _) =>
      (((CRLF + DISPOSITION) + QUOTE + name) + QUOTE + FILENAME) + QUOTE + filename + QUOTE + (CRLF + TYPE)
  }

  function LastOf(p: Part): char {
    if p.Field? then '"' else 'm'
  }

  /** No blank line stands in a header, so the first one is the one behind it. */
  lemma HeaderEnds(p: Part, rest: string)
    requires Headable(p)
    ensures var h := CRLF + Header(p);
            h == Most(p) + [LastOf(p)] && Find(h + (BLANK_LINE + rest), BLANK_LINE) == |h|
  {
    Blankless();
    assert QUOTE == ['"'] && OCTETS == TYPE + ['m'];
    hide DISPOSITION, FILENAME, OCTETS, TYPE, CRLF, BLANK_LINE, QUOTE, Find;
    var front := CRLF + DISPOSITION;
    Barrier(front, '"', p.name, BLANK_LINE);
    if p.File? {
      Barrier(front + QUOTE + p.name, '"', FILENAME, BLANK_LINE);
      var line := front + QUOTE + p.name + QUOTE + FILENAME;
      Barrier(line, '"', p.filename, BLANK_LINE);
      Barrier(line + QUOTE + p.filename, '"', CRLF + TYPE, BLANK_LINE);
      FileHeader(p.name, p.filename, p.content);
    } else {
      assert CRLF + (DISPOSITION + QUOTE + p.name + QUOTE) == front + QUOTE + p.name + QUOTE;
    }
    FirstBehind(Most(p), LastOf(p), BLANK_LINE, rest);
  }

  lemma FileHeader(name: string, filename: string, content: string)
    ensures var p := File(name, filename, content); CRLF + Header(p) == Most(p) + ['m']
  {
    assert OCTETS == TYPE + ['m'];
    hide DISPOSITION, FILENAME, OCTETS, TYPE, CRLF, QUOTE;
    var line := DISPOSITION + QUOTE + name + QUOTE + FILENAME + QUOTE + filename + QUOTE;
    Assoc(line, CRLF, OCTETS);
    Assoc(CRLF, line, CRLF + OCTETS);
    Assoc(CRLF + line, CRLF + TYPE, ['m']);
    Assoc(CRLF, TYPE, ['m']);
    FrontOf(name, filename);
  }

  lemma FrontOf(name: string, filename: string)
    ensures CRLF + (DISPOSITION + QUOTE + name + QUOTE + FILENAME + QUOTE + filename + QUOTE)
         == (((CRLF + DISPOSITION) + QUOTE + name) + QUOTE + FILENAME) + QUOTE + filename + QUOTE
  {
    hide *;
    var a := DISPOSITION + QUOTE + name;
    Assoc(CRLF, DISPOSITION + QUOTE, name);
    Assoc(CRLF, DISPOSITION, QUOTE);
    Assoc(CRLF, a + QUOTE + FILENAME + QUOTE + filename, QUOTE);
    Assoc(CRLF, a + QUOTE + FILENAME + QUOTE, filename);
    Assoc(CRLF, a + QUOTE + FILENAME, QUOTE);
    Assoc(CRLF, a + QUOTE, FILENAME);
    Assoc(CRLF, a, QUOTE);
  }

  lemma HeaderEdges(p: Part)
    ensures var h := Header(p); h != "" && h[0] !in HEAD_EDGES && h[|h| - 1] !in HEAD_EDGES
  {
    Literals();
    hide DISPOSITION, FILENAME, OCTETS, CRLF, BLANK_LINE, HEAD_EDGES;
  }

  /** All that the proofs need to know about the fixed parts of a header. */
  lemma Literals()
    ensures DISPOSITION != "" && DISPOSITION[0] !in HEAD_EDGES && Without(DISPOSITION, '"')
    ensures Without(FILENAME, '"') && Without(TYPE, '"') && Without(OCTETS, '"') && Without(CRLF, '"')
    ensures OCTETS != "" && OCTETS[|OCTETS| - 1] !in HEAD_EDGES && '"' !in HEAD_EDGES
  {
  }

  lemma Blankless()
    ensures BLANK_LINE != "" && Without(BLANK_LINE, '"') && Without(BLANK_LINE, 'm')
    ensures Find(CRLF + DISPOSITION, BLANK_LINE) == -1 && Find(FILENAME, BLANK_LINE) == -1
    ensures Find(CRLF + TYPE, BLANK_LINE) == -1
  {
    NoReturns();
    assert "" + FILENAME == FILENAME;
    hide DISPOSITION, FILENAME, TYPE, CRLF, Find;
    NoBlankLine(CRLF, DISPOSITION);
    NoBlankLine("", FILENAME);
    NoBlankLine(CRLF, TYPE);
  }

  lemma NoReturns()
    ensures Without(DISPOSITION, '\r') && Without(FILENAME, '\r') && Without(TYPE, '\r')
  {
  }

  lemma NoBlankLine(a: string, line: string)
    requires (a == "" || a == CRLF) && Without(line, '\r')
    ensures Find(a + line, BLANK_LINE) == -1
  {
    hide FindFrom;
    var i := Find(a + line, BLANK_LINE);
    if i != -1 { BlankAt(a + line, i); }
  }

  lemma BlankAt(s: string, i: int)
    requires At(s, BLANK_LINE, i)
    ensures s[i] == '\r' && s[i + 2] == '\r'
  {
    AtChar(s, BLANK_LINE, i, 0);
    AtChar(s, BLANK_LINE, i, 2);
  }

  lemma TrimKeeps(s: string, cs: set<char>)
    requires s == "" || (s[0] !in cs && s[|s| - 1] !in cs)
    ensures TrimBoth(s, cs) == s
  {
  }

  lemma TrimPair(a: char, b: char, h: string, cs: set<char>)
    requires a in cs && b in cs && h != "" && h[0] !in cs && h[|h| - 1] !in cs
    ensures TrimBoth([a, b] + h, cs) == h
  {
    hide *;
    var s := [a] + ([b] + h);
    PairInFrontOf(a, b, h);
    RTrimNone(s, cs);
    RTrimNone(h, cs);
    LTrimOne(a, [b] + h, cs);
    LTrimOne(b, h, cs);
    TrimIs(s, cs);
    TrimIs(h, cs);
    TrimKeeps(h, cs);
  }

  lemma PairInFrontOf(a: char, b: char, h: string)
    requires h != ""
    ensures var s := [a] + ([b] + h); s == [a, b] + h && s[|s| - 1] == h[|h| - 1]
  {
  }

  lemma TrimIs(s: string, cs: set<char>)
    ensures TrimBoth(s, cs) == LTrim(RTrim(s, cs), cs)
  {
  }

  lemma RTrimNone(s: string, cs: set<char>)
    requires s == "" || s[|s| - 1] !in cs
    ensures RTrim(s, cs) == s
  {
  }

  lemma LTrimOne(c: char, s: string, cs: set<char>)
    requires c in cs
    ensures LTrim([c] + s, cs) == LTrim(s, cs)
  {
    assert ([c] + s)[1..] == s;
  }

  lemma RTrimOne(s: string, c: char, cs: set<char>)
    requires c in cs
    ensures RTrim(s + [c], cs) == RTrim(s, cs)
  {
    assert (s + [c])[..|s|] == s;
  }

  lemma TrimHead(h: string)
    requires h != "" && h[0] !in HEAD_EDGES && h[|h| - 1] !in HEAD_EDGES
    ensures TrimBoth(CRLF + h, HEAD_EDGES) == h
  {
    assert '\r' in HEAD_EDGES && '\n' in HEAD_EDGES && CRLF == ['\r', '\n'];
    hide HEAD_EDGES, CRLF, TrimBoth;
    TrimPair('\r', '\n', h, HEAD_EDGES);
  }

  lemma ReadSegment(p: Part)
    requires Headable(p)
    ensures ReadPiece(Segment(p)) == Some(PieceOf(p))
  {
    hide *;
    var h, rest := CRLF + Header(p), p.Payload() + CRLF;
    HeaderEdges(p);
    HeaderEnds(p, rest);
    TrimHead(Header(p));
    SegmentIs(p);
    ReadIs(Segment(p), h, Header(p), rest);
    PieceIs(p);
  }

  lemma PieceIs(p: Part)
    ensures PieceOf(p) == Piece(Header(p), p.Payload() + CRLF)
  {
  }

  lemma SegmentIs(p: Part)
    ensures Segment(p) == (CRLF + Header(p)) + (BLANK_LINE + (p.Payload() + CRLF))
  {
    hide CRLF, BLANK_LINE, Header;
    Assoc(CRLF + Header(p) + BLANK_LINE, p.Payload(), CRLF);
    Assoc(CRLF + Header(p), BLANK_LINE, p.Payload() + CRLF);
  }

  lemma ReadIs(raw: string, h: string, head: string, rest: string)
    requires raw == h + (BLANK_LINE + rest) && Find(raw, BLANK_LINE) == |h|
    requires TrimBoth(h, HEAD_EDGES) == head != ""
    ensures ReadPiece(raw) == Some(Piece(head, rest))
  {
    hide BLANK_LINE, HEAD_EDGES, TrimBoth, Find, Ahead, After;
    AroundTagIs(raw, BLANK_LINE, h, rest);
  }

  lemma ReadEdges()
    ensures ReadPiece("") == None && ReadPiece("--" + CRLF) == None
  {
  }

  lemma {:induction false} ReadSegments(parts: seq<Part>)
    requires forall p :: p in parts ==> Headable(p)
    ensures ReadPieces(Segments(parts) + ["--" + CRLF]) == Pieces(parts)
  {
    var last := "--" + CRLF;
    ReadEdges();
    hide ReadPiece, Segment, PieceOf;
    if parts == [] {
      assert [] + [last] == [last] && [last][1..] == [];
    } else {
      ReadSegment(parts[0]);
      ReadSegments(parts[1..]);
      assert (Segments(parts) + [last])[1..] == Segments(parts[1..]) + [last];
    }
  }

  /** The reader finds one piece for every part, with its header and its payload. */
  lemma PartsOfPrinted(parts: seq<Part>, boundary: string)
    requires GoodForm(parts, boundary)
    ensures Parts(Printed(parts, boundary), boundary) == Pieces(parts)
  {
    SplitPrinted(parts, boundary);
    FormNames(parts, boundary);
    hide *;
    ReadSegments(parts);
    var raws := Segments(parts) + ["--" + CRLF];
    SkipFirst(raws);
    Assoc([""], Segments(parts), ["--" + CRLF]);
    PartsAre(Printed(parts, boundary), boundary);
  }

  lemma FormNames(parts: seq<Part>, boundary: string)
    requires GoodForm(parts, boundary)
    ensures forall p :: p in parts ==> Headable(p)
  {
    hide Headable, Find;
    assert forall p :: p in parts ==> WellFormed(p, boundary);
  }

  lemma SkipFirst(raws: seq<string>)
    ensures ReadPieces([""] + raws) == ReadPieces(raws)
  {
    ReadEdges();
    hide ReadPiece;
    assert ([""] + raws)[1..] == raws;
  }

  lemma PartsAre(body: string, boundary: string)
    ensures var r := SplitOn(body, Delimiter(boundary)); Parts(body, boundary) == ReadPieces(r.pieces + [r.rest])
  {
  }

  // ------------------------------------------------------ names between quotes

  /** Texts without quotes, joined by quotes. */
  function Quoted(ps: seq<string>): string
    requires ps != []
  {
    if |ps| == 1 then ps[0] else ps[0] + QUOTE + Quoted(ps[1..])
  }

  predicate Unquoted(ps: seq<string>) {
    forall k :: 0 <= k < |ps| ==> Without(ps[k], '"')
  }

  /** Some text ends with `key`, and the next one, in quotes, is `x`. */
  predicate KeyIn(ps: seq<string>, key: string, x: string) {
    |ps| >= 3 && ((EndsWith(ps[0], key) && ps[1] == x) || KeyIn(ps[1..], key, x))
  }

  /** Where `key` and an opening quote can stand when the first quote follows `p`. */
  lemma KeyOccurs(p: string, rest: string, key: string, y: string, i: int)
    requires key != "" && Without(p, '"') && Without(key, '"')
    ensures At(p + (QUOTE + rest), key + (QUOTE + y), i) <==>
            || (i == |p| - |key| && EndsWith(p, key) && StartsWith(rest, y))
            || (i > |p| && At(rest, key + (QUOTE + y), i - |p| - 1))
  {
    var all, sought := p + (QUOTE + rest), key + (QUOTE + y);
    if At(all, sought, i) && i <= |p| {
      AtChar(all, sought, i, |key|);
      if i + |key| != |p| { AtChar(all, sought, i, |p| - i); }
      KeyHere(p, rest, key, y);
    }
    if i == |p| - |key| && EndsWith(p, key) && StartsWith(rest, y) { KeyHere(p, rest, key, y); }
    if i > |p| {
      assert all == (p + QUOTE) + rest;
      AtAppend(p + QUOTE, rest, sought, i);
    }
  }

  lemma KeyHere(p: string, rest: string, key: string, y: string)
    requires |key| <= |p|
    ensures At(p + (QUOTE + rest), key + (QUOTE + y), |p| - |key|)
       <==> EndsWith(p, key) && StartsWith(rest, y)
  {
    var n := |p| - |key|;
    var all, sought := p + (QUOTE + rest), key + (QUOTE + y);
    if n + |sought| <= |all| {
      var part := all[n..n + |sought|];
      assert part == p[n..] + (QUOTE + rest[0..|y|]);
      assert part == sought <==> p[n..] == key && rest[0..|y|] == y by {
        assert part[..|key|] == p[n..] && part[|key| + 1..] == rest[0..|y|];
        assert sought[..|key|] == key && sought[|key| + 1..] == y;
      }
    }
  }

  lemma NoKeyInLast(p: string, key: string, y: string, i: int)
    requires Without(p, '"')
    ensures !At(p, key + (QUOTE + y), i)
  {
    if At(p, key + (QUOTE + y), i) { AtChar(p, key + (QUOTE + y), i, |key|); }
  }

  lemma QuotedStep(ps: seq<string>)
    requires |ps| > 1
    ensures Quoted(ps) == ps[0] + (QUOTE + Quoted(ps[1..]))
  {
  }

  /** A quoted text at the front is the first one between quotes. */
  lemma StartsQuoted(ps: seq<string>, x: string)
    requires ps != [] && Unquoted(ps) && Without(x, '"')
    ensures StartsWith(Quoted(ps), x + QUOTE) <==> |ps| > 1 && ps[0] == x
  {
    if |ps| == 1 {
      if At(ps[0], x + QUOTE, 0) { AtChar(ps[0], x + QUOTE, 0, |x|); }
    } else {
      QuotedStep(ps);
      hide Quoted, StartsWith;
      UpToQuote(ps[0], Quoted(ps[1..]), x);
    }
  }

  lemma UpToQuote(p: string, rest: string, x: string)
    requires Without(p, '"') && Without(x, '"')
    ensures StartsWith(p + (QUOTE + rest), x + QUOTE) <==> p == x
  {
    var all, sought := p + (QUOTE + rest), x + QUOTE;
    if StartsWith(all, sought) {
      AtChar(all, sought, 0, |x|);
      if |x| > |p| {
        AtChar(all, sought, 0, |p|);
      } else {
        forall k | 0 <= k < |x| ensures p[k] == x[k] {
          AtChar(all, sought, 0, k);
        }
      }
    }
    if p == x { assert all[0..|sought|] == sought; }
  }

  /** Searching the joined text for a key and a quoted text is searching the list. */
  lemma {:induction false} FindQuoted(ps: seq<string>, key: string, x: string)
    requires ps != [] && Unquoted(ps) && key != "" && Without(key, '"') && Without(x, '"')
    ensures Find(Quoted(ps), key + (QUOTE + (x + QUOTE))) != -1 <==> KeyIn(ps, key, x)
  {
    var y := x + QUOTE;
    var sought := key + (QUOTE + y);
    var i := Find(Quoted(ps), sought);
    if |ps| == 1 {
      NoKeyInLast(ps[0], key, y, i);
    } else {
      var rest := ps[1..];
      FindQuoted(rest, key, x);
      QuotedStep(ps);
      StartsQuoted(rest, x);
      var j := Find(Quoted(rest), sought);
      hide FindFrom, Quoted, At;
      KeyOccurs(ps[0], Quoted(rest), key, y, i);
      KeyOccurs(ps[0], Quoted(rest), key, y, |ps[0]| - |key|);
      KeyOccurs(ps[0], Quoted(rest), key, y, j + |ps[0]| + 1);
    }
  }

  /** The name or the file name. Behind a file part's name that itself ends in `name=` the
      closing quote looks like an opening one, so such a part also answers to what follows. */
  predicate Answers(p: Part, name: string) {
    p.name == name || (p.File? && (p.filename == name || (EndsWith(p.name, "name=") && name == FILENAME)))
  }

  lemma HeaderIsQuoted(p: Part)
    requires Headable(p)
    ensures var ps := Spelled(p); Unquoted(ps) && Quoted(ps) == Header(p)
  {
    NoQuotes(p);
    match p
    case Field(name, _) =>
      hide DISPOSITION, Quoted;
      QuotedTwo(DISPOSITION, name, "");
      assert DISPOSITION + QUOTE + name + QUOTE + "" == DISPOSITION + QUOTE + name + QUOTE;
    case File(name, filename, _) =>
      hide DISPOSITION, FILENAME, OCTETS, CRLF, Quoted, QUOTE;
      QuotedFour(DISPOSITION, name, FILENAME, filename, CRLF + OCTETS);
      Assoc(DISPOSITION + QUOTE + name + QUOTE + FILENAME + QUOTE + filename + QUOTE, CRLF, OCTETS);
  }

  lemma NoQuotes(p: Part)
    requires Headable(p)
    ensures Unquoted(Spelled(p))
  {
    Literals();
    hide DISPOSITION, FILENAME, OCTETS, CRLF, Find;
  }

  lemma QuotedFour(a: string, b: string, c: string, d: string, e: string)
    ensures Quoted([a, b, c, d, e]) == a + QUOTE + b + QUOTE + c + QUOTE + d + QUOTE + e
  {
    hide QUOTE, Quoted;
    QuotedTwo(c, d, e);
    QuotedStep([b, c, d, e]);
    QuotedStep([a, b, c, d, e]);
    assert [b, c, d, e][1..] == [c, d, e] && [a, b, c, d, e][1..] == [b, c, d, e];
    var tail := c + QUOTE + d + QUOTE + e;
    Assoc(a + QUOTE, b, QUOTE + tail);
    Assoc(a, QUOTE, b + (QUOTE + tail));
    Assoc(a + QUOTE + b, QUOTE, tail);
    var front := a + QUOTE + b + QUOTE;
    Assoc(front, c + QUOTE + d + QUOTE, e);
    Assoc(front, c + QUOTE + d, QUOTE);
    Assoc(front, c + QUOTE, d);
    Assoc(front, c, QUOTE);
  }

  /** A header, cut at its quotes. */
  function Spelled(p: Part): seq<string> {
    if p.Field? then [DISPOSITION, p.name, ""] else [DISPOSITION, p.name, FILENAME, p.filename, CRLF + OCTETS]
  }

  lemma QuotedTwo(a: string, b: string, c: string)
    ensures Quoted([a, b, c]) == a + QUOTE + b + QUOTE + c
  {
    assert [a, b, c][1..] == [b, c] && [b, c][1..] == [c];
    QuotedStep([a, b, c]);
    QuotedStep([b, c]);
    assert a + (QUOTE + (b + (QUOTE + c))) == a + QUOTE + b + QUOTE + c;
  }

  /** A part's header contains a field name in quotes exactly when the part answers to it. */
  lemma NamedIff(p: Part, name: string)
    requires Headable(p)
    requires Without(name, '"')
    ensures IsNamed(PieceOf(p), name) <==> Answers(p, name)
  {
    var ps := Spelled(p);
    HeaderIsQuoted(p);
    Keyed(p, name);
    assert Without("name=", '"');
    assert Named(name) == "name=" + (QUOTE + (name + QUOTE));
    assert IsNamed(PieceOf(p), name) <==> Find(Quoted(ps), Named(name)) != -1;
    hide Spelled, Header, Quoted, Find, KeyIn, Named, IsNamed, Answers;
    FindQuoted(ps, "name=", name);
    assert Find(Quoted(ps), Named(name)) != -1 <==> KeyIn(ps, "name=", name);
  }

  lemma Keyed(p: Part, name: string)
    ensures KeyIn(Spelled(p), "name=", name) <==> Answers(p, name)
  {
    Endings();
    hide DISPOSITION, FILENAME, OCTETS, EndsWith;
    KeyInThree(DISPOSITION, p.name, "", "name=", name);
    if p.File? {
      KeyInFive(DISPOSITION, p.name, FILENAME, p.filename, CRLF + OCTETS, "name=", name);
    }
  }

  lemma Endings()
    ensures EndsWith(DISPOSITION, "name=") && EndsWith(FILENAME, "name=")
  {
    EndsWithSelf("Content-Disposition: form-data; ", "name=");
    EndsWithSelf("; file", "name=");
  }

  lemma EndsWithSelf(s: string, tag: string)
    ensures EndsWith(s + tag, tag)
  {
  }

  lemma EndsWithChar(s: string, tag: string, k: nat)
    requires EndsWith(s, tag) && k < |tag|
    ensures s[|s| - |tag| + k] == tag[k]
  {
    assert s[|s| - |tag|..][k] == tag[k];
  }

  lemma KeyInThree(a: string, b: string, c: string, key: string, x: string)
    ensures KeyIn([a, b, c], key, x) <==> EndsWith(a, key) && b == x
  {
    assert [a, b, c][1..] == [b, c];
  }

  lemma KeyInFive(a: string, b: string, c: string, d: string, e: string, key: string, x: string)
    ensures KeyIn([a, b, c, d, e], key, x) <==>
            (EndsWith(a, key) && b == x) || (EndsWith(b, key) && c == x) || (EndsWith(c, key) && d == x)
  {
    assert [a, b, c, d, e][1..] == [b, c, d, e] && [b, c, d, e][1..] == [c, d, e];
    KeyInThree(c, d, e, key, x);
  }

  // ------------------------------------------------------------ the file's name

  /** The quoted text after the first text that ends with `key`. */
  function ValueAfter(ps: seq<string>, key: string): Option<string> {
    if |ps| <= 1 then None
    else if EndsWith(ps[0], key) then (if |ps| > 2 then Some(ps[1]) else None)
    else ValueAfter(ps[1..], key)
  }

  lemma FirstQuote(ps: seq<string>)
    requires ps != [] && Unquoted(ps)
    ensures Find(Quoted(ps), QUOTE) == if |ps| == 1 then -1 else |ps[0]|
  {
    var s := Quoted(ps);
    if |ps| > 1 {
      QuotedStep(ps);
      assert s[|ps[0]|..|ps[0]| + 1] == QUOTE;
      assert At(s, QUOTE, |ps[0]|);
    }
    hide FindFrom, Quoted;
    var i := Find(s, QUOTE);
    if i != -1 { AtChar(s, QUOTE, i, 0); }
  }

  lemma {:induction false} MatchedIs(ps: seq<string>, key: string)
    requires ps != [] && Unquoted(ps) && key != "" && Without(key, '"')
    ensures Matched(Quoted(ps), key) == ValueAfter(ps, key)
  {
    var s, sought := Quoted(ps), key + (QUOTE + "");
    assert QUOTE + "" == QUOTE;
    var i := Find(s, sought);
    if |ps| == 1 {
      NoKeyInLast(ps[0], key, "", i);
    } else {
      var p, rest := ps[0], Quoted(ps[1..]);
      QuotedStep(ps);
      MatchedIs(ps[1..], key);
      FirstQuote(ps[1..]);
      var j := Find(rest, sought);
      assert StartsWith(rest, "");
      hide FindFrom, Quoted, At, StartsWith;
      KeyOccurs(p, rest, key, "", i);
      KeyOccurs(p, rest, key, "", |p| - |key|);
      KeyOccurs(p, rest, key, "", j + |p| + 1);
      if EndsWith(p, key) {
        assert i == |p| - |key|;
        AfterKey(p, rest, sought, i);
        if |ps| > 2 { QuotedStep(ps[1..]); }
      } else if j != -1 {
        assert i == j + |p| + 1;
        AfterLater(p, rest, sought, j);
      }
    }
  }

  lemma AfterKey(p: string, rest: string, sought: string, i: nat)
    requires Find(p + (QUOTE + rest), sought) == i && i + |sought| == |p| + 1
    ensures After(p + (QUOTE + rest), sought) == rest
  {
  }

  lemma AfterLater(p: string, rest: string, sought: string, j: nat)
    requires Find(rest, sought) == j && Find(p + (QUOTE + rest), sought) == j + |p| + 1
    ensures After(p + (QUOTE + rest), sought) == After(rest, sought)
  {
    AroundTag(rest, sought);
  }

  /** The file name that is read; behind a part name that ends in `filename=` it is not the
      one that was written. */
  function ReadName(p: Part): string
    requires p.File?
  {
    if EndsWith(p.name, "filename=") then FILENAME else p.filename
  }

  lemma FilenameRead(p: Part)
    requires Headable(p)
    ensures FilenameIn(Header(p)) == if p.File? then Some(ReadName(p)) else None
  {
    var ps, key := Spelled(p), "filename=";
    HeaderIsQuoted(p);
    assert Without(key, '"');
    MatchedIs(ps, key);
    FilenameKeyed(p);
    hide Spelled, Header, Quoted, Find, Headable;
  }

  lemma FilenameKeyed(p: Part)
    ensures ValueAfter(Spelled(p), "filename=") == if p.File? then Some(ReadName(p)) else None
  {
    FilenameEndings();
    hide DISPOSITION, FILENAME, OCTETS, EndsWith;
    assert [DISPOSITION, p.name, ""][1..] == [p.name, ""];
    assert [p.name, ""][1..] == [""];
    var ps := Spelled(p);
    assert ValueAfter(ps, "filename=") == ValueAfter(ps[1..], "filename=");
    if p.File? {
      var tail := [FILENAME, p.filename, CRLF + OCTETS];
      assert ps[1..] == [p.name] + tail && ([p.name] + tail)[1..] == tail;
      assert ValueAfter(tail, "filename=") == Some(p.filename);
    } else {
      assert ValueAfter([""], "filename=") == None;
    }
  }

  lemma FilenameEndings()
    ensures !EndsWith(DISPOSITION, "filename=") && EndsWith(FILENAME, "filename=")
  {
    assert FILENAME == "; " + "filename=";
    EndsWithSelf("; ", "filename=");
    if EndsWith(DISPOSITION, "filename=") {
      EndsWithChar(DISPOSITION, "filename=", 3);
    }
  }

  // ---------------------------------------------------------------- the values

  lemma TrimNewline(s: string)
    ensures RTrim(s + CRLF, NEWLINES) == RTrim(s, NEWLINES)
  {
    assert s + CRLF == (s + ['\r']) + ['\n'];
    RTrimOne(s + ['\r'], '\n', NEWLINES);
    RTrimOne(s, '\r', NEWLINES);
  }

  lemma CleanedPayload(p: Part)
    ensures Cleaned(PieceOf(p).payload) == Cleaned(p.Payload())
  {
    TrimNewline(p.Payload());
    hide RTrim, LTrim, FirstLine;
  }

  /** A value that survives: no blank at either end and no line break. */
  predicate Tidy(value: string) {
    (value == "" || (value[0] !in BLANKS && value[|value| - 1] !in BLANKS)) && Find(value, CRLF) == -1
  }

  /** A field value is read back unchanged exactly when it is tidy. */
  lemma CleanedIff(value: string)
    ensures Cleaned(value) == value <==> Tidy(value)
  {
    var trimmed := TrimBoth(value, NEWLINES);
    var line := FirstLine(trimmed);
    assert NEWLINES <= BLANKS;
    if Tidy(value) {
      TrimKeeps(value, NEWLINES);
      TrimKeeps(value, BLANKS);
    } else if Cleaned(value) == value {
      TrimEnds(value, NEWLINES);
      TrimEnds(line, BLANKS);
      FirstLineShorter(trimmed);
    }
  }

  /** Replacing puts the other text in the place of every separator. */
  lemma {:induction false} ReplacesAll(s: string, sep: string, other: string)
    requires sep != ""
    ensures Replace(s, sep, other) == Closed(SplitOn(s, sep).pieces, other) + SplitOn(s, sep).rest
    decreases |s|
  {
    if Find(s, sep) == -1 {
      assert "" + s == s;
    } else {
      AroundTag(s, sep);
      var head, tail := Ahead(s, sep), After(s, sep);
      ReplacesAll(tail, sep, other);
      ReplaceNext(s, sep, other);
      hide Find, SplitOn, Replace, Ahead, After;
      SplitStep(s, sep, head, tail);
      var r := SplitOn(tail, sep);
      ClosedCons(head, r.pieces, other);
      Assoc(head + other, Closed(r.pieces, other), r.rest);
    }
  }

  lemma ReplaceNext(s: string, sep: string, other: string)
    requires sep != "" && Find(s, sep) != -1
    ensures Replace(s, sep, other) == Ahead(s, sep) + other + Replace(After(s, sep), sep, other)
  {
    hide Find;
  }

  /** What is read of any value: behind blanks in front the text of one line, whose end or the
      value's end follows it, with blanks between at most; line breaks behind everything do not
      count. */
  lemma CleanedIs(value: string) returns (i: nat, j: nat, e: nat)
    ensures i <= j <= e <= |value| && Cleaned(value) == value[i..j]
    ensures forall k :: (0 <= k < i || j <= k < e) ==> value[k] in BLANKS
    ensures i < j ==> value[i] !in BLANKS && value[j - 1] !in BLANKS
    ensures Find(value[i..j], CRLF) == -1
    ensures At(value, CRLF, e) || forall k :: e <= k < |value| ==> value[k] in NEWLINES
  {
    var lo, hi := TrimBothCuts(value, NEWLINES);
    var trimmed := TrimBoth(value, NEWLINES);
    var n := LineIs(trimmed);
    var line := FirstLine(trimmed);
    var a, b := TrimBothCuts(line, BLANKS);
    EdgesAreBlank();
    CleanedParts(value);
    hide *;
    i, j, e := lo + a, lo + b, lo + n;
    Slices(value, lo, hi, n, a, b);
    PieceFree(line, a, b, CRLF);
    if n < |trimmed| { InWhole(value, lo, hi, CRLF, n); }
  }

  lemma EdgesAreBlank()
    ensures forall c :: c in NEWLINES ==> c in BLANKS
  {
  }

  lemma CleanedParts(value: string)
    ensures Cleaned(value) == TrimBoth(FirstLine(TrimBoth(value, NEWLINES)), BLANKS)
  {
  }

  lemma LineIs(s: string) returns (n: nat)
    ensures n <= |s| && FirstLine(s) == s[..n] && Find(FirstLine(s), CRLF) == -1
    ensures n < |s| ==> At(s, CRLF, n)
  {
    if Find(s, CRLF) == -1 {
      n := |s|;
      assert s[..n] == s;
    } else {
      n := Find(s, CRLF);
      NotBefore(s, CRLF);
      assert CRLF != "";
    }
  }

  lemma Slices(s: string, lo: nat, hi: nat, n: nat, a: nat, b: nat)
    requires lo <= hi <= |s| && n <= hi - lo && a <= b <= n
    ensures s[lo..hi][..n][a..b] == s[lo + a..lo + b]
    ensures forall k :: 0 <= k < n ==> s[lo..hi][..n][k] == s[lo + k]
  {
    SliceOfSlice(s, lo, hi, 0, n);
    assert s[lo..hi][..n] == s[lo..lo + n];
    SliceOfSlice(s, lo, lo + n, a, b);
  }

  lemma PieceFree(s: string, a: nat, b: nat, tag: string)
    requires a <= b <= |s| && Find(s, tag) == -1
    ensures Find(s[a..b], tag) == -1
  {
    hide FindFrom;
    var i := Find(s[a..b], tag);
    if i != -1 { InWhole(s, a, b, tag, i); }
  }

  lemma InWhole(s: string, a: nat, b: nat, tag: string, i: int)
    requires a <= b <= |s| && At(s[a..b], tag, i)
    ensures At(s, tag, a + i)
  {
    AtSlice(s, a, b, tag, i);
  }

  lemma TrimEnds(s: string, cs: set<char>)
    ensures |TrimBoth(s, cs)| == |s| ==>
              TrimBoth(s, cs) == s && (s == "" || (s[0] !in cs && s[|s| - 1] !in cs))
  {
  }

  lemma FirstLineShorter(s: string)
    ensures |FirstLine(s)| <= |s| && (|FirstLine(s)| == |s| ==> Find(s, CRLF) == -1)
  {
    if Find(s, CRLF) != -1 { AroundTag(s, CRLF); }
  }
}
