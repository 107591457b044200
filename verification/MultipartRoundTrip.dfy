/** The round trips: fields and files come back as they were written, before and after a field
    is added. */
module MultipartRoundTrip {
  import opened Text
  import opened Multipart
  import opened MultipartTheorems

  /** The value of a field, from the parts themselves: the first part that answers to the name
      with more than blanks. */
  function Lookup(parts: seq<Part>, name: string): Option<string> {
    if parts == [] then None
    else if Answers(parts[0], name) && Cleaned(parts[0].Payload()) != "" then Some(Cleaned(parts[0].Payload()))
    else Lookup(parts[1..], name)
  }

  /** The upload, from the parts themselves: that of the first part that answers to "file". */
  function Uploaded(parts: seq<Part>): Option<Upload> {
    if parts == [] then None
    else if Answers(parts[0], "file") then Some(UploadIn(parts[0]))
    else Uploaded(parts[1..])
  }

  function UploadIn(p: Part): Upload {
    Upload(if p.File? && ReadName(p) != "" then ReadName(p) else "upload", RTrim(p.Payload(), NEWLINES))
  }

  predicate Headed(parts: seq<Part>) {
    forall p :: p in parts ==> Headable(p)
  }

  lemma FieldInFront(parts: seq<Part>, name: string)
    requires parts != []
    ensures var piece := PieceOf(parts[0]);
            FieldIn(Pieces(parts), name)
            == if IsNamed(piece, name) && Cleaned(piece.payload) != "" then Some(Cleaned(piece.payload))
               else FieldIn(Pieces(parts[1..]), name)
  {
    hide IsNamed, Cleaned, PieceOf;
    assert Pieces(parts)[1..] == Pieces(parts[1..]);
  }

  lemma {:induction false} FieldInPieces(parts: seq<Part>, name: string)
    requires Headed(parts) && Without(name, '"')
    ensures FieldIn(Pieces(parts), name) == Lookup(parts, name)
  {
    if parts != [] {
      var p := parts[0];
      assert p in parts;
      FieldInFront(parts, name);
      FieldInPieces(parts[1..], name);
      hide Headed, IsNamed, Cleaned, Answers, PieceOf, Pieces, FieldIn, Without, Quotable;
      NamedIff(p, name);
      CleanedPayload(p);
    }
  }

  lemma {:induction false} FileInPieces(parts: seq<Part>)
    requires Headed(parts)
    ensures FileIn(Pieces(parts)) == Uploaded(parts)
  {
    if parts != [] {
      var p := parts[0];
      assert p in parts && Without("file", '"');
      NamedIff(p, "file");
      UploadRead(p);
      FileInPieces(parts[1..]);
      hide IsNamed, UploadOf, UploadIn, Answers, PieceOf, Headable;
      assert Pieces(parts)[1..] == Pieces(parts[1..]);
    }
  }

  lemma UploadRead(p: Part)
    requires Headable(p)
    ensures UploadOf(PieceOf(p)) == UploadIn(p)
  {
    FilenameRead(p);
    TrimNewline(p.Payload());
    hide Header, FilenameIn, RTrim, ReadName, Headable;
  }

  lemma FormHeaded(parts: seq<Part>, boundary: string)
    requires GoodForm(parts, boundary)
    ensures Headed(parts)
  {
    hide Headable, Find;
    assert forall p :: p in parts ==> WellFormed(p, boundary);
  }

  /** Every field lookup in the printed form answers as a lookup in the parts. */
  lemma FieldRoundTrip(parts: seq<Part>, boundary: string, name: string)
    requires GoodForm(parts, boundary) && Without(name, '"')
    ensures FieldIn(Parts(Printed(parts, boundary), boundary), name) == Lookup(parts, name)
  {
    FormHeaded(parts, boundary);
    hide *;
    PartsOfPrinted(parts, boundary);
    FieldInPieces(parts, name);
  }

  /** The upload comes back with its name and its content less trailing line breaks. */
  lemma FileRoundTrip(parts: seq<Part>, boundary: string)
    requires GoodForm(parts, boundary)
    ensures FileIn(Parts(Printed(parts, boundary), boundary)) == Uploaded(parts)
  {
    FormHeaded(parts, boundary);
    hide *;
    PartsOfPrinted(parts, boundary);
    FileInPieces(parts);
  }

  /** Only the i-th part answers to the name. */
  predicate OnlyAnswer(parts: seq<Part>, i: nat, name: string) {
    i < |parts| && Answers(parts[i], name) && forall j :: 0 <= j < |parts| && j != i ==> !Answers(parts[j], name)
  }

  lemma {:induction false} LookupOnly(parts: seq<Part>, i: nat, name: string)
    requires OnlyAnswer(parts, i, name)
    ensures var v := Cleaned(parts[i].Payload());
            Lookup(parts, name) == if v == "" then None else Some(v)
  {
    hide Cleaned, Answers;
    if i == 0 {
      NoAnswer(parts[1..], name);
    } else {
      assert forall j :: 0 <= j < |parts| - 1 ==> parts[1..][j] == parts[j + 1];
      LookupOnly(parts[1..], i - 1, name);
    }
  }

  lemma {:induction false} NoAnswer(parts: seq<Part>, name: string)
    requires forall j :: 0 <= j < |parts| ==> !Answers(parts[j], name)
    ensures Lookup(parts, name) == None
  {
    hide Cleaned, Answers;
    if parts != [] { NoAnswer(parts[1..], name); }
  }

  /** A field whose name no other part answers to is read back unchanged exactly when its value
      is tidy and not empty. */
  lemma FieldReadsBackIff(parts: seq<Part>, boundary: string, i: nat)
    requires GoodForm(parts, boundary) && i < |parts| && parts[i].Field? && OnlyAnswer(parts, i, parts[i].name)
    ensures FieldIn(Parts(Printed(parts, boundary), boundary), parts[i].name) == Some(parts[i].value)
       <==> parts[i].value != "" && Tidy(parts[i].value)
  {
    assert WellFormed(parts[i], boundary) && Without(parts[i].name, '"') by { assert parts[i] in parts; }
    hide GoodForm, WellFormed, Parts, Printed, FieldIn, Cleaned, Tidy, Without, Lookup, OnlyAnswer;
    FieldRoundTrip(parts, boundary, parts[i].name);
    LookupOnly(parts, i, parts[i].name);
    CleanedIff(parts[i].value);
  }

  lemma {:induction false} UploadedOnly(parts: seq<Part>, i: nat)
    requires OnlyAnswer(parts, i, "file")
    ensures Uploaded(parts) == Some(UploadIn(parts[i]))
  {
    hide Answers, UploadIn;
    if i > 0 {
      assert forall j :: 0 <= j < |parts| - 1 ==> parts[1..][j] == parts[j + 1];
      UploadedOnly(parts[1..], i - 1);
    }
  }

  lemma UploadReadsBackIff(p: Part)
    requires p.File?
    ensures var u := UploadIn(p);
            && (u.content == p.content <==> p.content == "" || p.content[|p.content| - 1] !in NEWLINES)
            && (u.filename == p.filename
                <==> if EndsWith(p.name, "filename=") then p.filename == FILENAME else p.filename != "")
  {
    assert FILENAME != "";
    var c := p.content;
    hide FILENAME, EndsWith;
    if c == "" || c[|c| - 1] !in NEWLINES { RTrimNone(c, NEWLINES); }
  }

  /** The upload's content is read back unchanged exactly when it does not end in a line break
      character, and its name exactly when it is not empty; behind a part's name that ends in
      `filename=` the reader takes the rest of the header's key for the file name. */
  lemma FileReadsBackIff(parts: seq<Part>, boundary: string, i: nat)
    requires GoodForm(parts, boundary) && OnlyAnswer(parts, i, "file") && parts[i].File?
    ensures var p := parts[i];
            var upload := FileIn(Parts(Printed(parts, boundary), boundary));
            && upload.Some?
            && (upload.value.content == p.content
                <==> p.content == "" || p.content[|p.content| - 1] !in NEWLINES)
            && (upload.value.filename == p.filename
                <==> if EndsWith(p.name, "filename=") then p.filename == FILENAME else p.filename != "")
  {
    var p := parts[i];
    UploadReadsBackIff(p);
    hide *;
    FileRoundTrip(parts, boundary);
    UploadedOnly(parts, i);
  }

  // ------------------------------------------------------------ adding a field

  /** The closing delimiter does not start inside the first part or the delimiter before it. */
  lemma NotInside(d: string, seg: string, tail: string, i: int)
    requires Without(d, '\r') && Without(d, '\n') && Find(seg, d) == -1
    requires |seg| > 2 && seg[0] == '\r' && seg[|seg| - 1] == '\n'
    requires At(d + seg + tail, d + "--", i)
    ensures |d| + |seg| <= i
  {
    var all, closing := d + seg + tail, d + "--";
    hide FindFrom;
    if i < |d| {
      AtChar(all, closing, i, |d| - i);
    } else if i < |d| + |seg| {
      if i + |d| <= |d| + |seg| {
        assert closing[..|d|] == d;
        assert At(all, d, i) by { assert all[i..i + |closing|][..|d|] == all[i..i + |d|]; }
        assert all == d + (seg + tail);
        AtAppend(d, seg + tail, d, i);
        AtAppend(seg, tail, d, i - |d|);
      } else {
        AtChar(all, closing, i, |d| + |seg| - 1 - i);
      }
    }
  }

  lemma PrintedAgain(parts: seq<Part>, boundary: string)
    requires parts != []
    ensures Printed(parts, boundary) == Delimiter(boundary) + Segment(parts[0]) + Printed(parts[1..], boundary)
  {
    hide Delimiter, Segment, Tail;
    PrintedStep(parts, boundary);
    var d, s, tail := Delimiter(boundary), Segment(parts[0]), Tail(parts[1..], boundary);
    Assoc(d, s + d, tail);
    Assoc(d, s, d);
    Assoc(d + s, d, tail);
  }

  /** The closing delimiter stands behind all parts and nowhere else. */
  lemma {:induction false} ClosingIsLast(parts: seq<Part>, boundary: string, i: int)
    requires GoodForm(parts, boundary) && At(Printed(parts, boundary), Delimiter(boundary) + "--", i)
    ensures |Opened(parts, boundary)| <= i
  {
    if parts != [] {
      var p, d := parts[0], Delimiter(boundary);
      DelimiterShape(boundary);
      SegmentEnds(p);
      assert WellFormed(p, boundary);
      PrintedAgain(parts, boundary);
      PrintedStep(parts, boundary);
      assert GoodForm(parts[1..], boundary);
      hide GoodForm, WellFormed, Segment, Delimiter, Printed, Find, Opened;
      var rest := Printed(parts[1..], boundary);
      NotInside(d, Segment(p), rest, i);
      AtAppend(d + Segment(p), rest, d + "--", i);
      hide At;
      ClosingIsLast(parts[1..], boundary, i - |d| - |Segment(p)|);
    }
  }

  /** Replacing the closing delimiter puts what replaces it behind all parts. */
  lemma ReplaceClosing(parts: seq<Part>, boundary: string, other: string)
    requires GoodForm(parts, boundary)
    ensures var closing := Delimiter(boundary) + "--";
            && Find(Printed(parts, boundary), closing) != -1
            && Replace(Printed(parts, boundary), closing, other) == Opened(parts, boundary) + other + CRLF
  {
    var front, body, closing := Opened(parts, boundary), Printed(parts, boundary), Delimiter(boundary) + "--";
    DelimiterShape(boundary);
    assert |closing| > |CRLF|;
    OpenedCloses(parts, boundary);
    hide CRLF, Delimiter, Printed, Opened, Segment, GoodForm, Replace, FindFrom;
    Assoc(front, Delimiter(boundary), "--" + CRLF);
    Assoc(Delimiter(boundary), "--", CRLF);
    ClosingIsLast(parts, boundary, FindIn(front, closing, CRLF));
    ReplaceOnce(front, closing, CRLF, other);
  }

  /** The first occurrence, given that there is one. */
  function FindIn(front: string, sep: string, tail: string): (i: nat)
    ensures i <= |front| && i == Find(front + (sep + tail), sep) && At(front + (sep + tail), sep, i)
  {
    var all := front + (sep + tail);
    assert At(all, sep, |front|) by { assert all[|front|..|front| + |sep|] == sep; }
    Find(all, sep)
  }

  lemma ReplaceOnce(front: string, sep: string, tail: string, other: string)
    requires sep != "" && Find(front + (sep + tail), sep) == |front| && |tail| < |sep|
    ensures Replace(front + (sep + tail), sep, other) == front + other + tail
  {
    AroundTagIs(front + (sep + tail), sep, front, tail);
    assert Find(tail, sep) == -1;
    assert Replace(tail, sep, other) == tail;
    hide Find, Ahead, After;
  }

  /** Injection adds the field behind all other parts, unless it can be read already. */
  lemma InjectAppends(parts: seq<Part>, boundary: string, name: string, value: string)
    requires GoodForm(parts, boundary) && Without(name, '"')
    ensures Injected(Printed(parts, boundary), boundary, name, value)
         == Printed(if Lookup(parts, name).Some? then parts else parts + [Field(name, value)], boundary)
  {
    var d, added := Delimiter(boundary), Field(name, value);
    var other := d + Segment(added) + (d + "--");
    hide Delimiter, Printed, Opened, Segment, GoodForm, Without, Parts, FieldIn, Lookup, Find, Replace, Answers;
    FieldRoundTrip(parts, boundary, name);
    ReplaceClosing(parts, boundary, other);
    OpenedMore(parts, added, boundary);
    OpenedCloses(parts + [added], boundary);
    var front := Opened(parts, boundary);
    assert front + other + CRLF == front + d + Segment(added) + d + ("--" + CRLF);
  }

  lemma {:induction false} LookupAppend(parts: seq<Part>, p: Part, name: string)
    ensures Lookup(parts + [p], name) == if Lookup(parts, name).Some? then Lookup(parts, name) else Lookup([p], name)
  {
    hide Cleaned, Answers;
    if parts == [] {
      assert [] + [p] == [p];
    } else {
      assert (parts + [p])[1..] == parts[1..] + [p];
      LookupAppend(parts[1..], p, name);
    }
  }

  lemma {:induction false} UploadedAppend(parts: seq<Part>, p: Part)
    ensures Uploaded(parts + [p]) == if Uploaded(parts).Some? then Uploaded(parts) else Uploaded([p])
  {
    hide RTrim, Answers;
    if parts == [] {
      assert [] + [p] == [p];
    } else {
      assert (parts + [p])[1..] == parts[1..] + [p];
      UploadedAppend(parts[1..], p);
    }
  }

  /** After injection the field can be read, every other field reads as before, and so does
      the upload, unless there was none and the new field is called "file". */
  lemma InjectKeepsRest(parts: seq<Part>, boundary: string, name: string, value: string, other: string)
    requires GoodForm(parts, boundary) && WellFormed(Field(name, value), boundary) && Without(other, '"')
    ensures var body := Injected(Printed(parts, boundary), boundary, name, value);
            && FieldIn(Parts(body, boundary), other)
               == (if Lookup(parts, other).Some? then Lookup(parts, other)
                   else if other == name && Cleaned(value) != "" then Some(Cleaned(value))
                   else None)
            && FileIn(Parts(body, boundary))
               == (if Uploaded(parts).Some? || name != "file" || Lookup(parts, name).Some? then Uploaded(parts)
                   else Some(Upload("upload", RTrim(value, NEWLINES))))
  {
    var added := Field(name, value);
    var more := parts + [added];
    assert GoodForm(more, boundary) && Without(name, '"');
    Added(name, value, other);
    hide *;
    InjectAppends(parts, boundary, name, value);
    FieldRoundTrip(parts, boundary, other);
    FileRoundTrip(parts, boundary);
    FieldRoundTrip(more, boundary, other);
    FileRoundTrip(more, boundary);
    LookupAppend(parts, added, other);
    UploadedAppend(parts, added);
  }

  lemma Added(name: string, value: string, other: string)
    ensures Uploaded([Field(name, value)])
         == if name == "file" then Some(Upload("upload", RTrim(value, NEWLINES))) else None
    ensures Lookup([Field(name, value)], other)
         == if other != name || Cleaned(value) == "" then None else Some(Cleaned(value))
  {
    hide Cleaned, RTrim;
    assert [Field(name, value)][1..] == [];
  }
}
