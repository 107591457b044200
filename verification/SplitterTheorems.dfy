/** What the streaming splitter guarantees: its output depends on the text alone, exactly
    when no literal opening tag stands in front of the reasoning. */
module SplitterTheorems {
  import opened Text
  import opened Splitter

  /** Streaming refines the declared split: whatever the chunks, a client sees what the
      whole text means. */
  lemma StreamIsDeclared(chunks: seq<string>, eos: string, thinking: bool, parse: Parser)
    requires thinking ==> !Opens(Concat(chunks))
    ensures See(Output(chunks, eos, thinking, parse)) == Declared(Concat(chunks), eos, thinking, parse)
  {
    RunView(chunks, thinking, parse);
    FromRun(Run(chunks, thinking, parse), Concat(chunks), eos, thinking, parse);
  }

  lemma FromRun(r: Fed, t: string, eos: string, thinking: bool, parse: Parser)
    requires Tracks(r.st, ViewOf(t, thinking), parse)
    requires See(r.out) == Emitted(ViewOf(t, thinking), parse)
    ensures See(r.out + Flush(r.st, eos)) == Declared(t, eos, thinking, parse)
  {
    hide Tracks, See, ViewOf, Flush, Declared;
    FlushCompletes(r.st, t, eos, thinking, parse);
    SeeAppend(r.out, Flush(r.st, eos));
  }

  /** The first chunk, once what is in front of it has been dropped. */
  lemma FirstChunk(u: string, parse: Parser)
    ensures Moves(ViewOf("", true), FeedOpen(Initial(true), u, parse), ViewOf(u, true), parse)
  {
    hide *;
    StartView(true, parse);
    NothingCarried();
    FreshChunk(Initial(true), u, parse);
  }

  lemma FreshChunk(st: State, u: string, parse: Parser)
    requires Tracks(st, ViewOf("", true), parse) && st.carry == ""
    ensures Moves(ViewOf("", true), FeedOpen(st, u, parse), ViewOf(u, true), parse)
  {
    hide *;
    assert "" + u == u;
    NoCloseYet();
    if Find(st.carry + u, THINK_CLOSE) == -1 {
      ThinkMoveOn(st, "", u, parse);
    } else {
      ThinkMoveOut(st, "", u, parse);
    }
  }

  lemma NothingCarried()
    ensures Initial(true).carry == ""
  {
  }

  lemma NoCloseYet()
    ensures Find("", THINK_CLOSE) == -1
  {
    TagShapes();
    EmptyHolds(THINK_CLOSE);
  }

  /** A generation that arrives in one chunk loses a literal opening tag. */
  lemma OneChunk(t: string, eos: string, parse: Parser)
    requires t != ""
    ensures See(Output([t], eos, true, parse)) == Declared(Unopened(t), eos, true, parse)
  {
    var u := Unopened(t);
    var f := FeedOpen(Initial(true), u, parse);
    OutputIs([t], eos, true, parse);
    hide *;
    FirstChunk(u, parse);
    RunOne(t, parse);
    Begin(f, u, parse);
    FromRun(f, u, eos, true, parse);
  }

  lemma OutputIs(chunks: seq<string>, eos: string, thinking: bool, parse: Parser)
    ensures var r := Run(chunks, thinking, parse);
            Output(chunks, eos, thinking, parse) == r.out + Flush(r.st, eos)
  {
  }

  lemma RunOne(t: string, parse: Parser)
    requires t != ""
    ensures Run([t], true, parse) == FeedOpen(Initial(true), Unopened(t), parse)
  {
    hide FeedOpen, Unopened;
    assert [t][..0] == [];
    assert "" + t == t;
    var f := FeedOpen(Initial(true), Unopened(t), parse);
    assert Run([], true, parse) == Fed(Initial(true), []);
    assert [] + f.out == f.out;
  }

  lemma Begin(f: Fed, u: string, parse: Parser)
    requires Moves(ViewOf("", true), f, ViewOf(u, true), parse)
    ensures Tracks(f.st, ViewOf(u, true), parse) && See(f.out) == Emitted(ViewOf(u, true), parse)
  {
    hide ViewOf, Tracks, See;
    StartView(true, parse);
    SeeNothing();
    Nothing(See(f.out));
  }

  // ---------------------------------------------- a literal opening tag in front

  /** Whitespace in front of the tag, then the tag and what follows it. */
  lemma Opening(t: string) returns (blank: string, rest: string)
    requires Opens(t)
    ensures t == blank + (THINK_OPEN + rest) && Unopened(t) == rest
    ensures forall k :: 0 <= k < |blank| ==> IsSpace(blank[k])
  {
    blank, rest := LeadingBlank(t), LStrip(t)[|THINK_OPEN|..];
    LeadIsBlank(t);
    hide THINK_OPEN, LeadingBlank, LStrip, IsSpace, At;
    StartsSplit(LStrip(t), THINK_OPEN);
  }

  function LeadingBlank(t: string): string {
    t[..|t| - |LStrip(t)|]
  }

  lemma LeadIsBlank(t: string)
    ensures t == LeadingBlank(t) + LStrip(t)
    ensures forall k :: 0 <= k < |LeadingBlank(t)| ==> IsSpace(LeadingBlank(t)[k])
  {
    hide IsSpace, LStrip;
    var n := |t| - |LStrip(t)|;
    assert t == t[..n] + t[n..];
  }

  lemma StartsSplit(s: string, tag: string)
    requires StartsWith(s, tag)
    ensures s == tag + s[|tag|..]
  {
    assert s[0..|tag|] == tag;
  }

  /** Whitespace and the tag's first two characters: no closing tag starts or could start
      there, and by themselves they are not the tag. */
  lemma CutPiece(blank: string)
    requires forall k :: 0 <= k < |blank| ==> IsSpace(blank[k])
    ensures var p := blank + "<t";
            !Opens(p) && Find(p, THINK_CLOSE) == -1 && Free(p, THINK_CLOSE) != ""
  {
    CutStrips(blank);
    CutShape(blank, blank + "<t");
    hide *;
    NoPartOfClose(blank + "<t");
  }

  lemma CutStrips(blank: string)
    requires forall k :: 0 <= k < |blank| ==> IsSpace(blank[k])
    ensures !Opens(blank + "<t")
  {
    hide IsSpace;
    assert LStrip(blank) == "";
    LStripAppend(blank, "<t");
    assert |LStrip("<t")| <= 2;
  }

  lemma CutShape(blank: string, p: string)
    requires p == blank + "<t" && forall k :: 0 <= k < |blank| ==> IsSpace(blank[k])
    ensures |p| > 1 && forall k :: 0 <= k < |p| ==> p[k] != '/'
  {
  }

  lemma NoPartOfClose(p: string)
    requires |p| > 1 && forall k :: 0 <= k < |p| ==> p[k] != '/'
    ensures Find(p, THINK_CLOSE) == -1 && Free(p, THINK_CLOSE) != ""
  {
    TagShapes();
    assert THINK_CLOSE[1] == '/';
    hide THINK_CLOSE, FindFrom, HoldLength, HoldFrom;
    var j := Find(p, THINK_CLOSE);
    if j != -1 { AtChar(p, THINK_CLOSE, j, 1); }
    NoFullSuffix(p, THINK_CLOSE);
  }

  lemma NoFullSuffix(p: string, tag: string)
    requires 1 < |p| && 1 < |tag| && p[1] != tag[1]
    ensures |p| < |tag| ==> !EndsWith(p, tag[..|p|])
  {
    assert p[0..] == p;
  }

  /** Cut there, the same generation keeps the tag. */
  lemma TwoChunks(p: string, q: string, eos: string, parse: Parser)
    requires !Opens(p) && Find(p, THINK_CLOSE) == -1 && Free(p, THINK_CLOSE) != ""
    ensures See(Output([p, q], eos, true, parse)) == Declared(p + q, eos, true, parse)
  {
    hide THINK_CLOSE, Opens, Find, Free, Held, Declared, See, Flush, Feed, Run;
    ConcatTwo(p, q);
    RunView([p], true, parse);
    PhaseOf(p, true);
    var r := Run([p], true, parse);
    assert r.st.thinkSeen;
    hide ViewOf;
    RunTwo(p, q, parse);
    FeedMove(r.st, p, q, true, parse);
    hide Tracks, Concat;
    SeeAppend(r.out, Feed(r.st, q, parse).out);
    FromRun(Run([p, q], true, parse), p + q, eos, true, parse);
  }

  lemma RunTwo(p: string, q: string, parse: Parser)
    ensures var r := Run([p], true, parse);
            var f := Feed(r.st, q, parse);
            Run([p, q], true, parse) == Fed(f.st, r.out + f.out)
  {
    hide Feed;
    assert [p, q][..1] == [p];
  }

  lemma ConcatTwo(p: string, q: string)
    ensures Concat([p]) == p && Concat([p, q]) == p + q
  {
    assert [p][..0] == [] && [p, q][..1] == [p];
    assert "" + p == p;
  }

  /** No closing tag can start in `head`, whatever follows. */
  ghost predicate NoTagStart(head: string) {
    && head != "" && head[|head| - 1] != '<'
    && forall k :: 0 <= k < |head| ==> head[k] != '/'
  }

  /** The text behind the reasoning. */
  function ContentText(t: string, thinking: bool): string {
    if !thinking then t
    else if Find(t, THINK_CLOSE) == -1 then ""
    else LStripNewlines(After(t, THINK_CLOSE))
  }

  /** Any text is the reasoning's and the content's declared meaning put together. */
  function ReasoningText(t: string, thinking: bool): string {
    if !thinking then "" else if Find(t, THINK_CLOSE) == -1 then t else Ahead(t, THINK_CLOSE)
  }

  lemma DeclaredParts(t: string, eos: string, thinking: bool, parse: Parser)
    ensures Declared(t, eos, thinking, parse)
         == DeclaredContent(ContentText(t, thinking), eos, parse).(reasoning := ReasoningText(t, thinking))
  {
    TagShapes();
    EmptyHolds(TOOL_OPEN);
    hide THINK_CLOSE, TOOL_OPEN, Find, After, Ahead, From, Scan, Parsed, Strip, LStripNewlines;
  }

  /** What is in front of the text and cannot be part of a closing tag is reasoning. */
  lemma HeadIsReasoning(head: string, u: string)
    requires NoTagStart(head)
    ensures ContentText(head + u, true) == ContentText(u, true)
    ensures ReasoningText(head + u, true) == head + ReasoningText(u, true)
  {
    CloseIsLater(head, u);
    TagShapes();
    hide THINK_CLOSE, FindFrom, LStripNewlines;
    if Find(u, THINK_CLOSE) != -1 {
      AroundTag(u, THINK_CLOSE);
      var a, b := Ahead(u, THINK_CLOSE), After(u, THINK_CLOSE);
      Assoc(head, a, THINK_CLOSE + b);
      Assoc(a, THINK_CLOSE, b);
      hide Find, Ahead, After;
      AroundTagIs(head + u, THINK_CLOSE, head + a, b);
    }
  }

  /** The reasoning a client sees in the two cases differs by the tag itself. */
  lemma TagMatters(head: string, u: string, eos: string, parse: Parser)
    requires NoTagStart(head)
    ensures var all, less := Declared(head + u, eos, true, parse), Declared(u, eos, true, parse);
            all == less.(reasoning := head + less.reasoning) && |less.reasoning| < |all.reasoning|
  {
    assert head != "";
    hide *;
    HeadIsReasoning(head, u);
    DeclaredParts(u, eos, true, parse);
    DeclaredParts(head + u, eos, true, parse);
  }

  lemma CloseIsLater(head: string, u: string)
    requires NoTagStart(head)
    ensures Find(head + u, THINK_CLOSE) == if Find(u, THINK_CLOSE) == -1 then -1 else |head| + Find(u, THINK_CLOSE)
  {
    hide FindFrom;
    var i, k := Find(head + u, THINK_CLOSE), Find(u, THINK_CLOSE);
    if i != -1 {
      StartsLater(head, u, i);
      hide At;
      AtAppend(head, u, THINK_CLOSE, i);
    }
    if k != -1 { AtAppend(head, u, THINK_CLOSE, |head| + k); }
  }

  lemma StartsLater(head: string, u: string, i: int)
    requires NoTagStart(head) && At(head + u, THINK_CLOSE, i)
    ensures |head| <= i
  {
    AtChar(head + u, THINK_CLOSE, i, 0);
    AtChar(head + u, THINK_CLOSE, i, 1);
  }

  /** All chunkings of `t` show a client the same. */
  ghost predicate ChunkInvariant(t: string, eos: string, thinking: bool, parse: Parser) {
    forall a, b :: Concat(a) == t && Concat(b) == t ==>
      See(Output(a, eos, thinking, parse)) == See(Output(b, eos, thinking, parse))
  }

  /** Chunk invariance, and exactly when it holds. */
  lemma ChunkInvariantIff(t: string, eos: string, thinking: bool, parse: Parser)
    ensures ChunkInvariant(t, eos, thinking, parse) <==> !(thinking && Opens(t))
  {
    if thinking && Opens(t) {
      NotInvariant(t, eos, parse);
    } else {
      hide Opens, See, Output, Declared, Concat;
      forall a, b | Concat(a) == t && Concat(b) == t
        ensures See(Output(a, eos, thinking, parse)) == See(Output(b, eos, thinking, parse))
      {
        StreamIsDeclared(a, eos, thinking, parse);
        StreamIsDeclared(b, eos, thinking, parse);
      }
    }
  }

  /** Any text that opens with the tag is seen in two ways. */
  lemma NotInvariant(t: string, eos: string, parse: Parser)
    requires Opens(t)
    ensures !ChunkInvariant(t, eos, true, parse)
  {
    assert t != "";
    var blank, rest := Opening(t);
    var p, q, head := blank + "<t", "hink>" + rest, blank + THINK_OPEN;
    Pieces(blank, rest);
    hide *;
    OneChunk(t, eos, parse);
    CutPiece(blank);
    TwoChunks(p, q, eos, parse);
    TagMatters(head, rest, eos, parse);
    ConcatTwo(t, "");
    ConcatTwo(p, q);
    Differ([t], [p, q], t, eos, parse);
  }

  lemma Pieces(blank: string, rest: string)
    requires forall k :: 0 <= k < |blank| ==> IsSpace(blank[k])
    ensures (blank + "<t") + ("hink>" + rest) == blank + (THINK_OPEN + rest) == (blank + THINK_OPEN) + rest
    ensures NoTagStart(blank + THINK_OPEN)
  {
    assert THINK_OPEN == "<t" + "hink>";
    Assoc(blank, "<t", "hink>" + rest);
    Assoc("<t", "hink>", rest);
    Assoc(blank, THINK_OPEN, rest);
  }

  lemma Differ(a: seq<string>, b: seq<string>, t: string, eos: string, parse: Parser)
    requires Concat(a) == t && Concat(b) == t
    requires See(Output(a, eos, true, parse)).reasoning != See(Output(b, eos, true, parse)).reasoning
    ensures !ChunkInvariant(t, eos, true, parse)
  {
    hide See, Output, Concat;
  }

  // ------------------------------------------------------- all views of a text

  /** How many literal opening tags stand in front, with only whitespace between them. */
  function Tags(t: string): nat
    decreases |t|
  {
    if Opens(t) then
      OpensShorter(t);
      1 + Tags(Unopened(t))
    else 0
  }

  /** The text behind the first `n` of them. */
  function Dropped(t: string, n: nat): string
    requires n <= Tags(t)
    decreases n
  {
    if n == 0 then t else Dropped(Unopened(t), n - 1)
  }

  lemma OpensShorter(t: string)
    requires Opens(t)
    ensures |Unopened(t)| < |t|
  {
    assert THINK_OPEN != "";
    hide THINK_OPEN;
  }

  lemma UnopenedAppend(t: string, text: string)
    requires Opens(t)
    ensures Opens(t + text) && Unopened(t + text) == Unopened(t) + text
  {
    assert THINK_OPEN != "";
    BehindTag(LStrip(t), THINK_OPEN, text);
    hide THINK_OPEN, LStrip, StartsWith;
    LStripAppend(t, text);
    OpensGrows(t, text);
  }

  lemma BehindTag(s: string, tag: string, text: string)
    requires tag != "" && StartsWith(s, tag)
    ensures s != "" && (s + text)[|tag|..] == s[|tag|..] + text
  {
  }

  lemma {:induction false} DroppedAppend(t: string, n: nat, text: string)
    requires n <= Tags(t)
    ensures n <= Tags(t + text) && Dropped(t + text, n) == Dropped(t, n) + text
    decreases n
  {
    hide Opens, Unopened;
    if n > 0 {
      UnopenedAppend(t, text);
      DroppedAppend(Unopened(t), n - 1, text);
    }
  }

  lemma {:induction false} DroppedMore(t: string, n: nat)
    requires n <= Tags(t) && Opens(Dropped(t, n))
    ensures n + 1 <= Tags(t) && Dropped(t, n + 1) == Unopened(Dropped(t, n))
    decreases n
  {
    hide Opens, Unopened;
    if n > 0 {
      DroppedMore(Unopened(t), n - 1);
    } else {
      assert Dropped(Unopened(t), 0) == Unopened(t);
    }
  }

  /** A chunk that completes an opening tag while no reasoning has gone out: the tag is
      dropped with what is in front of it, and the machine begins again behind it. */
  lemma TagDropped(r: Fed, u: string, text: string, parse: Parser)
    requires Tracks(r.st, ViewOf(u, true), parse) && See(r.out) == Emitted(ViewOf(u, true), parse)
    requires Find(u, THINK_CLOSE) == -1 && !r.st.thinkSeen && Opens(u + text) && text != ""
    ensures var f, rest := Feed(r.st, text, parse), Unopened(u + text);
            Tracks(f.st, ViewOf(rest, true), parse) && See(r.out + f.out) == Emitted(ViewOf(rest, true), parse)
  {
    var rest := Unopened(u + text);
    NothingSeen(r.st, u, text, parse);
    FeedOpenAgain(r.st, rest, parse);
    hide *;
    var again := r.st.(carry := "");
    var f := FeedOpen(again, rest, parse);
    FreshChunk(again, rest, parse);
    SeeAppend(r.out, f.out);
    MovesIs(ViewOf("", true), f, ViewOf(rest, true), parse);
  }

  lemma MovesIs(v: View, f: Fed, w: View, parse: Parser)
    requires Moves(v, f, w, parse)
    ensures Tracks(f.st, w, parse) && Emitted(w, parse) == Emitted(v, parse).Then(See(f.out))
  {
  }

  /** Before any reasoning has gone out all of the text is still carried. */
  lemma NothingSeen(st: State, u: string, text: string, parse: Parser)
    requires Tracks(st, ViewOf(u, true), parse)
    requires Find(u, THINK_CLOSE) == -1 && !st.thinkSeen && text != ""
    ensures Feed(st, text, parse) == FeedOpen(st, Unopened(u + text), parse)
    ensures Tracks(st.(carry := ""), ViewOf("", true), parse)
    ensures Emitted(ViewOf(u, true), parse) == Emitted(ViewOf("", true), parse)
  {
    TagShapes();
    EmptyHolds(THINK_CLOSE);
    hide THINK_CLOSE, Find, Held, Free, Parsed, FeedOpen, Unopened;
    FreeHeld(u, THINK_CLOSE);
    assert "" + st.carry == u;
  }

  /** What was carried is replaced. */
  lemma FeedOpenAgain(st: State, data: string, parse: Parser)
    ensures FeedOpen(st, data, parse) == FeedOpen(st.(carry := ""), data, parse)
  {
    hide Find, Held, Free, Ahead, After, FeedContent, LStripNewlines;
  }

  /** Any chunks at all: the machine stands where it would with some of the opening tags in
      front dropped from the text. */
  lemma {:induction false} RunDrops(chunks: seq<string>, parse: Parser) returns (n: nat)
    ensures var t, r := Concat(chunks), Run(chunks, true, parse);
            && n <= Tags(t) && Tracks(r.st, ViewOf(Dropped(t, n), true), parse)
            && See(r.out) == Emitted(ViewOf(Dropped(t, n), true), parse)
  {
    hide Tracks, See, Opens, Feed, ViewOf, Unopened, Find;
    n := 0;
    if chunks == [] {
      StartView(true, parse);
    } else {
      var past, text := chunks[..|chunks| - 1], chunks[|chunks| - 1];
      var t := Concat(past);
      n := RunDrops(past, parse);
      var r, u := Run(past, true, parse), Dropped(t, n);
      DroppedAppend(t, n, text);
      if text != "" && Find(u, THINK_CLOSE) == -1 && !r.st.thinkSeen && Opens(u + text) {
        TagDropped(r, u, text, parse);
        DroppedMore(t + text, n);
        n := n + 1;
      } else {
        AnyMove(r.st, u, text, parse);
        SeeAppend(r.out, Feed(r.st, text, parse).out);
      }
    }
  }

  /** A chunk that drops nothing. */
  lemma AnyMove(st: State, u: string, text: string, parse: Parser)
    requires Tracks(st, ViewOf(u, true), parse)
    requires text != "" && Find(u, THINK_CLOSE) == -1 ==> st.thinkSeen || !Opens(u + text)
    ensures Moves(ViewOf(u, true), Feed(st, text, parse), ViewOf(u + text, true), parse)
  {
    hide *;
    if text == "" {
      EmptyMove(st, u, parse);
    } else if Find(u, THINK_CLOSE) == -1 {
      FeedMove(st, u, text, true, parse);
    } else {
      FeedVisible(st, u, text, parse);
      VisibleMove(st, u, text, parse);
    }
  }

  lemma EmptyMove(st: State, u: string, parse: Parser)
    requires Tracks(st, ViewOf(u, true), parse)
    ensures u + "" == u && Moves(ViewOf(u, true), Feed(st, "", parse), ViewOf(u, true), parse)
  {
    hide ViewOf, Tracks;
    SeeOthers([]);
    Nothing(Emitted(ViewOf(u, true), parse));
  }

  lemma FeedVisible(st: State, u: string, text: string, parse: Parser)
    requires Tracks(st, ViewOf(u, true), parse) && Find(u, THINK_CLOSE) != -1 && text != ""
    ensures Feed(st, text, parse) == FeedContent(st, text, parse)
  {
    PhaseOf(u, true);
    hide ViewOf, Find;
  }

  /** The text a generation is read as: without thinking all of it, otherwise what is behind the
      first `n` opening tags. */
  function ReadAs(t: string, n: nat, thinking: bool): string
    requires thinking ==> n <= Tags(t)
  {
    if thinking then Dropped(t, n) else t
  }

  lemma AnyRun(chunks: seq<string>, thinking: bool, parse: Parser) returns (n: nat)
    ensures thinking ==> n <= Tags(Concat(chunks))
    ensures var r, v := Run(chunks, thinking, parse), ViewOf(ReadAs(Concat(chunks), n, thinking), thinking);
            Tracks(r.st, v, parse) && See(r.out) == Emitted(v, parse)
  {
    hide Run, ViewOf, Tracks, See, Emitted, Concat, Dropped, Tags;
    n := 0;
    if thinking {
      n := RunDrops(chunks, parse);
    } else {
      RunView(chunks, false, parse);
    }
  }

  /** However a text is cut, a client sees what the text means with some number of the opening
      tags in front of it dropped. */
  lemma EveryView(chunks: seq<string>, eos: string, thinking: bool, parse: Parser) returns (n: nat)
    ensures thinking ==> n <= Tags(Concat(chunks))
    ensures See(Output(chunks, eos, thinking, parse))
         == Declared(ReadAs(Concat(chunks), n, thinking), eos, thinking, parse)
  {
    OutputIs(chunks, eos, thinking, parse);
    hide *;
    n := AnyRun(chunks, thinking, parse);
    FromRun(Run(chunks, thinking, parse), ReadAs(Concat(chunks), n, thinking), eos, thinking, parse);
  }

  /** Chunks that show the text with the first `n` opening tags dropped: each of them alone,
      and the rest cut inside the next one, if there is one. */
  lemma {:induction false} ShowsDropped(t: string, n: nat, eos: string, parse: Parser)
    returns (chunks: seq<string>)
    requires n <= Tags(t)
    ensures Concat(chunks) == t && See(Output(chunks, eos, true, parse)) == Declared(Dropped(t, n), eos, true, parse)
    decreases n
  {
    hide Opens, Unopened, Declared, Output, See, Concat;
    if n > 0 {
      var blank, rest := Opening(t);
      var more := ShowsDropped(Unopened(t), n - 1, eos, parse);
      chunks := [blank + THINK_OPEN] + more;
      TagAlone(blank, more, eos, parse);
      Assoc(blank, THINK_OPEN, rest);
      hide *;
      ConcatFirst(blank + THINK_OPEN, more);
    } else {
      hide *;
      chunks := ShowsAll(t, eos, parse);
      DroppedNone(t);
    }
  }

  lemma DroppedNone(t: string)
    ensures Dropped(t, 0) == t
  {
  }

  /** Chunks that show all of the text. */
  lemma ShowsAll(t: string, eos: string, parse: Parser) returns (chunks: seq<string>)
    ensures Concat(chunks) == t && See(Output(chunks, eos, true, parse)) == Declared(t, eos, true, parse)
  {
    if Opens(t) {
      var blank, rest := Opening(t);
      var p, q := blank + "<t", "hink>" + rest;
      Pieces(blank, rest);
      hide *;
      CutPiece(blank);
      TwoChunks(p, q, eos, parse);
      ConcatTwo(p, q);
      chunks := [p, q];
    } else {
      hide *;
      ConcatTwo(t, "");
      chunks := [t];
      StreamIsDeclared(chunks, eos, true, parse);
    }
  }

  /** Whitespace and an opening tag alone in the first chunk leave no trace. */
  lemma TagAlone(blank: string, more: seq<string>, eos: string, parse: Parser)
    requires forall k :: 0 <= k < |blank| ==> IsSpace(blank[k])
    ensures Output([blank + THINK_OPEN] + more, eos, true, parse) == Output(more, eos, true, parse)
  {
    var first := blank + THINK_OPEN;
    OutputIs([first] + more, eos, true, parse);
    OutputIs(more, eos, true, parse);
    hide *;
    TagAloneRun(blank, parse);
    RunBehind(first, more, parse);
  }

  lemma TagAloneRun(blank: string, parse: Parser)
    requires forall k :: 0 <= k < |blank| ==> IsSpace(blank[k])
    ensures Run([blank + THINK_OPEN], true, parse) == Fed(Initial(true), [])
  {
    var first := blank + THINK_OPEN;
    AloneUnopened(blank);
    NoCloseYet();
    TagShapes();
    EmptyHolds(THINK_CLOSE);
    hide THINK_OPEN, THINK_CLOSE, Find, Held, Free, Unopened, IsSpace, Run;
    RunOne(first, parse);
  }

  lemma AloneUnopened(blank: string)
    requires forall k :: 0 <= k < |blank| ==> IsSpace(blank[k])
    ensures blank + THINK_OPEN != "" && Unopened(blank + THINK_OPEN) == ""
  {
    assert !IsSpace(THINK_OPEN[0]) && THINK_OPEN[..|THINK_OPEN|] == THINK_OPEN;
    assert LStrip(THINK_OPEN) == THINK_OPEN;
    hide IsSpace, THINK_OPEN;
    LStripAppend(blank, THINK_OPEN);
    assert LStrip(blank) == "";
  }

  /** A first chunk that leaves the machine as it was changes nothing for the others. */
  lemma {:induction false} RunBehind(first: string, more: seq<string>, parse: Parser)
    requires Run([first], true, parse) == Fed(Initial(true), [])
    ensures Run([first] + more, true, parse) == Run(more, true, parse)
  {
    hide Feed;
    if more == [] {
      assert [first] + more == [first];
    } else {
      var n := |more| - 1;
      RunBehind(first, more[..n], parse);
      assert ([first] + more)[..n + 1] == [first] + more[..n] && ([first] + more)[n + 1] == more[n];
    }
  }

  lemma {:induction false} ConcatFirst(first: string, more: seq<string>)
    ensures Concat([first] + more) == first + Concat(more)
  {
    if more == [] {
      assert [first] + more == [first] && [first][..0] == [];
    } else {
      var n := |more| - 1;
      ConcatFirst(first, more[..n]);
      assert ([first] + more)[..n + 1] == [first] + more[..n];
      Assoc(first, Concat(more[..n]), more[n]);
    }
  }

  /** Some chunking of the text shows this. */
  ghost predicate CanShow(t: string, seen: Seen, eos: string, parse: Parser) {
    exists chunks :: Concat(chunks) == t && See(Output(chunks, eos, true, parse)) == seen
  }

  /** All that a client can see of one text: its meaning with any number of the opening tags
      in front of it dropped, and nothing else. */
  lemma ViewsOf(t: string, seen: Seen, eos: string, parse: Parser)
    ensures CanShow(t, seen, eos, parse)
       <==> exists n: nat :: n <= Tags(t) && seen == Declared(Dropped(t, n), eos, true, parse)
  {
    hide See, Output, Concat, Declared, Tags, Dropped;
    if CanShow(t, seen, eos, parse) {
      var chunks :| Concat(chunks) == t && See(Output(chunks, eos, true, parse)) == seen;
      var n := EveryView(chunks, eos, true, parse);
    }
    if n: nat :| n <= Tags(t) && seen == Declared(Dropped(t, n), eos, true, parse) {
      var chunks := ShowsDropped(t, n, eos, parse);
    }
  }

  // ----------------------------------------------------- order and promptness

  function Rank(d: Delta): nat {
    match d
    case Reasoning(_) => 0
    case Content(_) => 1
    case Tool(_, _) => 2
    case Finish(_) => 3
  }

  /** Deltas in the order reasoning, content, tool calls, finish, with ranks from `lo` to `hi`. */
  ghost predicate Ordered(out: seq<Delta>, lo: nat, hi: nat) {
    && (forall i :: 0 <= i < |out| ==> lo <= Rank(out[i]) <= hi)
    && (forall i, j :: 0 <= i < j < |out| ==> Rank(out[i]) <= Rank(out[j]))
  }

  function Level(st: State): nat {
    if st.phase == Thinking then 0 else if st.calls > 0 then 2 else 1
  }

  ghost predicate Staged(st: State) {
    (st.phase == Thinking ==> st.mode == Plain) && (st.mode == Plain ==> st.calls == 0)
  }

  lemma OrderedAppend(a: seq<Delta>, b: seq<Delta>, lo: nat, mid: nat, hi: nat)
    requires Ordered(a, lo, mid) && Ordered(b, mid, hi) && lo <= mid <= hi
    ensures Ordered(a + b, lo, hi)
  {
  }

  lemma ToolsOrdered(st: State, text: string, parse: Parser)
    requires Staged(st) && st.mode == Tools
    ensures var f := FeedTools(st, text, parse);
            Staged(f.st) && Level(st) <= Level(f.st) && Ordered(f.out, Level(st), Level(f.st))
  {
    hide Scan, Parsed;
  }

  lemma ContentOrdered(st: State, text: string, parse: Parser)
    requires Staged(st) && st.phase == Visible
    ensures var f := FeedContent(st, text, parse);
            Staged(f.st) && Level(st) <= Level(f.st) && Ordered(f.out, Level(st), Level(f.st))
  {
    hide Find, HoldLength, FeedTools, LStripNewlines, Ordered;
    if st.mode == Tools {
      ToolsOrdered(st, text, parse);
    } else {
      var data := if st.stripLead then LStripNewlines(st.carry + text) else st.carry + text;
      if st.stripLead && data == "" {
        TextOrdered("", 1);
      } else {
        var i := Find(data, TOOL_OPEN);
        if i == -1 {
          TextOrdered(data[..|data| - HoldLength(data, TOOL_OPEN)], 1);
        } else {
          var entered := st.(stripLead := false, mode := Tools, buf := data[i..]);
          var f := FeedTools(entered, "", parse);
          ToolsOrdered(entered, "", parse);
          TextOrdered(data[..i], 1);
          OrderedAppend(ContentDelta(data[..i]), f.out, 1, 1, Level(f.st));
        }
      }
    }
  }

  lemma TextOrdered(text: string, level: nat)
    ensures Ordered(ReasoningDelta(text), 0, 0) && Ordered(ContentDelta(text), 1, 1)
    ensures Ordered([], level, level)
  {
  }

  lemma FeedOrdered(st: State, text: string, parse: Parser)
    requires Staged(st)
    ensures var f := Feed(st, text, parse);
            Staged(f.st) && Level(st) <= Level(f.st) && Ordered(f.out, Level(st), Level(f.st))
  {
    TextOrdered("", Level(st));
    hide Find, HoldLength, FeedContent, LStripNewlines, Unopened, Ordered;
    if text != "" && st.phase == Thinking {
      var data := if st.thinkSeen then st.carry + text else Unopened(st.carry + text);
      var i := Find(data, THINK_CLOSE);
      if i == -1 {
        TextOrdered(data[..|data| - HoldLength(data, THINK_CLOSE)], 0);
      } else {
        var visible := st.(carry := "", phase := Visible);
        var rest := LStripNewlines(data[i + |THINK_CLOSE|..]);
        ContentOrdered(visible, rest, parse);
        TextOrdered(data[..i], 0);
        var f := FeedContent(visible, rest, parse);
        assert Ordered(f.out, 0, Level(f.st)) by { Widen(f.out, Level(visible), Level(f.st)); }
        OrderedAppend(ReasoningDelta(data[..i]), f.out, 0, 0, Level(f.st));
      }
    } else if text != "" {
      ContentOrdered(st, text, parse);
    }
  }

  lemma Widen(out: seq<Delta>, lo: nat, hi: nat)
    requires Ordered(out, lo, hi)
    ensures Ordered(out, 0, hi)
  {
  }

  /** Whatever the chunks, reasoning comes before content, content before tool calls, and
      the finish delta last; an unfinished block is flushed as content only when no tool
      call has gone out. */
  lemma {:induction false} OutputOrdered(chunks: seq<string>, eos: string, thinking: bool, parse: Parser)
    ensures Ordered(Output(chunks, eos, thinking, parse), 0, 3)
  {
    RunOrdered(chunks, thinking, parse);
    hide Run, Strip;
    var r := Run(chunks, thinking, parse);
    OrderedAppend(r.out, Flush(r.st, eos), 0, Level(r.st), 3);
  }

  lemma {:induction false} RunOrdered(chunks: seq<string>, thinking: bool, parse: Parser)
    ensures var r := Run(chunks, thinking, parse); Staged(r.st) && Ordered(r.out, 0, Level(r.st))
  {
    if chunks != [] {
      var past := chunks[..|chunks| - 1];
      RunOrdered(past, thinking, parse);
      hide Feed, Ordered;
      var r := Run(past, thinking, parse);
      FeedOrdered(r.st, chunks[|chunks| - 1], parse);
      var f := Feed(r.st, chunks[|chunks| - 1], parse);
      OrderedAppend(r.out, f.out, 0, Level(r.st), Level(f.st));
    }
  }

  /** Nothing is lost or held back longer than it must be: while a tag is awaited, what has
      been emitted and what is carried make up the text, and what is carried is exactly the
      longest suffix that could still become the tag. The blank lines behind the reasoning are
      no part of the content, nor the opening tags that were dropped of the reasoning. */
  lemma HeldBackIsMinimal(chunks: seq<string>, thinking: bool, parse: Parser) returns (n: nat)
    ensures thinking ==> n <= Tags(Concat(chunks))
    ensures var t, r := ReadAs(Concat(chunks), n, thinking), Run(chunks, thinking, parse);
            && (thinking && Find(t, THINK_CLOSE) == -1 ==>
                  See(r.out).reasoning + r.st.carry == t && Holds(t, THINK_CLOSE, |r.st.carry|))
            && (!thinking && Find(t, TOOL_OPEN) == -1 ==>
                  See(r.out).content + r.st.carry == t && Holds(t, TOOL_OPEN, |r.st.carry|))
    ensures var t, r := ReadAs(Concat(chunks), n, thinking), Run(chunks, thinking, parse);
            thinking && Find(t, THINK_CLOSE) != -1 ==>
              var c := LStripNewlines(After(t, THINK_CLOSE));
              && See(r.out).reasoning == Ahead(t, THINK_CLOSE)
              && (Find(c, TOOL_OPEN) == -1 ==>
                    See(r.out).content + r.st.carry == c && Holds(c, TOOL_OPEN, |r.st.carry|))
  {
    TagShapes();
    n := AnyRun(chunks, thinking, parse);
    var t, r := ReadAs(Concat(chunks), n, thinking), Run(chunks, thinking, parse);
    hide THINK_CLOSE, TOOL_OPEN, Find, Held, Free, Ahead, After, From, Run, See, LStripNewlines, Holds,
      ReadAs, Tags;
    FreeHeld(t, THINK_CLOSE);
    if !thinking {
      ContentCarried(r.st, t, false, parse);
    } else if Find(t, THINK_CLOSE) != -1 {
      ContentCarried(r.st, LStripNewlines(After(t, THINK_CLOSE)), true, parse);
    }
  }

  /** What the view of visible text says about the carry. */
  lemma ContentCarried(st: State, c: string, lead: bool, parse: Parser)
    requires st.mode == ContentView(c, lead).mode
    requires st.mode == Plain ==> st.carry == ContentView(c, lead).pending
    ensures ContentView(c, lead).reasoning == ""
    ensures Find(c, TOOL_OPEN) == -1 ==>
              ContentView(c, lead).content + st.carry == c && Holds(c, TOOL_OPEN, |st.carry|)
  {
    TagShapes();
    hide TOOL_OPEN, FindFrom, Held, Free, Ahead, From, Scan, HoldFrom;
    if Find(c, TOOL_OPEN) == -1 {
      FreeHeld(c, TOOL_OPEN);
    }
  }
}
