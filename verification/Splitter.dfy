/** The exl3 server's streaming splitter: generated text arrives in arbitrary chunks and
    leaves as reasoning, content and tool-call deltas. `Feed` and `Flush` say what one chunk and
    the end do to the state; `Declared` says what the whole text means, and the lemmas connect
    the two. `Streaming` has the machine in the form the server runs it. */
module Splitter {
  import opened Calls
  import opened Text

  const TOOL_OPEN := "<tool_call>"
  const TOOL_CLOSE := "</tool_call>"
  const THINK_OPEN := "<think>"
  const THINK_CLOSE := "</think>"

  /** What a tool block's payload parses to, if it parses at all. */
  type Parser = string -> Option<Call>

  datatype Delta =
    | Reasoning(text: string)
    | Content(text: string)
    | Tool(index: nat, call: Call)
    | Finish(reason: string)

  datatype Phase = Thinking | Visible
  datatype Mode = Plain | Tools

  datatype State = State(phase: Phase, mode: Mode, carry: string, buf: string,
                         calls: nat, thinkSeen: bool, stripLead: bool)

  /** The state a chunk leaves behind and the deltas it emits. */
  datatype Fed = Fed(st: State, out: seq<Delta>)

  function Initial(thinking: bool): State {
    State(if thinking then Thinking else Visible, Plain, "", "", 0, false, thinking)
  }

  // -------------------------------------------------------------- tool blocks

  /** One turn of the block loop: skip to after an opening tag, take the text in front of
      a closing tag, or wait for more. */
  datatype Turn = Skip(tail: string) | Take(payload: string, tail: string) | Wait

  function NextTurn(buf: string): (t: Turn)
    ensures t != Wait ==> |t.tail| < |buf|
  {
    if Before(buf, TOOL_OPEN, TOOL_CLOSE) then
      AroundTag(buf, TOOL_OPEN);
      Skip(After(buf, TOOL_OPEN))
    else if Find(buf, TOOL_CLOSE) == -1 then Wait
    else
      AroundTag(buf, TOOL_CLOSE);
      Take(Strip(Ahead(buf, TOOL_CLOSE)), After(buf, TOOL_CLOSE))
  }

  /** What the block loop takes out of its buffer, and what it leaves there. */
  function Scan(buf: string): (r: Split)
    decreases |buf|
  {
    match NextTurn(buf)
    case Skip(tail) => Scan(tail)
    case Take(payload, tail) => Split([payload], "").Then(Scan(tail))
    case Wait => Split([], buf)
  }

  function Parsed(payloads: seq<string>, parse: Parser): seq<Call> {
    if payloads == [] then []
    else
      var p := parse(payloads[0]);
      (if p.Some? then [p.value] else []) + Parsed(payloads[1..], parse)
  }

  function Numbered(calls: seq<Call>, first: nat): seq<Delta> {
    seq(|calls|, i requires 0 <= i < |calls| => Tool(first + i, calls[i]))
  }

  function ReasoningDelta(text: string): seq<Delta> {
    if text == "" then [] else [Reasoning(text)]
  }

  function ContentDelta(text: string): seq<Delta> {
    if text == "" then [] else [Content(text)]
  }

  // ------------------------------------------------------------ one chunk

  function FeedTools(st: State, text: string, parse: Parser): Fed {
    var r := Scan(st.buf + text);
    var calls := Parsed(r.pieces, parse);
    Fed(st.(buf := r.rest, calls := st.calls + |calls|), Numbered(calls, st.calls))
  }

  /** The first opening tag: what precedes it is content, the rest goes to the block loop. */
  function EnterTools(st: State, plain: string, block: string, parse: Parser): Fed {
    var f := FeedTools(st.(mode := Tools, buf := block), "", parse);
    Fed(f.st, ContentDelta(plain) + f.out)
  }

  /** Content with no tag seen yet: emit all that cannot be the start of one. */
  function FeedPlain(st: State, data: string, parse: Parser): Fed {
    if Find(data, TOOL_OPEN) == -1 then
      Fed(st.(carry := Held(data, TOOL_OPEN)), ContentDelta(Free(data, TOOL_OPEN)))
    else EnterTools(st, Ahead(data, TOOL_OPEN), From(data, TOOL_OPEN), parse)
  }

  function FeedContent(st: State, text: string, parse: Parser): Fed {
    if st.mode == Tools then FeedTools(st, text, parse)
    else
      var joined := st.carry + text;
      var data := if st.stripLead then LStripNewlines(joined) else joined;
      if st.stripLead && data == "" then Fed(st, [])
      else FeedPlain(st.(stripLead := false), data, parse)
  }

  /** A literal opening tag in front of the reasoning is dropped, but only while no
      reasoning has been emitted. */
  function Unopened(data: string): string {
    var ls := LStrip(data);
    if StartsWith(ls, THINK_OPEN) then ls[|THINK_OPEN|..] else data
  }

  /** The closing tag: what precedes it is reasoning, the rest is visible text. */
  function LeaveReasoning(st: State, reasoning: string, rest: string, parse: Parser): Fed {
    var f := FeedContent(st.(carry := "", phase := Visible), LStripNewlines(rest), parse);
    Fed(f.st, ReasoningDelta(reasoning) + f.out)
  }

  /** Open reasoning: emit all that cannot be the start of the closing tag. */
  function FeedOpen(st: State, data: string, parse: Parser): Fed {
    if Find(data, THINK_CLOSE) == -1 then
      var free := Free(data, THINK_CLOSE);
      Fed(st.(carry := Held(data, THINK_CLOSE), thinkSeen := st.thinkSeen || free != ""), ReasoningDelta(free))
    else LeaveReasoning(st, Ahead(data, THINK_CLOSE), After(data, THINK_CLOSE), parse)
  }

  lemma StaysOpen(st: State, data: string, hold: nat, parse: Parser)
    requires Find(data, THINK_CLOSE) == -1 && Holds(data, THINK_CLOSE, hold)
    ensures var free := data[..|data| - hold];
            FeedOpen(st, data, parse)
            == Fed(st.(carry := data[|data| - hold..], thinkSeen := st.thinkSeen || free != ""), ReasoningDelta(free))
  {
    assert THINK_CLOSE != "";
    hide Holds, Find;
    HoldUnique(data, THINK_CLOSE, hold);
  }

  lemma LeavesOpen(st: State, data: string, parse: Parser)
    requires Find(data, THINK_CLOSE) != -1
    ensures var i := Find(data, THINK_CLOSE);
            var f := FeedContent(st.(carry := "", phase := Visible),
                                 LStripNewlines(data[i + |THINK_CLOSE|..]), parse);
            0 <= i && i + |THINK_CLOSE| <= |data|
            && FeedOpen(st, data, parse) == Fed(f.st, ReasoningDelta(data[..i]) + f.out)
  {
    hide Find, FeedContent;
  }

  function FeedThink(st: State, text: string, parse: Parser): Fed {
    var joined := st.carry + text;
    FeedOpen(st, if st.thinkSeen then joined else Unopened(joined), parse)
  }

  /** Empty chunks are skipped by the caller's loop. */
  function Feed(st: State, text: string, parse: Parser): Fed {
    if text == "" then Fed(st, [])
    else if st.phase == Thinking then FeedThink(st, text, parse)
    else FeedContent(st, text, parse)
  }

  function FinishReason(eos: string, calls: nat): string {
    if eos == "max_new_tokens" then "length" else if calls > 0 then "tool_calls" else "stop"
  }

  /** What the end of the generation flushes. */
  function Flush(st: State, eos: string): seq<Delta> {
    (if st.phase == Thinking then ReasoningDelta(st.carry)
     else if st.mode == Plain then ContentDelta(st.carry)
     else if st.calls == 0 then ContentDelta(Strip(st.buf))
     else [])
    + [Finish(FinishReason(eos, st.calls))]
  }

  function Run(chunks: seq<string>, thinking: bool, parse: Parser): Fed {
    if chunks == [] then Fed(Initial(thinking), [])
    else
      var before := Run(chunks[..|chunks| - 1], thinking, parse);
      var f := Feed(before.st, chunks[|chunks| - 1], parse);
      Fed(f.st, before.out + f.out)
  }

  /** Everything a client receives for one generation. */
  function Output(chunks: seq<string>, eos: string, thinking: bool, parse: Parser): seq<Delta> {
    var r := Run(chunks, thinking, parse);
    r.out + Flush(r.st, eos)
  }

  // ------------------------------------------------------- what a client sees

  function ReasoningOf(out: seq<Delta>): string {
    if out == [] then ""
    else (if out[0].Reasoning? then out[0].text else "") + ReasoningOf(out[1..])
  }

  function ContentOf(out: seq<Delta>): string {
    if out == [] then ""
    else (if out[0].Content? then out[0].text else "") + ContentOf(out[1..])
  }

  function OthersOf(out: seq<Delta>): seq<Delta> {
    if out == [] then []
    else (if out[0].Tool? || out[0].Finish? then [out[0]] else []) + OthersOf(out[1..])
  }

  /** Reasoning and content concatenated; tool-call and finish deltas one by one. */
  datatype Seen = Seen(reasoning: string, content: string, others: seq<Delta>) {
    function Then(next: Seen): Seen {
      Seen(reasoning + next.reasoning, content + next.content, others + next.others)
    }
  }

  function See(out: seq<Delta>): Seen {
    Seen(ReasoningOf(out), ContentOf(out), OthersOf(out))
  }

  lemma {:induction false} SeeAppend(a: seq<Delta>, b: seq<Delta>)
    ensures See(a + b) == See(a).Then(See(b))
  {
    if a == [] {
      assert a + b == b;
      assert See(a).Then(See(b)) == See(b);
    } else {
      var tail := a[1..];
      assert (a + b)[1..] == tail + b;
      SeeAppend(tail, b);
      var d := a[0];
      Assoc(if d.Reasoning? then d.text else "", ReasoningOf(tail), ReasoningOf(b));
      Assoc(if d.Content? then d.text else "", ContentOf(tail), ContentOf(b));
      Assoc(if d.Tool? || d.Finish? then [d] else [], OthersOf(tail), OthersOf(b));
    }
  }

  lemma {:induction false} SeeOthers(out: seq<Delta>)
    requires forall d :: d in out ==> d.Tool? || d.Finish?
    ensures See(out) == Seen("", "", out)
  {
    if out != [] {
      SeeOthers(out[1..]);
      assert out == [out[0]] + out[1..];
    }
  }

  lemma SeeOne(d: Delta)
    ensures See([d]) == Seen(if d.Reasoning? then d.text else "", if d.Content? then d.text else "",
                             if d.Tool? || d.Finish? then [d] else [])
  {
    assert [d][1..] == [];
    assert See([]) == Seen("", "", []);
  }

  lemma SeeText(text: string)
    ensures See(ReasoningDelta(text)) == Seen(text, "", [])
    ensures See(ContentDelta(text)) == Seen("", text, [])
  {
    if text != "" {
      SeeOne(Reasoning(text));
      SeeOne(Content(text));
    }
  }

  // ------------------------------------------------------- the declared meaning

  /** The text after the reasoning: content up to the first opening tag, then blocks. */
  function DeclaredContent(c: string, eos: string, parse: Parser): Seen {
    if Find(c, TOOL_OPEN) == -1 then Seen("", c, [Finish(FinishReason(eos, 0))])
    else
      var r := Scan(From(c, TOOL_OPEN));
      var calls := Parsed(r.pieces, parse);
      Seen("", Ahead(c, TOOL_OPEN) + (if calls == [] then Strip(r.rest) else ""),
           Numbered(calls, 0) + [Finish(FinishReason(eos, |calls|))])
  }

  /** What the whole generated text means, without mention of chunks or of state. */
  function Declared(t: string, eos: string, thinking: bool, parse: Parser): Seen {
    if !thinking then DeclaredContent(t, eos, parse)
    else if Find(t, THINK_CLOSE) == -1 then Seen(t, "", [Finish(FinishReason(eos, 0))])
    else
      DeclaredContent(LStripNewlines(After(t, THINK_CLOSE)), eos, parse).(reasoning := Ahead(t, THINK_CLOSE))
  }

  // ------------------------------------------- what the machine has seen so far

  /** The part of the state that later text depends on, as a function of the text seen;
      with what must have been emitted by then. */
  datatype View = View(phase: Phase, mode: Mode, pending: string, lead: bool,
                       reasoning: string, content: string, payloads: seq<string>)

  function ContentView(c: string, lead: bool): View {
    if lead && c == "" then View(Visible, Plain, "", true, "", "", [])
    else if Find(c, TOOL_OPEN) == -1 then
      View(Visible, Plain, Held(c, TOOL_OPEN), false, "", Free(c, TOOL_OPEN), [])
    else BlockView(Ahead(c, TOOL_OPEN), Scan(From(c, TOOL_OPEN)))
  }

  function BlockView(content: string, r: Split): View {
    View(Visible, Tools, r.rest, false, "", content, r.pieces)
  }

  function ViewOf(t: string, thinking: bool): View {
    if !thinking then ContentView(t, false)
    else if Find(t, THINK_CLOSE) == -1 then
      View(Thinking, Plain, Held(t, THINK_CLOSE), true, Free(t, THINK_CLOSE), "", [])
    else
      ContentView(LStripNewlines(After(t, THINK_CLOSE)), true).(reasoning := Ahead(t, THINK_CLOSE))
  }

  /** The state says what the view says; `carry` is dead once tools have started, and
      `thinkSeen` once reasoning is over. */
  ghost predicate Tracks(st: State, v: View, parse: Parser) {
    && st.phase == v.phase && st.mode == v.mode && st.stripLead == v.lead
    && (if v.mode == Plain then st.carry else st.buf) == v.pending
    && st.calls == |Parsed(v.payloads, parse)|
    && (v.phase == Thinking ==> (st.thinkSeen <==> v.reasoning != ""))
  }

  function Emitted(v: View, parse: Parser): Seen {
    Seen(v.reasoning, v.content, Numbered(Parsed(v.payloads, parse), 0))
  }

  // ----------------------------------------------------------- block scanning

  /** Later text changes neither which tag comes next nor where it stands. */
  lemma TurnStable(a: string, b: string)
    ensures NextTurn(a).Skip? ==> NextTurn(a + b) == Skip(NextTurn(a).tail + b)
    ensures NextTurn(a).Take? ==> NextTurn(a + b) == Take(NextTurn(a).payload, NextTurn(a).tail + b)
  {
    TagShapes();
    hide TOOL_OPEN, TOOL_CLOSE, Find, At, Ahead, After, Strip;
    if Before(a, TOOL_OPEN, TOOL_CLOSE) {
      BeforeStable(a, b, TOOL_OPEN, TOOL_CLOSE);
      AroundGrows(a, b, TOOL_OPEN);
    } else if Before(a, TOOL_CLOSE, TOOL_OPEN) {
      BeforeStable(a, b, TOOL_CLOSE, TOOL_OPEN);
      AroundGrows(a, b, TOOL_CLOSE);
    } else {
      TagsApart(a);
    }
  }

  /** All that the proofs need to know about the tags. */
  lemma TagShapes()
    ensures |TOOL_OPEN| > 1 && |TOOL_CLOSE| == |TOOL_OPEN| + 1 && TOOL_OPEN[1] != TOOL_CLOSE[1]
    ensures |THINK_CLOSE| > 1 && |THINK_OPEN| > 1
  {
  }

  lemma TagsApart(s: string)
    ensures Find(s, TOOL_OPEN) == Find(s, TOOL_CLOSE) ==> Find(s, TOOL_OPEN) == -1
  {
    TagShapes();
    hide TOOL_OPEN, TOOL_CLOSE, FindFrom;
    var i := Find(s, TOOL_OPEN);
    if i != -1 && i == Find(s, TOOL_CLOSE) {
      AtChar(s, TOOL_OPEN, i, 1);
      AtChar(s, TOOL_CLOSE, i, 1);
    }
  }

  /** Block scanning of a text that arrives in two parts. */
  lemma {:induction false} ScanAppend(a: string, b: string)
    ensures Scan(a + b) == Scan(a).Then(Scan(Scan(a).rest + b))
    decreases |a|
  {
    TurnStable(a, b);
    hide NextTurn;
    match NextTurn(a)
    case Skip(tail) =>
      ScanAppend(tail, b);
    case Take(payload, tail) =>
      ScanAppend(tail, b);
      ThenAssoc(Split([payload], ""), Scan(tail), Scan(Scan(tail).rest + b));
    case Wait =>
      assert [] + Scan(a + b).pieces == Scan(a + b).pieces;
  }

  lemma {:induction false} ParsedAppend(a: seq<string>, b: seq<string>, parse: Parser)
    ensures Parsed(a + b, parse) == Parsed(a, parse) + Parsed(b, parse)
  {
    if a == [] {
      assert a + b == b;
    } else {
      var tail := a[1..];
      assert (a + b)[1..] == tail + b;
      ParsedAppend(tail, b, parse);
      var p := parse(a[0]);
      Assoc(if p.Some? then [p.value] else [], Parsed(tail, parse), Parsed(b, parse));
    }
  }

  lemma NumberedAppend(a: seq<Call>, b: seq<Call>)
    ensures Numbered(a + b, 0) == Numbered(a, 0) + Numbered(b, |a|)
  {
  }

  // -------------------------------------------- one chunk moves the view along

  /** Feeding `f` takes a machine that tracks `v` to one that tracks `w`, emitting the
      difference. */
  ghost predicate Moves(v: View, f: Fed, w: View, parse: Parser) {
    Tracks(f.st, w, parse) && Emitted(w, parse) == Emitted(v, parse).Then(See(f.out))
  }

  /** More payloads, same texts. */
  lemma PayloadsGrow(v: View, more: seq<string>, w: View, parse: Parser)
    requires w.payloads == v.payloads + more && w.reasoning == v.reasoning && w.content == v.content
    ensures var past, next := Parsed(v.payloads, parse), Parsed(more, parse);
            && |Parsed(w.payloads, parse)| == |past| + |next|
            && Emitted(w, parse) == Emitted(v, parse).Then(See(Numbered(next, |past|)))
  {
    var past, next := Parsed(v.payloads, parse), Parsed(more, parse);
    ParsedAppend(v.payloads, more, parse);
    NumberedAppend(past, next);
    SeeOthers(Numbered(next, |past|));
    Nothing(Emitted(v, parse));
  }

  lemma ToolsMove(st: State, v: View, text: string, buf: string, parse: Parser)
    requires Tracks(st, v, parse) && v.mode == Tools && v.pending == Scan(buf).rest
    requires v.payloads == Scan(buf).pieces
    ensures var w := v.(pending := Scan(buf + text).rest, payloads := Scan(buf + text).pieces);
            Moves(v, FeedTools(st, text, parse), w, parse)
  {
    hide Scan, Parsed, See;
    var r := Scan(v.pending + text);
    ScanAppend(buf, text);
    PayloadsGrow(v, r.pieces, v.(pending := r.rest, payloads := v.payloads + r.pieces), parse);
  }

  lemma SeenAssoc(a: Seen, b: Seen, c: Seen)
    ensures a.Then(b).Then(c) == a.Then(b.Then(c))
  {
    Assoc(a.reasoning, b.reasoning, c.reasoning);
    Assoc(a.content, b.content, c.content);
    Assoc(a.others, b.others, c.others);
  }

  /** The same payloads, more content. */
  lemma ContentGrows(v: View, more: string, w: View, parse: Parser)
    requires w.payloads == v.payloads && w.reasoning == v.reasoning && w.content == v.content + more
    ensures Emitted(w, parse) == Emitted(v, parse).Then(See(ContentDelta(more)))
  {
    SeeText(more);
    Nothing(Emitted(v, parse));
  }

  lemma Nothing(s: Seen)
    ensures s.reasoning + "" == s.reasoning && s.content + "" == s.content && s.others + [] == s.others
    ensures "" + s.reasoning == s.reasoning && "" + s.content == s.content && [] + s.others == s.others
  {
  }

  /** No tag seen yet, no tag now. */
  lemma PlainMoveHolding(st: State, c: string, text: string, parse: Parser)
    requires Find(c, TOOL_OPEN) == -1 && Tracks(st, ContentView(c, false), parse)
    requires Find(st.carry + text, TOOL_OPEN) == -1
    ensures Moves(ContentView(c, false), FeedPlain(st, st.carry + text, parse),
                  ContentView(c + text, false), parse)
  {
    TagShapes();
    hide TOOL_OPEN, Find, Held, Free, Parsed, See;
    HoldGrows(c, text, TOOL_OPEN);
    ContentGrows(ContentView(c, false), Free(st.carry + text, TOOL_OPEN), ContentView(c + text, false), parse);
  }

  /** Content up to the tag is emitted, the rest scanned for blocks. */
  lemma Opened(st: State, v: View, plain: string, block: string, w: View, parse: Parser)
    requires Tracks(st, v, parse) && v.phase == Visible && v.payloads == []
    requires !v.lead && v.reasoning == "" && w == BlockView(v.content + plain, Scan(block))
    ensures Moves(v, EnterTools(st, plain, block, parse), w, parse)
  {
    assert block + "" == block;
    hide Scan, Parsed, See, Numbered;
    var middle := v.(content := w.content);
    ContentGrows(v, plain, middle, parse);
    PayloadsGrow(middle, Scan(block).pieces, w, parse);
    var tools := FeedTools(st.(mode := Tools, buf := block), "", parse).out;
    SeeAppend(ContentDelta(plain), tools);
    SeenAssoc(Emitted(v, parse), See(ContentDelta(plain)), See(tools));
  }

  /** How the view changes when the held-back tail of `c` and `text` complete a tag. */
  lemma OpeningView(c: string, text: string)
    requires Find(c, TOOL_OPEN) == -1
    requires Find(ContentView(c, false).pending + text, TOOL_OPEN) != -1
    ensures var v := ContentView(c, false);
            var data := v.pending + text;
            ContentView(c + text, false)
              == BlockView(v.content + Ahead(data, TOOL_OPEN), Scan(From(data, TOOL_OPEN)))
  {
    TagShapes();
    hide TOOL_OPEN, Find, Held, Free, Ahead, From, Scan;
    HoldSplit(c, text, TOOL_OPEN);
  }

  /** The first tag has just been completed. */
  lemma PlainMoveOpening(st: State, c: string, text: string, parse: Parser)
    requires Find(c, TOOL_OPEN) == -1 && Tracks(st, ContentView(c, false), parse)
    requires Find(st.carry + text, TOOL_OPEN) != -1
    ensures Moves(ContentView(c, false), FeedPlain(st, st.carry + text, parse),
                  ContentView(c + text, false), parse)
  {
    TagShapes();
    hide TOOL_OPEN, Find, Held, Free, Ahead, From, Scan, Parsed, See, EnterTools;
    OpeningView(c, text);
    var data := st.carry + text;
    Opened(st, ContentView(c, false), Ahead(data, TOOL_OPEN), From(data, TOOL_OPEN),
           ContentView(c + text, false), parse);
  }

  lemma PlainMove(st: State, c: string, text: string, parse: Parser)
    requires Find(c, TOOL_OPEN) == -1 && Tracks(st, ContentView(c, false), parse)
    ensures Moves(ContentView(c, false), FeedPlain(st, st.carry + text, parse),
                  ContentView(c + text, false), parse)
  {
    hide *;
    if Find(st.carry + text, TOOL_OPEN) == -1 {
      PlainMoveHolding(st, c, text, parse);
    } else {
      PlainMoveOpening(st, c, text, parse);
    }
  }

  /** How the view changes once blocks are being scanned. */
  lemma ToolsView(c: string, text: string)
    requires Find(c, TOOL_OPEN) != -1
    ensures var block := From(c, TOOL_OPEN);
            var v := ContentView(c, false);
            && v.mode == Tools && v.pending == Scan(block).rest && v.payloads == Scan(block).pieces
            && ContentView(c + text, false)
               == v.(pending := Scan(block + text).rest, payloads := Scan(block + text).pieces)
  {
    hide TOOL_OPEN, Find, Ahead, From, Scan;
    AroundGrows(c, text, TOOL_OPEN);
  }

  /** The visible text seen so far, when `text` arrives after `c`. */
  function Visibly(c: string, text: string, lead: bool): string {
    if lead && c == "" then LStripNewlines(text) else c + text
  }

  lemma ContentMove(st: State, c: string, text: string, lead: bool, parse: Parser)
    requires Tracks(st, ContentView(c, lead), parse)
    ensures Moves(ContentView(c, lead), FeedContent(st, text, parse),
                  ContentView(Visibly(c, text, lead), lead), parse)
  {
    hide TOOL_OPEN, Find, Held, Free, Ahead, From, Scan, Parsed, See, Numbered, FeedPlain, FeedTools;
    if lead && c == "" {
      FirstText(st, text, parse);
    } else {
      assert ContentView(c, lead) == ContentView(c, false);
      assert ContentView(c + text, lead) == ContentView(c + text, false);
      if Find(c, TOOL_OPEN) == -1 {
        PlainMove(st, c, text, parse);
      } else {
        ToolsView(c, text);
        ToolsMove(st, ContentView(c, false), text, From(c, TOOL_OPEN), parse);
      }
    }
  }

  /** Nothing is visible yet: line breaks in front are dropped. */
  lemma FirstText(st: State, text: string, parse: Parser)
    requires Tracks(st, ContentView("", true), parse)
    ensures Moves(ContentView("", true), FeedContent(st, text, parse),
                  ContentView(LStripNewlines(text), true), parse)
  {
    hide TOOL_OPEN, Find, Held, Free, Ahead, From, Scan, Parsed, See, Numbered, FeedPlain, FeedTools, LStripNewlines;
    assert "" + text == text;
    var data := LStripNewlines(text);
    if data == "" {
      SeeOthers([]);
      Nothing(Emitted(ContentView("", true), parse));
    } else {
      StartsPlain(st, data, parse);
    }
  }

  lemma StartsEmpty()
    ensures ContentView("", false) == ContentView("", true).(lead := false)
    ensures Find("", TOOL_OPEN) == -1
  {
    TagShapes();
    hide TOOL_OPEN, Find, Held, Free;
    EmptyHolds(TOOL_OPEN);
  }

  /** The first visible text after the reasoning. */
  lemma StartsPlain(st: State, data: string, parse: Parser)
    requires Tracks(st, ContentView("", true), parse) && data != ""
    ensures Moves(ContentView("", true), FeedPlain(st.(stripLead := false), data, parse),
                  ContentView(data, true), parse)
  {
    assert "" + data == data;
    StartsEmpty();
    hide TOOL_OPEN, Find, Held, Free, Ahead, From, Scan, Parsed, See, FeedPlain;
    PlainMove(st.(stripLead := false), "", data, parse);
  }

  /** Earlier reasoning does not matter to visible text. */
  lemma MovesAfter(v: View, f: Fed, w: View, reasoning: string, parse: Parser)
    requires Moves(v, f, w, parse) && v.reasoning == "" && w.reasoning == "" && w.phase == Visible
    ensures Moves(v.(reasoning := reasoning), f, w.(reasoning := reasoning), parse)
  {
    hide See;
    Nothing(See(f.out));
    Nothing(Seen(reasoning, "", []));
  }

  // ------------------------------------------------------------- reasoning

  /** The left-stripped text begins with a literal opening tag. */
  predicate Opens(t: string) {
    StartsWith(LStrip(t), THINK_OPEN)
  }

  lemma StillThinking(t: string)
    requires Find(t, THINK_CLOSE) == -1
    ensures var v := ViewOf(t, true);
            && v.phase == Thinking && v.mode == Plain && v.lead && v.payloads == [] && v.content == ""
  {
    TagShapes();
  }

  lemma ThinkingGoesOn(t: string, text: string)
    requires Find(t, THINK_CLOSE) == -1
    requires Find(ViewOf(t, true).pending + text, THINK_CLOSE) == -1
    ensures var v := ViewOf(t, true);
            var data := v.pending + text;
            ViewOf(t + text, true)
              == v.(pending := Held(data, THINK_CLOSE), reasoning := v.reasoning + Free(data, THINK_CLOSE))
  {
    TagShapes();
    hide THINK_CLOSE, Find, Held, Free;
    HoldGrows(t, text, THINK_CLOSE);
  }

  lemma ThinkingStops(t: string, text: string)
    requires Find(t, THINK_CLOSE) == -1
    requires Find(ViewOf(t, true).pending + text, THINK_CLOSE) != -1
    ensures var v := ViewOf(t, true);
            var data := v.pending + text;
            ViewOf(t + text, true)
              == ContentView(LStripNewlines(After(data, THINK_CLOSE)), true)
                   .(reasoning := v.reasoning + Ahead(data, THINK_CLOSE))
  {
    TagShapes();
    hide THINK_CLOSE, Find, Held, Free, Ahead, After, LStripNewlines, ContentView;
    HoldSplit(t, text, THINK_CLOSE);
  }

  lemma StrippedOnce(s: string)
    ensures LStripNewlines(LStripNewlines(s)) == LStripNewlines(s)
  {
  }

  lemma ReasoningGrows(v: View, more: string, w: View, parse: Parser)
    requires w.payloads == v.payloads && w.content == v.content && w.reasoning == v.reasoning + more
    ensures Emitted(w, parse) == Emitted(v, parse).Then(See(ReasoningDelta(more)))
  {
    SeeText(more);
    Nothing(Emitted(v, parse));
  }

  /** The closing tag has arrived: the rest of the chunk is visible text. */
  lemma ThinkingEnds(st: State, v: View, reasoning: string, rest: string, parse: Parser)
    requires Tracks(st, v, parse) && v.phase == Thinking && v.mode == Plain && v.lead
    requires v.payloads == [] && v.content == ""
    ensures Moves(v, LeaveReasoning(st, reasoning, rest, parse),
                  ContentView(LStripNewlines(rest), true).(reasoning := v.reasoning + reasoning), parse)
  {
    var visible, text := st.(carry := "", phase := Visible), LStripNewlines(rest);
    var blank, w := ContentView("", true), ContentView(text, true);
    var said := v.reasoning + reasoning;
    var f := FeedContent(visible, text, parse);
    ContentViews(text);
    ContentViews("");
    assert Moves(blank, f, w, parse) by {
      hide FeedContent, See, ContentView;
      BlankView();
      ContentMove(visible, "", text, true, parse);
      StrippedOnce(rest);
    }
    hide FeedContent, Parsed, See, ContentView, LStripNewlines;
    BlankView();
    MovesAfter(blank, f, w, said, parse);
    ReasoningGrows(v, reasoning, blank.(reasoning := said), parse);
    SeeAppend(ReasoningDelta(reasoning), f.out);
    SeenAssoc(Emitted(v, parse), See(ReasoningDelta(reasoning)), See(f.out));
  }

  lemma BlankView()
    ensures ContentView("", true) == View(Visible, Plain, "", true, "", "", [])
  {
  }

  /** With nothing to drop in front, a chunk only extends what is pending. */
  lemma NothingDropped(st: State, t: string, text: string, parse: Parser)
    requires Find(t, THINK_CLOSE) == -1 && Tracks(st, ViewOf(t, true), parse)
    requires st.thinkSeen || !Opens(t + text)
    ensures st.phase == Thinking && st.carry == ViewOf(t, true).pending
    ensures (if st.thinkSeen then st.carry + text else Unopened(st.carry + text)) == st.carry + text
  {
    TagShapes();
    hide THINK_CLOSE, Find, Held, Free, Parsed;
    FreeHeld(t, THINK_CLOSE);
    assert !st.thinkSeen ==> "" + st.carry == t;
  }

  /** One chunk while the reasoning is open. The side condition is the branch at fault: a
      literal opening tag is dropped only when the chunks happen to keep it together. */
  lemma ThinkMove(st: State, t: string, text: string, parse: Parser)
    requires Find(t, THINK_CLOSE) == -1 && Tracks(st, ViewOf(t, true), parse)
    requires st.thinkSeen || !Opens(t + text)
    ensures Moves(ViewOf(t, true), FeedThink(st, text, parse), ViewOf(t + text, true), parse)
  {
    NothingDropped(st, t, text, parse);
    assert FeedThink(st, text, parse) == FeedOpen(st, st.carry + text, parse);
    hide *;
    if Find(st.carry + text, THINK_CLOSE) == -1 {
      ThinkMoveOn(st, t, text, parse);
    } else {
      ThinkMoveOut(st, t, text, parse);
    }
  }

  lemma ThinkMoveOn(st: State, t: string, text: string, parse: Parser)
    requires Find(t, THINK_CLOSE) == -1 && Tracks(st, ViewOf(t, true), parse)
    requires Find(st.carry + text, THINK_CLOSE) == -1
    ensures Moves(ViewOf(t, true), FeedOpen(st, st.carry + text, parse), ViewOf(t + text, true), parse)
  {
    TagShapes();
    StillThinking(t);
    hide THINK_CLOSE, Find, Held, Free, Parsed, See, ViewOf;
    ThinkingGoesOn(t, text);
    var more := Free(st.carry + text, THINK_CLOSE);
    ReasoningGrows(ViewOf(t, true), more, ViewOf(t + text, true), parse);
  }

  lemma ThinkMoveOut(st: State, t: string, text: string, parse: Parser)
    requires Find(t, THINK_CLOSE) == -1 && Tracks(st, ViewOf(t, true), parse)
    requires Find(st.carry + text, THINK_CLOSE) != -1
    ensures Moves(ViewOf(t, true), FeedOpen(st, st.carry + text, parse), ViewOf(t + text, true), parse)
  {
    StillThinking(t);
    var v, data := ViewOf(t, true), st.carry + text;
    hide THINK_CLOSE, Find, Ahead, After, Parsed, See, ViewOf, LeaveReasoning, LStripNewlines, ContentView, Moves;
    ThinkingEnds(st, v, Ahead(data, THINK_CLOSE), After(data, THINK_CLOSE), parse);
    ThinkingStops(t, text);
  }

  // ------------------------------------------------------------ whole runs

  /** One chunk, in any phase. */
  lemma FeedMove(st: State, t: string, text: string, thinking: bool, parse: Parser)
    requires Tracks(st, ViewOf(t, thinking), parse)
    requires thinking ==> st.thinkSeen || !Opens(t + text)
    ensures Moves(ViewOf(t, thinking), Feed(st, text, parse), ViewOf(t + text, thinking), parse)
  {
    if text == "" {
      assert t + text == t;
      SeeOthers([]);
      Nothing(Emitted(ViewOf(t, thinking), parse));
    } else if !thinking {
      PhaseOf(t, thinking);
      ContentMove(st, t, text, false, parse);
    } else if Find(t, THINK_CLOSE) == -1 {
      PhaseOf(t, thinking);
      ThinkMove(st, t, text, parse);
    } else {
      PhaseOf(t, thinking);
      VisibleMove(st, t, text, parse);
    }
  }

  lemma PhaseOf(t: string, thinking: bool)
    ensures ViewOf(t, thinking).phase == Thinking <==> thinking && Find(t, THINK_CLOSE) == -1
  {
  }

  lemma VisibleMove(st: State, t: string, text: string, parse: Parser)
    requires Find(t, THINK_CLOSE) != -1 && Tracks(st, ViewOf(t, true), parse)
    ensures Moves(ViewOf(t, true), FeedContent(st, text, parse), ViewOf(t + text, true), parse)
  {
    var c := LStripNewlines(After(t, THINK_CLOSE));
    var d := LStripNewlines(After(t, THINK_CLOSE) + text);
    ContentViews(c);
    ContentViews(d);
    TagShapes();
    hide THINK_CLOSE, Find, Ahead, After, Parsed, See, FeedContent, LStripNewlines, ContentView;
    AroundGrows(t, text, THINK_CLOSE);
    ContentMove(st, c, text, true, parse);
    Shown(c, text, After(t, THINK_CLOSE));
    MovesAfter(ContentView(c, true), FeedContent(st, text, parse), ContentView(d, true),
               Ahead(t, THINK_CLOSE), parse);
  }

  lemma Shown(c: string, text: string, after: string)
    requires c == LStripNewlines(after)
    ensures Visibly(c, text, true) == LStripNewlines(after + text)
  {
    LStripNewlinesAppend(after, text);
  }

  lemma ContentViews(c: string)
    ensures forall lead :: ContentView(c, lead).reasoning == "" && ContentView(c, lead).phase == Visible
  {
  }

  lemma {:induction false} LStripAppend(a: string, b: string)
    ensures LStrip(a) != "" ==> LStrip(a + b) == LStrip(a) + b
    ensures LStrip(a) == "" ==> LStrip(a + b) == LStrip(b)
  {
    if a == "" {
      assert a + b == b;
    } else if IsSpace(a[0]) {
      var tail := a[1..];
      assert (a + b)[1..] == tail + b;
      assert LStrip(a + b) == LStrip(tail + b);
      LStripAppend(tail, b);
    }
  }

  lemma OpensGrows(a: string, b: string)
    requires Opens(a)
    ensures Opens(a + b)
  {
    hide Find;
    LStripAppend(a, b);
    AtAppend(LStrip(a), b, THINK_OPEN, 0);
  }

  /** After any chunks the machine stands where the view of their text says. */
  lemma {:induction false} RunView(chunks: seq<string>, thinking: bool, parse: Parser)
    requires thinking ==> !Opens(Concat(chunks))
    ensures var r := Run(chunks, thinking, parse);
            var v := ViewOf(Concat(chunks), thinking);
            Tracks(r.st, v, parse) && See(r.out) == Emitted(v, parse)
  {
    if chunks == [] {
      StartView(thinking, parse);
    } else {
      var past, text := chunks[..|chunks| - 1], chunks[|chunks| - 1];
      var t := Concat(past);
      if Opens(t) { OpensGrows(t, text); }
      RunView(past, thinking, parse);
      hide Tracks, See, Opens, Feed, ViewOf;
      var r := Run(past, thinking, parse);
      FeedMove(r.st, t, text, thinking, parse);
      SeeAppend(r.out, Feed(r.st, text, parse).out);
    }
  }

  lemma StartView(thinking: bool, parse: Parser)
    ensures Tracks(Initial(thinking), ViewOf("", thinking), parse)
    ensures Emitted(ViewOf("", thinking), parse) == See([])
  {
    hide TOOL_OPEN, THINK_CLOSE, Find, Held, Free, Ahead, After, From, Scan, LStripNewlines, See, Parsed, Numbered;
    TagShapes();
    EmptyHolds(THINK_CLOSE);
    EmptyHolds(TOOL_OPEN);
    NoCalls(parse);
    SeeNothing();
  }

  lemma SeeNothing()
    ensures See([]) == Seen("", "", [])
  {
  }

  /** The flush completes what the view has emitted to what the text means. */
  lemma FlushCompletes(st: State, t: string, eos: string, thinking: bool, parse: Parser)
    requires Tracks(st, ViewOf(t, thinking), parse)
    ensures Emitted(ViewOf(t, thinking), parse).Then(See(Flush(st, eos))) == Declared(t, eos, thinking, parse)
  {
    if thinking && Find(t, THINK_CLOSE) == -1 {
      StillThinking(t);
      hide THINK_CLOSE, Find, Held, Free, Parsed, See;
      FreeHeld(t, THINK_CLOSE);
      FlushText(st, eos, ReasoningDelta(Held(t, THINK_CLOSE)));
      SeeText(Held(t, THINK_CLOSE));
      NoCalls(parse);
    } else {
      var c := if thinking then LStripNewlines(After(t, THINK_CLOSE)) else t;
      var said := if thinking then Ahead(t, THINK_CLOSE) else "";
      ContentViews(c);
      hide THINK_CLOSE, Find, Ahead, After, LStripNewlines, Parsed, See, Flush, DeclaredContent, ContentView;
      FlushContent(st, c, said, eos, thinking, parse);
    }
  }

  lemma NoCalls(parse: Parser)
    ensures Parsed([], parse) == [] && Numbered([], 0) == []
  {
  }

  lemma FlushContent(st: State, c: string, said: string, eos: string, lead: bool, parse: Parser)
    requires Tracks(st, ContentView(c, lead).(reasoning := said), parse)
    ensures Emitted(ContentView(c, lead).(reasoning := said), parse).Then(See(Flush(st, eos)))
         == DeclaredContent(c, eos, parse).(reasoning := said)
  {
    TagShapes();
    NoCalls(parse);
    hide TOOL_OPEN, Held, Free, Ahead, From, FindFrom, Parsed, Scan, See, Strip;
    if lead && c == "" {
      FlushText(st, eos, ContentDelta(""));
      SeeText("");
    } else if Find(c, TOOL_OPEN) == -1 {
      hide Find;
      FreeHeld(c, TOOL_OPEN);
      FlushText(st, eos, ContentDelta(Held(c, TOOL_OPEN)));
      SeeText(Held(c, TOOL_OPEN));
    } else {
      hide Find;
      var tail := if st.calls == 0 then Strip(st.buf) else "";
      FlushText(st, eos, ContentDelta(tail));
      SeeText(tail);
    }
  }

  lemma FlushText(st: State, eos: string, text: seq<Delta>)
    ensures See(text + [Finish(FinishReason(eos, st.calls))])
         == See(text).Then(Seen("", "", [Finish(FinishReason(eos, st.calls))]))
  {
    SeeAppend(text, [Finish(FinishReason(eos, st.calls))]);
    SeeOne(Finish(FinishReason(eos, st.calls)));
  }
}
