/** What a generation is taken apart into: one written from reasoning, content and tool blocks
    is read back as those parts, streamed in any chunks and buffered. */
module ReadBack {
  import opened Calls
  import opened Text
  import opened Splitter
  import opened SplitterTheorems
  import opened Buffered

  /** A tool block, and the text between it and the next one. */
  datatype Block = Block(payload: string, gap: string)

  /** The parts of a generation: line breaks stand behind the closing think tag, and the last
      block may be unfinished. */
  datatype Generation = Generation(reasoning: string, breaks: string, content: string,
                                   blocks: seq<Block>, tail: Option<string>)

  predicate Tagless(s: string) {
    Find(s, TOOL_OPEN) == -1 && Find(s, TOOL_CLOSE) == -1
  }

  function Unfinished(tail: Option<string>): string {
    if tail.None? then "" else TOOL_OPEN + tail.value
  }

  /** The blocks, as a model writes them. */
  function Written(blocks: seq<Block>, tail: Option<string>): string {
    if blocks == [] then Unfinished(tail)
    else TOOL_OPEN + (blocks[0].payload + (TOOL_CLOSE + (blocks[0].gap + Written(blocks[1..], tail))))
  }

  function Visible(g: Generation): string {
    g.content + Written(g.blocks, g.tail)
  }

  function Generated(g: Generation, thinking: bool): string {
    if thinking then g.reasoning + (THINK_CLOSE + (g.breaks + Visible(g))) else Visible(g)
  }

  predicate GoodBlocks(blocks: seq<Block>, tail: Option<string>) {
    && (forall b :: b in blocks ==> Tagless(b.payload) && Tagless(b.gap))
    && (tail.Some? ==> Tagless(tail.value))
  }

  /** No part holds a tag of its own, and line breaks in front of the content belong to the
      breaks. */
  predicate Good(g: Generation) {
    && Find(g.reasoning, THINK_CLOSE) == -1 && (forall k :: 0 <= k < |g.breaks| ==> g.breaks[k] == '\n')
    && (g.content != "" ==> g.content[0] != '\n') && Tagless(g.content) && GoodBlocks(g.blocks, g.tail)
  }

  // ---------------------------------------------------------------- looking for tags

  /** A tag is a bracket and other characters. */
  predicate Tag(tag: string) {
    tag != "" && tag[0] == '<' && forall k :: 0 < k < |tag| ==> tag[k] != '<'
  }

  lemma Tags()
    ensures Tag(TOOL_OPEN) && Tag(TOOL_CLOSE) && Tag(THINK_CLOSE) && |TOOL_OPEN| > 1 && |TOOL_CLOSE| > 1
    ensures TOOL_OPEN[1] != TOOL_CLOSE[1]
  {
  }

  /** Text without the tag in front of a bracket moves the tag, and does not make one. */
  lemma FindBehind(a: string, x: string, tag: string)
    requires Find(a, tag) == -1 && Tag(tag) && (x != "" ==> x[0] == '<')
    ensures Find(a + x, tag) == if Find(x, tag) == -1 then -1 else |a| + Find(x, tag)
  {
    hide FindFrom;
    var i, j := Find(a + x, tag), Find(x, tag);
    if i != -1 {
      AtAppend(a, x, tag, i);
      if i < |a| < i + |tag| { AtChar(a + x, tag, i, |a| - i); }
    }
    if j != -1 { AtAppend(a, x, tag, |a| + j); }
  }

  /** A tag, read as another one. */
  lemma OtherTag(x: string, y: string, rest: string)
    requires Tag(x) && Tag(y) && |x| > 1 && |y| > 1 && x[1] != y[1]
    ensures Find(x + rest, y) != 0
  {
    hide FindFrom;
    if Find(x + rest, y) == 0 { AtChar(x + rest, y, 0, 1); }
  }

  /** The first tag behind a text that has none. */
  lemma NextTag(a: string, tag: string, other: string, rest: string)
    requires Find(a, tag) == -1 && Find(a, other) == -1 && Tag(tag) && Tag(other)
    requires |tag| > 1 && |other| > 1 && tag[1] != other[1]
    ensures var s := a + (tag + rest);
            Find(s, tag) == |a| && (Find(s, other) == -1 || Find(s, other) > |a|)
            && Ahead(s, tag) == a && After(s, tag) == rest
  {
    hide FindFrom;
    FindBehind(a, tag + rest, tag);
    FindBehind(a, tag + rest, other);
    TagFirst(tag, rest);
    OtherTag(tag, other, rest);
    AroundTagIs(a + (tag + rest), tag, a, rest);
  }

  // ------------------------------------------------------------------ the blocks

  function Payloads(blocks: seq<Block>): seq<string> {
    seq(|blocks|, i requires 0 <= i < |blocks| => Strip(blocks[i].payload))
  }

  /** What stands between and behind the blocks. */
  function Gaps(blocks: seq<Block>): string {
    if blocks == [] then "" else blocks[0].gap + Gaps(blocks[1..])
  }

  /** What the block loop is left with. */
  function Left(gap: string, blocks: seq<Block>, tail: Option<string>): string {
    if tail.Some? then tail.value else if blocks == [] then gap else blocks[|blocks| - 1].gap
  }

  /** Both readers find the payloads of the blocks. */
  lemma {:induction false} BlocksReadBack(gap: string, blocks: seq<Block>, tail: Option<string>)
    requires Tagless(gap) && GoodBlocks(blocks, tail)
    ensures var s := gap + Written(blocks, tail);
            && Scan(s) == Split(Payloads(blocks), Left(gap, blocks, tail))
            && FindAll(s) == Payloads(blocks)
            && RemoveAll(s) == gap + (Gaps(blocks) + Unfinished(tail))
    decreases |blocks|
  {
    if blocks == [] {
      NoBlock(gap, tail);
      assert "" + Unfinished(tail) == Unfinished(tail);
    } else {
      var b, rest := blocks[0], blocks[1..];
      assert b in blocks && forall c :: c in rest ==> c in blocks;
      BlocksReadBack(b.gap, rest, tail);
      OneBlock(gap, b.payload, b.gap + Written(rest, tail));
      hide *;
      PayloadsCons(blocks);
      GapsCons(gap, blocks, tail);
      WrittenCons(blocks, tail);
    }
  }

  lemma WrittenCons(blocks: seq<Block>, tail: Option<string>)
    requires blocks != []
    ensures Written(blocks, tail)
         == TOOL_OPEN + (blocks[0].payload + (TOOL_CLOSE + (blocks[0].gap + Written(blocks[1..], tail))))
    ensures forall gap :: Left(gap, blocks, tail) == Left(blocks[0].gap, blocks[1..], tail)
  {
  }

  lemma PayloadsCons(blocks: seq<Block>)
    requires blocks != []
    ensures Payloads(blocks) == [Strip(blocks[0].payload)] + Payloads(blocks[1..])
  {
    hide Strip;
  }

  lemma GapsCons(gap: string, blocks: seq<Block>, tail: Option<string>)
    requires blocks != []
    ensures gap + (Gaps(blocks) + Unfinished(tail))
         == gap + (blocks[0].gap + (Gaps(blocks[1..]) + Unfinished(tail)))
  {
    hide Unfinished;
    Assoc(blocks[0].gap, Gaps(blocks[1..]), Unfinished(tail));
  }

  /** No finished block. */
  lemma NoBlock(gap: string, tail: Option<string>)
    requires Tagless(gap) && (tail.Some? ==> Tagless(tail.value))
    ensures var s := gap + Unfinished(tail);
            Scan(s) == Split([], Left(gap, [], tail)) && FindAll(s) == [] && RemoveAll(s) == s
  {
    Tags();
    hide TOOL_OPEN, TOOL_CLOSE, FindFrom, Strip, Tag;
    if tail.Some? {
      var s := gap + (TOOL_OPEN + tail.value);
      NextTag(gap, TOOL_OPEN, TOOL_CLOSE, tail.value);
      NoCloseBehind(gap, tail.value);
      hide Find, After, Ahead;
      assert NextTurn(s) == Skip(tail.value);
      assert NextTurn(tail.value) == Wait;
    } else {
      assert gap + "" == gap;
      hide Find, After, Ahead;
      assert NextTurn(gap) == Wait;
    }
  }

  lemma NoCloseBehind(gap: string, tail: string)
    requires Find(gap, TOOL_CLOSE) == -1 && Find(tail, TOOL_CLOSE) == -1
    ensures Find(gap + (TOOL_OPEN + tail), TOOL_CLOSE) == -1
  {
    Tags();
    hide TOOL_OPEN, TOOL_CLOSE, FindFrom;
    FindBehind(gap, TOOL_OPEN + tail, TOOL_CLOSE);
    OtherTag(TOOL_OPEN, TOOL_CLOSE, tail);
    var s := TOOL_OPEN + tail;
    var j := Find(s, TOOL_CLOSE);
    if j != -1 {
      AtChar(s, TOOL_CLOSE, j, 0);
      AtAppend(TOOL_OPEN, tail, TOOL_CLOSE, j);
    }
  }

  /** One finished block, and what follows it. */
  lemma OneBlock(gap: string, payload: string, rest: string)
    requires Tagless(gap) && Tagless(payload)
    ensures var s := gap + (TOOL_OPEN + (payload + (TOOL_CLOSE + rest)));
            && Scan(s) == Split([Strip(payload)] + Scan(rest).pieces, Scan(rest).rest)
            && FindAll(s) == [Strip(payload)] + FindAll(rest)
            && RemoveAll(s) == gap + RemoveAll(rest)
  {
    Tags();
    hide TOOL_OPEN, TOOL_CLOSE, FindFrom, Strip, Tag;
    var inner := payload + (TOOL_CLOSE + rest);
    var s := gap + (TOOL_OPEN + inner);
    NextTag(gap, TOOL_OPEN, TOOL_CLOSE, inner);
    NextTag(payload, TOOL_CLOSE, TOOL_OPEN, rest);
    hide Find, After, Ahead;
    assert NextTurn(s) == Skip(inner);
    assert NextTurn(inner) == Take(Strip(payload), rest);
    assert Scan(inner) == Split([Strip(payload)], "").Then(Scan(rest));
  }

  // ------------------------------------------------------------------- the calls

  /** The calls are what the payloads parse to, in order. */
  lemma {:induction false} AllParse(payloads: seq<string>, calls: seq<Call>, parse: Parser)
    requires |payloads| == |calls| && forall i :: 0 <= i < |calls| ==> parse(payloads[i]) == Some(calls[i])
    ensures Parsed(payloads, parse) == calls
  {
    if payloads != [] {
      AllParse(payloads[1..], calls[1..], parse);
      assert calls == [calls[0]] + calls[1..];
    }
  }

  /** A payload that does not parse is passed over, wherever it stands. */
  lemma PassedOver(before: seq<string>, payload: string, behind: seq<string>, parse: Parser)
    requires parse(payload).None?
    ensures Parsed(before + [payload] + behind, parse) == Parsed(before + behind, parse)
  {
    ParsedAppend(before + [payload], behind, parse);
    ParsedAppend(before, [payload], parse);
    ParsedAppend(before, behind, parse);
    assert Parsed([payload], parse) == [] by { assert [payload][1..] == []; }
    assert Parsed(before, parse) + [] == Parsed(before, parse);
  }

  // ---------------------------------------------------------- the whole generation

  /** The visible text behind the closing think tag is what follows it less line breaks in
      front, and nothing but line breaks. */
  lemma ContentBehind(t: string) returns (n: nat)
    requires Find(t, THINK_CLOSE) != -1
    ensures var after, c := After(t, THINK_CLOSE), ContentText(t, true);
            && n <= |after| && (forall k :: 0 <= k < n ==> after[k] == '\n')
            && c == after[n..] && (c != "" ==> c[0] != '\n')
  {
    LStripNewlinesCuts(After(t, THINK_CLOSE));
    hide Find, LStripNewlines;
    n := |After(t, THINK_CLOSE)| - |LStripNewlines(After(t, THINK_CLOSE))|;
  }

  lemma {:induction false} BreaksCut(breaks: string, c: string)
    requires (forall k :: 0 <= k < |breaks| ==> breaks[k] == '\n') && (c != "" ==> c[0] != '\n')
    ensures LStripNewlines(breaks + c) == c
  {
    if breaks == "" {
      assert "" + c == c;
    } else {
      assert (breaks + c)[1..] == breaks[1..] + c;
      BreaksCut(breaks[1..], c);
    }
  }

  lemma VisibleStarts(g: Generation)
    requires Good(g)
    ensures Visible(g) != "" ==> Visible(g)[0] != '\n'
  {
    hide Find;
  }

  /** Reasoning and visible text of what was generated. */
  lemma TextsReadBack(g: Generation, thinking: bool)
    requires Good(g)
    ensures var t := Generated(g, thinking);
            && ContentText(t, thinking) == Visible(g)
            && ReasoningText(t, thinking) == if thinking then g.reasoning else ""
    ensures thinking ==> Find(Generated(g, thinking), THINK_CLOSE) == |g.reasoning|
  {
    if thinking {
      Tags();
      TagShapes();
      VisibleStarts(g);
      hide THINK_CLOSE, FindFrom, LStripNewlines, Visible, Tag;
      var rest := g.breaks + Visible(g);
      FindBehind(g.reasoning, THINK_CLOSE + rest, THINK_CLOSE);
      TagFirst(THINK_CLOSE, rest);
      AroundTagIs(g.reasoning + (THINK_CLOSE + rest), THINK_CLOSE, g.reasoning, rest);
      BreaksCut(g.breaks, Visible(g));
    }
  }

  /** There is an opening tag exactly if there is a block, finished or not. */
  lemma FirstBlock(g: Generation)
    requires Good(g)
    ensures var c := Visible(g);
            if g.blocks == [] && g.tail.None? then c == g.content && Find(c, TOOL_OPEN) == -1
            else Find(c, TOOL_OPEN) == |g.content| && Ahead(c, TOOL_OPEN) == g.content
                 && From(c, TOOL_OPEN) == Written(g.blocks, g.tail)
  {
    Tags();
    hide TOOL_OPEN, TOOL_CLOSE, FindFrom, Tag;
    if g.blocks != [] || g.tail.Some? {
      var w := Written(g.blocks, g.tail);
      var rest := w[|TOOL_OPEN|..];
      assert w == TOOL_OPEN + rest;
      NextTag(g.content, TOOL_OPEN, TOOL_CLOSE, rest);
      AroundTagIs(g.content + (TOOL_OPEN + rest), TOOL_OPEN, g.content, rest);
    } else {
      assert g.content + "" == g.content;
    }
  }

  /** What a client is told in the end. */
  function Reason(eos: string, calls: seq<Call>): string {
    if eos == "max_new_tokens" then "length" else if calls != [] then "tool_calls" else "stop"
  }

  /** The deltas of the calls, counted from 0, and of the end. */
  ghost predicate Announces(others: seq<Delta>, calls: seq<Call>, eos: string) {
    && |others| == |calls| + 1 && others[|calls|] == Finish(Reason(eos, calls))
    && forall i :: 0 <= i < |calls| ==> others[i] == Tool(i, calls[i])
  }

  /** Streamed in any chunks, a generation is seen as its parts: the reasoning, the content, the
      payloads that parse as calls, and without any call what the last block has in it. */
  lemma StreamReadsBack(chunks: seq<string>, g: Generation, eos: string, thinking: bool, parse: Parser)
    requires Good(g) && Concat(chunks) == Generated(g, thinking) && (thinking ==> !Opens(Generated(g, thinking)))
    ensures var seen, calls := See(Output(chunks, eos, thinking, parse)), Parsed(Payloads(g.blocks), parse);
            && seen.reasoning == (if thinking then g.reasoning else "")
            && seen.content == g.content + (if calls != [] then "" else Strip(Left("", g.blocks, g.tail)))
            && Announces(seen.others, calls, eos)
  {
    StreamIsDeclared(chunks, eos, thinking, parse);
    hide *;
    DeclaredParts(Generated(g, thinking), eos, thinking, parse);
    TextsReadBack(g, thinking);
    ContentReadsBack(g, eos, parse);
  }

  lemma ContentReadsBack(g: Generation, eos: string, parse: Parser)
    requires Good(g)
    ensures var seen, calls := DeclaredContent(Visible(g), eos, parse), Parsed(Payloads(g.blocks), parse);
            && seen.content == g.content + (if calls != [] then "" else Strip(Left("", g.blocks, g.tail)))
            && Announces(seen.others, calls, eos)
  {
    FirstBlock(g);
    EmptyTagless();
    assert GoodBlocks(g.blocks, g.tail);
    Announced(Parsed(Payloads(g.blocks), parse), eos);
    if g.blocks == [] && g.tail.None? {
      PlainReadsBack(g, eos, parse);
    } else {
      hide *;
      BlocksReadBack("", g.blocks, g.tail);
      assert "" + Written(g.blocks, g.tail) == Written(g.blocks, g.tail);
      BlocksDeclared(Visible(g), eos, parse);
    }
  }

  lemma PlainReadsBack(g: Generation, eos: string, parse: Parser)
    requires g.blocks == [] && g.tail.None? && Visible(g) == g.content && Find(g.content, TOOL_OPEN) == -1
    ensures Parsed(Payloads(g.blocks), parse) == [] && Left("", g.blocks, g.tail) == ""
    ensures var seen := DeclaredContent(Visible(g), eos, parse);
            && seen.content == g.content + Strip("") && Announces(seen.others, [], eos)
  {
    StripTags();
    hide TOOL_OPEN, Find, Strip, Visible;
    assert Payloads([]) == [];
    assert g.content + "" == g.content;
  }

  lemma BlocksDeclared(c: string, eos: string, parse: Parser)
    requires Find(c, TOOL_OPEN) != -1
    ensures var r := Scan(From(c, TOOL_OPEN));
            var calls, seen := Parsed(r.pieces, parse), DeclaredContent(c, eos, parse);
            && seen.content == Ahead(c, TOOL_OPEN) + (if calls != [] then "" else Strip(r.rest))
            && seen.others == Numbered(calls, 0) + [Finish(FinishReason(eos, |calls|))]
  {
    hide TOOL_OPEN, Find, From, Ahead, Scan, Parsed, Strip, Numbered;
  }

  lemma Announced(calls: seq<Call>, eos: string)
    ensures Announces(Numbered(calls, 0) + [Finish(FinishReason(eos, |calls|))], calls, eos)
  {
  }

  lemma EmptyTagless()
    ensures Tagless("")
  {
    TagShapes();
    EmptyHolds(TOOL_OPEN);
    EmptyHolds(TOOL_CLOSE);
  }

  /** Answered at once, it has the same calls and end; of the content only the finished blocks
      are taken out, and only if one of them is a call. */
  lemma BufferReadsBack(g: Generation, eos: string, thinking: bool, parse: Parser)
    requires Good(g) && (thinking ==> !Opens(Generated(g, thinking)))
    ensures var m := Buffered.Whole(Generated(g, thinking), eos, thinking, parse);
            var calls := Parsed(Payloads(g.blocks), parse);
            && m.reasoning == (if thinking then Strip(g.reasoning) else "")
            && m.content == (if calls == [] then Visible(g)
                             else Strip(g.content + (Gaps(g.blocks) + Unfinished(g.tail))))
            && Announces(m.calls + [Finish(m.finish)], calls, eos)
  {
    GoodParts(g);
    TextsReadBack(g, thinking);
    var t, c, calls := Generated(g, thinking), Visible(g), Parsed(Payloads(g.blocks), parse);
    WholeReads(t, eos, thinking, parse);
    Announced(calls, eos);
    LiftedBlocks(c, eos, parse);
    hide *;
    BlocksReadBack(g.content, g.blocks, g.tail);
    VisibleIs(g);
  }

  lemma GoodParts(g: Generation)
    requires Good(g)
    ensures Tagless(g.content) && GoodBlocks(g.blocks, g.tail)
  {
  }

  lemma VisibleIs(g: Generation)
    ensures Visible(g) == g.content + Written(g.blocks, g.tail)
  {
  }

  lemma LiftedBlocks(c: string, eos: string, parse: Parser)
    ensures var calls, m := Parsed(FindAll(c), parse), Lifted("", c, eos, parse);
            && m.content == (if calls == [] then c else Strip(RemoveAll(c)))
            && m.calls == Numbered(calls, 0) && m.finish == FinishReason(eos, |calls|)
  {
    hide FindAll, RemoveAll, Parsed, Strip, Numbered;
  }

  lemma WholeReads(t: string, eos: string, thinking: bool, parse: Parser)
    requires thinking ==> !Opens(t) && Find(t, THINK_CLOSE) != -1
    ensures var whole := Buffered.Whole(t, eos, thinking, parse);
            var lifted := Lifted("", ContentText(t, thinking), eos, parse);
            && whole.reasoning == (if thinking then Strip(ReasoningText(t, thinking)) else "")
            && whole.content == lifted.content && whole.calls == lifted.calls && whole.finish == lifted.finish
  {
    hide THINK_CLOSE, Find, Ahead, After, FindAll, RemoveAll, Strip, Parsed, LStripNewlines, LStrip, Numbered;
  }
}
