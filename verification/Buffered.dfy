/** The exl3 server's other path: the same splitting done on the whole text at once. The
    streamed and the buffered tool calls agree exactly when every closing tag has one
    opening tag of its own. */
module Buffered {
  import opened Calls
  import opened Text
  import opened Splitter
  import opened SplitterTheorems

  /** All matches of `<tool_call>\s*(.*?)\s*</tool_call>`: from each opening tag to the
      first closing tag after it, stripped. */
  function FindAll(c: string): (payloads: seq<string>)
    decreases |c|
  {
    if Find(c, TOOL_OPEN) == -1 then []
    else
      AroundTag(c, TOOL_OPEN);
      var inner := After(c, TOOL_OPEN);
      if Find(inner, TOOL_CLOSE) == -1 then []
      else
        AroundTag(inner, TOOL_CLOSE);
        [Strip(Ahead(inner, TOOL_CLOSE))] + FindAll(After(inner, TOOL_CLOSE))
  }

  /** The text with all matches cut out. */
  function RemoveAll(c: string): string
    decreases |c|
  {
    if Find(c, TOOL_OPEN) == -1 then c
    else
      AroundTag(c, TOOL_OPEN);
      var inner := After(c, TOOL_OPEN);
      if Find(inner, TOOL_CLOSE) == -1 then c
      else
        AroundTag(inner, TOOL_CLOSE);
        Ahead(c, TOOL_OPEN) + RemoveAll(After(inner, TOOL_CLOSE))
  }

  datatype Message = Message(reasoning: string, content: string, calls: seq<Delta>, finish: string)

  function Lifted(reasoning: string, content: string, eos: string, parse: Parser): Message {
    var calls := Parsed(FindAll(content), parse);
    var finish := if eos == "max_new_tokens" then "length" else "stop";
    Message(reasoning, if calls == [] then content else Strip(RemoveAll(content)), Numbered(calls, 0),
            if calls != [] && finish == "stop" then "tool_calls" else finish)
  }

  /** The message of a request that is not streamed. */
  function Whole(t: string, eos: string, thinking: bool, parse: Parser): Message {
    if !thinking then Lifted("", t, eos, parse)
    else
      var content := Unopened(t);
      if Find(content, THINK_CLOSE) == -1 then Lifted(content, "", eos, parse)
      else
        Lifted(Strip(Ahead(content, THINK_CLOSE)), LStripNewlines(After(content, THINK_CLOSE)), eos, parse)
  }

  /** Every closing tag in `b` has exactly one opening tag between the previous closing tag
      and itself. */
  predicate OneOpenPerClose(b: string)
    decreases |b|
  {
    Find(b, TOOL_CLOSE) == -1 ||
    (Before(b, TOOL_OPEN, TOOL_CLOSE) && !Nested(b)
     && (AroundTag(b, TOOL_CLOSE); TagShapes(); OneOpenPerClose(After(b, TOOL_CLOSE))))
  }

  /** The first block of `b` has a second opening tag in it. */
  predicate Nested(b: string)
    requires Before(b, TOOL_OPEN, TOOL_CLOSE)
  {
    Before(After(b, TOOL_OPEN), TOOL_OPEN, TOOL_CLOSE)
  }

  // -------------------------------------------------- which payloads are found

  lemma TagFacts()
    ensures TOOL_OPEN != "" && TOOL_CLOSE != ""
    ensures !IsSpace(TOOL_OPEN[0]) && !IsSpace(TOOL_OPEN[|TOOL_OPEN| - 1])
    ensures forall k :: 0 < k < |TOOL_OPEN| ==> TOOL_OPEN[k] != TOOL_CLOSE[0]
    ensures forall k :: 0 < k < |TOOL_CLOSE| ==> TOOL_CLOSE[k] != TOOL_OPEN[0]
  {
  }

  /** Once the opening tag is skipped, the closing tag and what follows it are the same. */
  lemma InnerClose(b: string)
    requires Before(b, TOOL_OPEN, TOOL_CLOSE) && Find(b, TOOL_CLOSE) != -1
    ensures var inner := After(b, TOOL_OPEN);
            && Find(inner, TOOL_CLOSE) != -1 && |inner| < |b|
            && After(inner, TOOL_CLOSE) == After(b, TOOL_CLOSE)
            && Scan(b) == Scan(inner)
  {
    TagFacts();
    hide TOOL_OPEN, TOOL_CLOSE, Find, After, Ahead, At;
    AfterBoth(b, TOOL_OPEN, TOOL_CLOSE);
    AroundTag(b, TOOL_OPEN);
  }

  /** The payload before a closing tag keeps an opening tag exactly if one comes first. */
  lemma PayloadOpens(b: string)
    requires Find(b, TOOL_CLOSE) != -1
    ensures Find(Strip(Ahead(b, TOOL_CLOSE)), TOOL_OPEN) != -1 <==> Before(b, TOOL_OPEN, TOOL_CLOSE)
  {
    TagFacts();
    hide TOOL_OPEN, TOOL_CLOSE, Find, Ahead, Strip, IsSpace;
    AheadHas(b, TOOL_OPEN, TOOL_CLOSE);
    StripKeepsTag(Ahead(b, TOOL_CLOSE), TOOL_OPEN);
  }

  /** The block loop up to the first closing tag: one payload, with no opening tag in it. */
  lemma {:induction false} ScanToClose(b: string)
    requires Find(b, TOOL_CLOSE) != -1
    ensures var pieces := Scan(b).pieces;
            && pieces != [] && Find(pieces[0], TOOL_OPEN) == -1
            && pieces[1..] == Scan(After(b, TOOL_CLOSE)).pieces
            && (!Before(b, TOOL_OPEN, TOOL_CLOSE) ==> pieces[0] == Strip(Ahead(b, TOOL_CLOSE)))
    decreases |b|
  {
    hide TOOL_OPEN, TOOL_CLOSE, FindFrom, Strip;
    if Before(b, TOOL_OPEN, TOOL_CLOSE) {
      InnerClose(b);
      hide Find, Scan, After;
      ScanToClose(After(b, TOOL_OPEN));
    } else {
      PayloadOpens(b);
      AroundTag(b, TOOL_CLOSE);
      hide Find, After, Ahead;
    }
  }

  /** How the two searches take the first closing tag. */
  lemma FindAllToClose(b: string)
    requires Find(b, TOOL_CLOSE) != -1
    ensures if Before(b, TOOL_OPEN, TOOL_CLOSE) then
              var inner := After(b, TOOL_OPEN);
              && Find(inner, TOOL_CLOSE) != -1
              && FindAll(b) == [Strip(Ahead(inner, TOOL_CLOSE))] + FindAll(After(b, TOOL_CLOSE))
            else FindAll(b) == FindAll(After(b, TOOL_CLOSE))
  {
    hide TOOL_OPEN, TOOL_CLOSE, Find, After, Ahead, Strip, At;
    if Before(b, TOOL_OPEN, TOOL_CLOSE) {
      InnerClose(b);
    } else if Find(b, TOOL_OPEN) == -1 {
      AfterNone(b, TOOL_CLOSE, TOOL_OPEN);
    } else {
      TagFacts();
      TagsApart(b);
      AfterBoth(b, TOOL_CLOSE, TOOL_OPEN);
    }
  }

  lemma {:induction false} NoClose(b: string)
    requires Find(b, TOOL_CLOSE) == -1
    ensures Scan(b).pieces == [] && FindAll(b) == []
    decreases |b|
  {
    TagFacts();
    hide TOOL_OPEN, TOOL_CLOSE, Find, After, Ahead, Strip, At;
    if Find(b, TOOL_OPEN) != -1 {
      AroundTag(b, TOOL_OPEN);
      AfterNone(b, TOOL_OPEN, TOOL_CLOSE);
      NoClose(After(b, TOOL_OPEN));
    }
  }

  lemma AfterShorter(b: string)
    requires Find(b, TOOL_CLOSE) != -1
    ensures |After(b, TOOL_CLOSE)| < |b|
  {
    TagFacts();
    AroundTag(b, TOOL_CLOSE);
  }

  /** The regular expression never finds more blocks than the stream closes. */
  lemma {:induction false} FewerFound(b: string)
    ensures |FindAll(b)| <= |Scan(b).pieces|
    decreases |b|
  {
    hide *;
    if Find(b, TOOL_CLOSE) == -1 {
      NoClose(b);
    } else {
      ScanToClose(b);
      FindAllToClose(b);
      AfterShorter(b);
      FewerFound(After(b, TOOL_CLOSE));
    }
  }

  lemma Heads(p: string, ps: seq<string>, q: string, qs: seq<string>)
    ensures [p] + ps == [q] + qs <==> p == q && ps == qs
  {
    if [p] + ps == [q] + qs {
      assert ([p] + ps)[0] == ([q] + qs)[0];
      assert ([p] + ps)[1..] == ([q] + qs)[1..];
    }
  }

  lemma OneOpenStep(b: string)
    requires Find(b, TOOL_CLOSE) != -1
    ensures OneOpenPerClose(b) <==>
            Before(b, TOOL_OPEN, TOOL_CLOSE) && !Nested(b) && OneOpenPerClose(After(b, TOOL_CLOSE))
  {
    hide TOOL_OPEN, TOOL_CLOSE, Find, After, Before, Nested;
  }

  /** A block with a second opening tag keeps it when buffered and loses it when streamed. */
  lemma AgreeStep(b: string)
    requires Find(b, TOOL_CLOSE) != -1 && Before(b, TOOL_OPEN, TOOL_CLOSE)
    ensures Scan(b).pieces == FindAll(b)
            <==> !Nested(b) && Scan(After(b, TOOL_CLOSE)).pieces == FindAll(After(b, TOOL_CLOSE))
  {
    hide TOOL_OPEN, TOOL_CLOSE, Find, Scan, FindAll, Strip, After, Ahead, IsSpace;
    var inner, tail := After(b, TOOL_OPEN), After(b, TOOL_CLOSE);
    InnerClose(b);
    ScanToClose(b);
    FindAllToClose(b);
    ScanToClose(inner);
    PayloadOpens(inner);
    var payload, found := Strip(Ahead(inner, TOOL_CLOSE)), Scan(b).pieces;
    assert found == [found[0]] + Scan(tail).pieces;
    Heads(found[0], Scan(tail).pieces, payload, FindAll(tail));
  }

  /** The streamed and the buffered payloads are the same exactly when every closing tag has
      one opening tag of its own. */
  lemma {:induction false} PayloadsAgreeIff(b: string)
    ensures Scan(b).pieces == FindAll(b) <==> OneOpenPerClose(b)
    decreases |b|
  {
    hide TOOL_OPEN, TOOL_CLOSE, Find, Scan, FindAll, Before, After, Nested;
    if Find(b, TOOL_CLOSE) == -1 {
      NoClose(b);
    } else {
      OneOpenStep(b);
      AfterShorter(b);
      PayloadsAgreeIff(After(b, TOOL_CLOSE));
      hide OneOpenPerClose;
      if Before(b, TOOL_OPEN, TOOL_CLOSE) {
        AgreeStep(b);
      } else {
        ScanToClose(b);
        FindAllToClose(b);
        FewerFound(After(b, TOOL_CLOSE));
        assert |Scan(b).pieces| == 1 + |Scan(After(b, TOOL_CLOSE)).pieces|;
      }
    }
  }

  /** The parser that keeps the whole payload as the call's name. */
  function Verbatim(): Parser {
    payload => Some(Call(payload, ""))
  }

  lemma {:induction false} VerbatimKeepsAll(payloads: seq<string>)
    ensures var calls := Parsed(payloads, Verbatim());
            |calls| == |payloads| && forall i :: 0 <= i < |calls| ==> calls[i].name == payloads[i]
  {
    if payloads != [] { VerbatimKeepsAll(payloads[1..]); }
  }

  /** The two lists of payloads parse to the same calls, whatever the parser. */
  ghost predicate SameCalls(a: seq<string>, b: seq<string>) {
    forall parse: Parser :: Parsed(a, parse) == Parsed(b, parse)
  }

  lemma SameCallsIff(a: seq<string>, b: seq<string>)
    ensures SameCalls(a, b) <==> a == b
  {
    if SameCalls(a, b) {
      VerbatimKeepsAll(a);
      VerbatimKeepsAll(b);
      var parse := Verbatim();
      assert Parsed(a, parse) == Parsed(b, parse);
    }
  }

  /** No choice of payload parser can make up for a closing tag without its own opening tag. */
  lemma CallsAgreeIff(b: string)
    ensures SameCalls(Scan(b).pieces, FindAll(b)) <==> OneOpenPerClose(b)
  {
    PayloadsAgreeIff(b);
    SameCallsIff(Scan(b).pieces, FindAll(b));
  }

  lemma TagFirst(tag: string, rest: string)
    requires tag != ""
    ensures Find(tag + rest, tag) == 0 && Ahead(tag + rest, tag) == "" && After(tag + rest, tag) == rest
  {
    assert At(tag + rest, tag, 0) by { assert (tag + rest)[0..|tag|] == tag; }
  }

  /** The only closing tag of this text stands at its end. */
  lemma CloseBehindOpen(head: string)
    requires head == "" || head == TOOL_OPEN || head == TOOL_OPEN + TOOL_OPEN
    ensures Find(head + TOOL_CLOSE, TOOL_CLOSE) == |head|
  {
    var s := head + TOOL_CLOSE;
    assert At(s, TOOL_CLOSE, |head|) by { assert s[|head|..|head| + |TOOL_CLOSE|] == TOOL_CLOSE; }
    NoSlash(head);
    assert TOOL_CLOSE[1] == '/' && TOOL_CLOSE[0] != '/';
    hide TOOL_OPEN, TOOL_CLOSE, FindFrom;
    var i := Find(s, TOOL_CLOSE);
    AtChar(s, TOOL_CLOSE, i, 1);
  }

  lemma NoSlash(head: string)
    requires head == "" || head == TOOL_OPEN || head == TOOL_OPEN + TOOL_OPEN
    ensures forall k :: 0 <= k < |head| ==> head[k] != '/'
  {
  }

  lemma TwoOpensFound()
    ensures var inner, b := TOOL_OPEN + TOOL_CLOSE, TOOL_OPEN + (TOOL_OPEN + TOOL_CLOSE);
            && Find(b, TOOL_OPEN) == 0 < Find(b, TOOL_CLOSE) && After(b, TOOL_OPEN) == inner
            && Find(inner, TOOL_OPEN) == 0 < Find(inner, TOOL_CLOSE) && After(inner, TOOL_OPEN) == TOOL_CLOSE
            && Ahead(inner, TOOL_CLOSE) == TOOL_OPEN && After(inner, TOOL_CLOSE) == ""
            && Find(TOOL_CLOSE, TOOL_OPEN) == -1 && Find(TOOL_CLOSE, TOOL_CLOSE) == 0
            && Ahead(TOOL_CLOSE, TOOL_CLOSE) == "" && After(TOOL_CLOSE, TOOL_CLOSE) == ""
  {
    TagFacts();
    CloseBehindOpen("");
    CloseBehindOpen(TOOL_OPEN);
    CloseBehindOpen(TOOL_OPEN + TOOL_OPEN);
    OnlyClose();
    hide TOOL_OPEN, TOOL_CLOSE, Find, Ahead, After;
    assert "" + TOOL_CLOSE == TOOL_CLOSE;
    Assoc(TOOL_OPEN, TOOL_OPEN, TOOL_CLOSE);
    TagFirst(TOOL_OPEN, TOOL_OPEN + TOOL_CLOSE);
    TagFirst(TOOL_OPEN, TOOL_CLOSE);
    assert TOOL_CLOSE + "" == TOOL_CLOSE;
    AroundTagIs(TOOL_CLOSE, TOOL_CLOSE, "", "");
    AroundTagIs(TOOL_OPEN + TOOL_CLOSE, TOOL_CLOSE, TOOL_OPEN, "");
  }

  /** A block with two opening tags: the stream takes the text behind the second, the regular
      expression the text behind the first. */
  lemma TwoOpens()
    ensures var b := TOOL_OPEN + (TOOL_OPEN + TOOL_CLOSE);
            !OneOpenPerClose(b) && Scan(b).pieces == [""] && FindAll(b) == [TOOL_OPEN]
  {
    var b := TOOL_OPEN + (TOOL_OPEN + TOOL_CLOSE);
    TwoOpensFound();
    StripTags();
    ScanEmpty();
    NoBlocks();
    TagFacts();
    hide TOOL_OPEN, TOOL_CLOSE, Find, Ahead, After, Strip;
    assert FindAll(b) == [TOOL_OPEN] by { hide Scan; }
    assert Scan(b).pieces == [""] by {
      hide FindAll;
      assert Scan(TOOL_CLOSE) == Split([""], "").Then(Scan(""));
    }
    hide Scan, FindAll, OneOpenPerClose;
    PayloadsAgreeIff(b);
  }

  lemma ScanEmpty()
    ensures Scan("") == Split([], "")
  {
    TagFacts();
  }

  lemma OnlyClose()
    ensures Find(TOOL_CLOSE, TOOL_OPEN) == -1 && Find("", TOOL_CLOSE) == -1
  {
    assert forall k :: 1 < k < |TOOL_CLOSE| - 1 ==> TOOL_CLOSE[k] != '<';
    assert TOOL_CLOSE[1] != TOOL_OPEN[1] && TOOL_OPEN[0] == '<';
    assert TOOL_CLOSE[|TOOL_CLOSE| - 1] == '>' && TOOL_CLOSE[1] == '/' && |TOOL_OPEN| > 1 && |TOOL_CLOSE| > 1;
    hide TOOL_OPEN, TOOL_CLOSE, FindFrom;
    var i := Find(TOOL_CLOSE, TOOL_OPEN);
    if i != -1 { TwoChars(TOOL_CLOSE, TOOL_OPEN, i); }
  }

  lemma OnlyOpen()
    ensures Find("", TOOL_CLOSE) == -1
  {
  }

  lemma TwoChars(s: string, tag: string, i: int)
    requires At(s, tag, i) && |tag| > 1
    ensures s[i] == tag[0] && s[i + 1] == tag[1]
  {
    AtChar(s, tag, i, 0);
    AtChar(s, tag, i, 1);
  }

  lemma StripTags()
    ensures Strip(TOOL_OPEN) == TOOL_OPEN && Strip("") == ""
  {
    TagFacts();
    assert LStrip("") == "" && RStrip("") == "";
    hide TOOL_OPEN, IsSpace;
    assert LStrip(TOOL_OPEN) == TOOL_OPEN && RStrip(TOOL_OPEN) == TOOL_OPEN;
  }

  // --------------------------------------------------------- the two messages

  /** The visible text of a generation. */
  function VisibleText(t: string, thinking: bool): string {
    ContentText(if thinking then Unopened(t) else t, thinking)
  }

  /** From the first opening tag on; what precedes it is content on both paths. */
  function Blocks(c: string): string {
    if Find(c, TOOL_OPEN) == -1 then "" else From(c, TOOL_OPEN)
  }

  lemma FindAllFromFirst(c: string)
    ensures FindAll(c) == FindAll(Blocks(c))
  {
    NoBlocks();
    hide TOOL_OPEN, TOOL_CLOSE, Find, After, Ahead, From;
    if Find(c, TOOL_OPEN) != -1 { FromFirst(c, TOOL_OPEN); }
  }

  // ------------------------------------------------------------ the two contents

  /** How many characters of a text are not whitespace. */
  function Ink(s: string): nat {
    if s == "" then 0 else Ink(s[..|s| - 1]) + if IsSpace(s[|s| - 1]) then 0 else 1
  }

  lemma {:induction false} InkAppend(a: string, b: string)
    ensures Ink(a + b) == Ink(a) + Ink(b)
    decreases |b|
  {
    if b == "" {
      assert a + b == a;
    } else {
      var n := |b| - 1;
      InkAppend(a, b[..n]);
      assert (a + b)[..|a + b| - 1] == a + b[..n];
      hide IsSpace;
    }
  }

  lemma {:induction false} InkBlank(s: string)
    ensures Ink(s) == 0 <==> forall k :: 0 <= k < |s| ==> IsSpace(s[k])
  {
    hide IsSpace;
    if s != "" {
      var n := |s| - 1;
      InkBlank(s[..n]);
      assert forall k :: 0 <= k < n ==> s[k] == s[..n][k];
    }
  }

  /** Stripping takes away no ink. */
  lemma InkStrip(s: string)
    ensures Ink(Strip(s)) == Ink(s)
  {
    StripTrims(s);
    hide *;
    var lo, hi := StrippedPart(s);
    InkBetween(s, lo, hi);
  }

  lemma StrippedPart(s: string) returns (lo: nat, hi: nat)
    requires Trimmed(s, Strip(s))
    ensures lo <= hi <= |s| && Strip(s) == s[lo..hi] && BlankOutside(s, lo, hi)
  {
    hide Strip, BlankOutside;
    lo, hi :| lo <= hi <= |s| && Strip(s) == s[lo..hi] && BlankOutside(s, lo, hi);
  }

  lemma InkBetween(s: string, lo: nat, hi: nat)
    requires lo <= hi <= |s| && BlankOutside(s, lo, hi)
    ensures Ink(s[lo..hi]) == Ink(s)
  {
    hide IsSpace, Ink;
    assert s == s[..lo] + s[lo..hi] + s[hi..];
    InkAppend(s[..lo] + s[lo..hi], s[hi..]);
    InkAppend(s[..lo], s[lo..hi]);
    InkBlank(s[..lo]);
    InkBlank(s[hi..]);
  }

  lemma {:induction false} RStripBlank(a: string, b: string)
    requires Ink(b) == 0
    ensures RStrip(a + b) == RStrip(a)
    decreases |b|
  {
    if b == "" {
      assert a + b == a;
    } else {
      var n := |b| - 1;
      RStripBlank(a, b[..n]);
      assert IsSpace(b[n]);
      hide IsSpace, Ink;
      assert (a + b)[..|a + b| - 1] == a + b[..n] && (a + b)[|a + b| - 1] == b[n];
    }
  }

  /** What stands behind a text disappears when stripped exactly if it is blank. */
  lemma StripTailIff(a: string, b: string)
    ensures Strip(a + b) == Strip(a) <==> Ink(b) == 0
  {
    hide *;
    InkStrip(a + b);
    InkStrip(a);
    InkAppend(a, b);
    if Ink(b) == 0 { StripBlankTail(a, b); }
  }

  lemma StripBlankTail(a: string, b: string)
    requires Ink(b) == 0
    ensures Strip(a + b) == Strip(a)
  {
    InkBlank(b);
    assert LStrip(b) == "" && RStrip("") == "";
    hide IsSpace, LStrip, RStrip, Ink;
    LStripAppend(a, b);
    RStripBlank(LStrip(a), b);
  }

  /** What scanning leaves is part of what it scanned. */
  lemma {:induction false} ScanInk(b: string)
    ensures Ink(Scan(b).rest) <= Ink(b)
    decreases |b|
  {
    hide TOOL_OPEN, TOOL_CLOSE, Find, Ahead, After, Strip, Ink;
    match NextTurn(b)
    case Skip(tail) =>
      TurnInk(b);
      ScanInk(tail);
    case Take(payload, tail) =>
      TurnInk(b);
      ScanInk(tail);
    case Wait =>
  }

  lemma TurnInk(b: string)
    ensures NextTurn(b) != Wait ==> Ink(NextTurn(b).tail) <= Ink(b)
    ensures NextTurn(b).Skip? ==> Ink(NextTurn(b).tail) < Ink(b)
  {
    InkOfTag();
    hide TOOL_OPEN, TOOL_CLOSE, Find, Ahead, After, Strip, Ink;
    if NextTurn(b).Skip? {
      AroundTag(b, TOOL_OPEN);
      InkAppend(Ahead(b, TOOL_OPEN) + TOOL_OPEN, After(b, TOOL_OPEN));
      InkAppend(Ahead(b, TOOL_OPEN), TOOL_OPEN);
    } else if NextTurn(b).Take? {
      AroundTag(b, TOOL_CLOSE);
      InkAppend(Ahead(b, TOOL_CLOSE) + TOOL_CLOSE, After(b, TOOL_CLOSE));
    }
  }

  lemma InkOfTag()
    ensures Ink(TOOL_OPEN) > 0
  {
    InkBlank(TOOL_OPEN);
    TagFacts();
  }

  /** From the first opening tag on, scanning leaves less ink than there was. */
  lemma BlocksLoseInk(c: string)
    requires Find(c, TOOL_OPEN) != -1
    ensures Ink(Scan(From(c, TOOL_OPEN)).rest) < Ink(From(c, TOOL_OPEN))
  {
    TagFacts();
    FromFirst(c, TOOL_OPEN);
    var b := From(c, TOOL_OPEN);
    TagsApart(b);
    assert NextTurn(b).Skip? by { hide TOOL_OPEN, TOOL_CLOSE, From, After, Ahead, Strip, FindFrom, At; }
    hide TOOL_OPEN, TOOL_CLOSE, Find, From, After, Ahead, Strip, Ink, NextTurn;
    TurnInk(b);
    ScanInk(NextTurn(b).tail);
  }

  /** What is outside the blocks: the text before the first one, and what stands between and
      behind the blocks. */
  lemma RemoveAllFromFirst(c: string)
    requires Find(c, TOOL_OPEN) != -1
    ensures RemoveAll(c) == Ahead(c, TOOL_OPEN) + RemoveAll(From(c, TOOL_OPEN))
  {
    TagFacts();
    AroundTag(c, TOOL_OPEN);
    FromFirst(c, TOOL_OPEN);
    assert Ahead(From(c, TOOL_OPEN), TOOL_OPEN) == "";
    hide TOOL_OPEN, TOOL_CLOSE, Find, From, After, Ahead;
    var inner := After(c, TOOL_OPEN);
    if Find(inner, TOOL_CLOSE) != -1 {
      var more := RemoveAll(After(inner, TOOL_CLOSE));
      assert "" + more == more;
    }
  }

  /** What the scan leaves stands at the end of what is outside the matches. */
  lemma {:induction false} RestIsLast(b: string) returns (gap: string)
    ensures RemoveAll(b) == gap + Scan(b).rest
    decreases |b|
  {
    hide *;
    if Find(b, TOOL_CLOSE) == -1 {
      gap := RestIsSuffix(b);
      NothingRemoved(b);
    } else {
      AfterShorter(b);
      var more := RestIsLast(After(b, TOOL_CLOSE));
      var front := RemovedToClose(b);
      RestToClose(b);
      gap := front + more;
      Assoc(front, more, Scan(b).rest);
    }
  }

  lemma {:induction false} RestIsSuffix(b: string) returns (front: string)
    ensures b == front + Scan(b).rest
    decreases |b|
  {
    TurnCuts(b);
    hide TOOL_OPEN, TOOL_CLOSE, Find, Ahead, After, Strip, NextTurn;
    match NextTurn(b)
    case Wait => front := "";
    case _ =>
      var tail := NextTurn(b).tail;
      var more := RestIsSuffix(tail);
      var head := b[..|b| - |tail|];
      front := head + more;
      Assoc(head, more, Scan(b).rest);
  }

  lemma TurnCuts(b: string)
    ensures NextTurn(b) != Wait ==> b == b[..|b| - |NextTurn(b).tail|] + NextTurn(b).tail
  {
    hide TOOL_OPEN, TOOL_CLOSE, Find, Strip;
    if NextTurn(b).Skip? { AroundTag(b, TOOL_OPEN); }
    if NextTurn(b).Take? { AroundTag(b, TOOL_CLOSE); }
  }

  lemma NothingRemoved(b: string)
    requires Find(b, TOOL_CLOSE) == -1
    ensures RemoveAll(b) == b
  {
    hide TOOL_OPEN, TOOL_CLOSE, Find, After;
    if Find(b, TOOL_OPEN) != -1 { AfterNone(b, TOOL_OPEN, TOOL_CLOSE); }
  }

  /** How removal takes the first closing tag. */
  lemma RemovedToClose(b: string) returns (front: string)
    requires Find(b, TOOL_CLOSE) != -1
    ensures RemoveAll(b) == front + RemoveAll(After(b, TOOL_CLOSE))
  {
    TagFacts();
    AroundTag(b, TOOL_CLOSE);
    hide TOOL_OPEN, TOOL_CLOSE, Find, After, Ahead, At;
    if Before(b, TOOL_OPEN, TOOL_CLOSE) {
      InnerClose(b);
      front := Ahead(b, TOOL_OPEN);
    } else if Find(b, TOOL_OPEN) == -1 {
      AfterNone(b, TOOL_CLOSE, TOOL_OPEN);
      front := Ahead(b, TOOL_CLOSE) + TOOL_CLOSE;
    } else {
      front := RemovedLater(b);
    }
  }

  /** A closing tag in front of the first opening one stays. */
  lemma RemovedLater(b: string) returns (front: string)
    requires Find(b, TOOL_CLOSE) != -1 && Find(b, TOOL_OPEN) != -1 && !Before(b, TOOL_OPEN, TOOL_CLOSE)
    ensures RemoveAll(b) == front + RemoveAll(After(b, TOOL_CLOSE))
  {
    TagFacts();
    TagsApart(b);
    hide TOOL_OPEN, TOOL_CLOSE, FindFrom, At;
    AfterBoth(b, TOOL_CLOSE, TOOL_OPEN);
    var tail := After(b, TOOL_CLOSE);
    AroundTag(b, TOOL_CLOSE);
    AroundTag(b, TOOL_OPEN);
    AroundTag(tail, TOOL_OPEN);
    front := Ahead(b, TOOL_CLOSE) + TOOL_CLOSE;
    hide Find, After, Ahead, From;
    SameHead(front, Ahead(tail, TOOL_OPEN), TOOL_OPEN + After(tail, TOOL_OPEN), Ahead(b, TOOL_OPEN));
    var inner := After(tail, TOOL_OPEN);
    if Find(inner, TOOL_CLOSE) != -1 {
      Assoc(front, Ahead(tail, TOOL_OPEN), RemoveAll(After(inner, TOOL_CLOSE)));
    }
  }

  lemma SameHead(front: string, head: string, tail: string, whole: string)
    requires front + (head + tail) == whole + tail
    ensures front + head == whole
  {
    Assoc(front, head, tail);
    assert (whole + tail)[..|whole|] == whole;
  }

  lemma {:induction false} RestToClose(b: string)
    requires Find(b, TOOL_CLOSE) != -1
    ensures Scan(b).rest == Scan(After(b, TOOL_CLOSE)).rest
    decreases |b|
  {
    hide TOOL_OPEN, TOOL_CLOSE, FindFrom, Strip;
    if Before(b, TOOL_OPEN, TOOL_CLOSE) {
      InnerClose(b);
      hide Find, Scan, After;
      RestToClose(After(b, TOOL_OPEN));
    } else {
      AroundTag(b, TOOL_CLOSE);
      hide Find, After, Ahead;
    }
  }

  /** Text behind a visible one keeps its leading whitespace when the whole is stripped. */
  lemma StripBehind(front: string, s: string)
    requires Ink(front) > 0 && Ink(s) > 0
    ensures Strip(front + s) == LStrip(front) + RStrip(s)
  {
    if LStrip(front) == "" { InkLost(front); }
    StripIs(front + s);
    hide *;
    LStripAppend(front, s);
    RStripBehind(LStrip(front), s);
  }

  lemma StripIs(s: string)
    ensures Strip(s) == RStrip(LStrip(s)) && RStrip(RStrip(s)) == RStrip(s)
  {
  }

  lemma InkLost(s: string)
    requires LStrip(s) == ""
    ensures Ink(s) == 0
  {
    InkBlank(s);
  }

  lemma {:induction false} RStripBehind(a: string, s: string)
    requires Ink(s) > 0
    ensures RStrip(a + s) == a + RStrip(s)
    decreases |s|
  {
    var n := |s| - 1;
    assert (a + s)[..|a + s| - 1] == a + s[..n] && (a + s)[|a + s| - 1] == s[n];
    if IsSpace(s[n]) {
      RStripBehind(a, s[..n]);
    }
  }

  /** Two texts that stand behind the same one, the first of them the end of the second: they
      look alike up to stripping, exactly when no ink is added and no whitespace between ink. */
  lemma BehindIff(front: string, gap: string, rest: string)
    ensures var around := gap + rest;
            Strip(front + Strip(rest)) == Strip(front + around)
            <==> Ink(around) == Ink(rest) && (Ink(front) == 0 || Ink(rest) == 0 || LStrip(around) == around)
  {
    var around, kept := gap + rest, Strip(rest);
    hide *;
    InkAppend(gap, rest);
    InkStrip(rest);
    if Ink(gap) > 0 {
      InkAppend(front, around);
      InkAppend(front, kept);
      InkStrip(front + around);
      InkStrip(front + kept);
    } else if Ink(rest) == 0 {
      StripBlankTail(front, around);
      StripBlankTail(front, kept);
    } else if Ink(front) == 0 {
      StripBlankHead(front, around);
      StripBlankHead(front, kept);
      StripBlankHead(gap, rest);
      StripTwice(rest);
    } else {
      StripBehind(front, around);
      StripBehind(front, kept);
      StripBlankHead(gap, rest);
      TailsMeet(LStrip(front), around, rest);
    }
  }

  lemma StripBlankHead(a: string, b: string)
    requires Ink(a) == 0
    ensures Strip(a + b) == Strip(b)
  {
    InkBlank(a);
    assert LStrip(a) == "";
    hide IsSpace, LStrip, RStrip, Ink;
    LStripAppend(a, b);
  }

  lemma TailsMeet(head: string, around: string, rest: string)
    requires Ink(around) > 0 && Strip(around) == Strip(rest)
    ensures head + RStrip(Strip(rest)) == head + RStrip(around) <==> LStrip(around) == around
  {
    StripIs(around);
    StripIs(rest);
    StripIs(LStrip(rest));
    hide *;
    var l := LStrip(around);
    var blank := LeadInk(around);
    InkAppend(blank, l);
    RStripBehind(blank, l);
    SameTail(head, RStrip(l), RStrip(around));
    if blank == "" { assert "" + l == l; }
  }

  lemma LeadInk(s: string) returns (blank: string)
    ensures s == blank + LStrip(s) && Ink(blank) == 0
  {
    LeadIsBlank(s);
    blank := LeadingBlank(s);
    InkBlank(blank);
  }

  lemma SameTail(head: string, a: string, b: string)
    ensures head + a == head + b <==> a == b
  {
    assert (head + a)[|head|..] == a && (head + b)[|head|..] == b;
  }

  predicate Parses(payloads: seq<string>, parse: Parser) {
    exists p :: p in payloads && parse(p).Some?
  }

  lemma {:induction false} ParsesIff(payloads: seq<string>, parse: Parser)
    ensures Parsed(payloads, parse) != [] <==> Parses(payloads, parse)
  {
    if payloads != [] {
      ParsesIff(payloads[1..], parse);
      assert payloads == [payloads[0]] + payloads[1..];
    }
  }

  /** Where the two contents look alike: there is no opening tag; or the regular expression
      finds a call, and outside its blocks stands nothing but whitespace behind the first
      opening tag; or it finds a call and the block loop none, which then keeps what stands
      behind the last tag, and only that may stand there, with no whitespace in between. */
  predicate SameContent(c: string, parse: Parser) {
    Find(c, TOOL_OPEN) == -1 ||
    (var around, rest := RemoveAll(Blocks(c)), Scan(Blocks(c)).rest;
     && Parses(FindAll(c), parse)
     && (|| Ink(around) == 0
         || (&& !Parses(Scan(Blocks(c)).pieces, parse) && Ink(around) == Ink(rest)
             && (Ink(Ahead(c, TOOL_OPEN)) == 0 || LStrip(around) == around))))
  }

  /** The contents agree up to stripping exactly there: the stream keeps what precedes the
      first opening tag, and behind it only what is left when no block is a call; the buffered
      path keeps everything outside the blocks, and without any call all of the text. */
  lemma ContentAgreesIff(c: string, eos: string, parse: Parser)
    ensures Strip(DeclaredContent(c, eos, parse).content) == Strip(Lifted("", c, eos, parse).content)
       <==> SameContent(c, parse)
  {
    ParsesIff(FindAll(c), parse);
    ParsesIff(Scan(Blocks(c)).pieces, parse);
    FindAllFromFirst(c);
    NoBlocks();
    NoCalls(parse);
    hide TOOL_OPEN, Find, From, Ahead, Scan, FindAll, RemoveAll, Strip, LStrip, Ink, Parsed, Parses;
    if Find(c, TOOL_OPEN) != -1 {
      AroundTag(c, TOOL_OPEN);
      RemoveAllFromFirst(c);
      var front, block := Ahead(c, TOOL_OPEN), From(c, TOOL_OPEN);
      StripTwice(RemoveAll(c));
      assert front + "" == front;
      if Parsed(FindAll(c), parse) == [] {
        ContentKept(front, block, Scan(block).rest, c);
        BlocksLoseInk(c);
      } else if Parsed(Scan(block).pieces, parse) != [] {
        StripTailIff(front, RemoveAll(block));
      } else {
        var gap := RestIsLast(block);
        InkAppend(gap, Scan(block).rest);
        BehindIff(front, gap, Scan(block).rest);
      }
    }
  }

  /** Without a call the buffered path keeps the tags, and the stream does not. */
  lemma ContentKept(front: string, block: string, rest: string, c: string)
    requires c == front + block
    ensures Ink(rest) < Ink(block) ==> Strip(front + Strip(rest)) != Strip(c) && Strip(front) != Strip(c)
  {
    hide *;
    InkAppend(front, block);
    InkAppend(front, Strip(rest));
    InkStrip(rest);
    InkStrip(front + Strip(rest));
    InkStrip(front);
    InkStrip(c);
  }

  /** An opening tag alone: the stream shows nothing, the buffered path the tag. */
  lemma OpenAlone(eos: string, parse: Parser)
    ensures Strip(DeclaredContent(TOOL_OPEN, eos, parse).content)
         != Strip(Lifted("", TOOL_OPEN, eos, parse).content)
  {
    TagFacts();
    NoBlocks();
    OnlyOpen();
    hide TOOL_OPEN, FindFrom, Strip, RemoveAll, Scan, Ink;
    assert TOOL_OPEN + "" == TOOL_OPEN;
    TagFirst(TOOL_OPEN, "");
    assert FindAll(TOOL_OPEN) == [];
    hide FindAll, Find, After, Ahead, DeclaredContent, Lifted, Blocks;
    ContentAgreesIff(TOOL_OPEN, eos, parse);
  }

  /** A block with two opening tags of which only the outer text is a call, and text behind it:
      the contents look alike, although there is text outside the block. */
  lemma RestKept(parse: Parser)
    requires parse(TOOL_OPEN).Some? && parse("").None?
    ensures var c := TOOL_OPEN + (TOOL_OPEN + TOOL_CLOSE) + "x";
            SameContent(c, parse) && Ink(RemoveAll(Blocks(c))) == 1
  {
    var b := TOOL_OPEN + (TOOL_OPEN + TOOL_CLOSE);
    var c := b + "x";
    BothAround();
    OneLetter();
    assert c[0..] == c;
    hide TOOL_OPEN, TOOL_CLOSE, FindFrom, Scan, Strip, FindAll, RemoveAll, After, Ahead;
    assert Blocks(c) == c;
    hide *;
    ParsesIff([""], parse);
  }

  lemma OneLetter()
    ensures Ink("x") == 1 && LStrip("x") == "x"
  {
    assert "x"[..0] == "";
  }

  lemma BothAround()
    ensures var c := TOOL_OPEN + (TOOL_OPEN + TOOL_CLOSE) + "x";
            && Find(c, TOOL_OPEN) == 0 && Ahead(c, TOOL_OPEN) == ""
            && FindAll(c) == [TOOL_OPEN] && RemoveAll(c) == "x" && Scan(c) == Split([""], "x")
  {
    var inner := TOOL_OPEN + TOOL_CLOSE;
    var b := TOOL_OPEN + inner;
    TwoOpensFound();
    TwoOpens();
    TagFacts();
    StripTags();
    NoTagInX();
    ScanEmpty();
    hide TOOL_OPEN, TOOL_CLOSE, FindFrom, Strip, Scan;
    AroundGrows(b, "x", TOOL_OPEN);
    AroundGrows(inner, "x", TOOL_CLOSE);
    hide Find, After, Ahead;
    RestToClose(b);
    InnerClose(b);
    ScanAppend(b, "x");
  }

  lemma NoTagInX()
    ensures Find("x", TOOL_OPEN) == -1 && Find("x", TOOL_CLOSE) == -1
    ensures FindAll("x") == [] && RemoveAll("x") == "x" && Scan("x") == Split([], "x")
  {
    assert TOOL_OPEN[0] != 'x' && TOOL_CLOSE[0] != 'x' && TOOL_OPEN != "" && TOOL_CLOSE != "";
  }

  // ---------------------------------------------- both messages, however it was cut

  lemma WholeParts(t: string, eos: string, thinking: bool, parse: Parser)
    ensures var whole, lifted := Whole(t, eos, thinking, parse), Lifted("", VisibleText(t, thinking), eos, parse);
            && whole.content == lifted.content && whole.calls == lifted.calls && whole.finish == lifted.finish
            && Strip(whole.reasoning)
               == Strip(ReasoningText(if thinking then Unopened(t) else t, thinking))
  {
    hide THINK_CLOSE, TOOL_OPEN, Find, After, Ahead, FindAll, RemoveAll, Parsed, Strip, LStripNewlines, Unopened;
    if thinking && Find(Unopened(t), THINK_CLOSE) != -1 { StripTwice(Ahead(Unopened(t), THINK_CLOSE)); }
  }

  /** An opening tag in front is part of the reasoning if it is not dropped, and no matter to
      the content. */
  lemma TagIsReasoning(t: string)
    requires Opens(t)
    ensures ContentText(t, true) == ContentText(Unopened(t), true)
    ensures Ink(ReasoningText(Unopened(t), true)) < Ink(ReasoningText(t, true))
  {
    var blank, rest := Opening(t);
    var head := blank + THINK_OPEN;
    Pieces(blank, rest);
    ThinkInk(blank);
    hide *;
    HeadIsReasoning(head, rest);
    InkAppend(head, ReasoningText(rest, true));
  }

  lemma ThinkInk(blank: string)
    ensures Ink(blank + THINK_OPEN) > 0
  {
    assert !IsSpace(THINK_OPEN[0]) && THINK_OPEN != "";
    InkBlank(THINK_OPEN);
    hide Ink, IsSpace;
    InkAppend(blank, THINK_OPEN);
  }

  /** However many of the tags are dropped, the content is the same. */
  lemma {:induction false} DroppedContent(t: string, n: nat)
    requires n <= Tags(t)
    ensures ContentText(Dropped(t, n), true) == ContentText(t, true)
    decreases n
  {
    hide Opens, Unopened, ContentText;
    if n > 0 {
      TagIsReasoning(t);
      DroppedContent(Unopened(t), n - 1);
    }
  }

  /** The more tags are dropped, the less reasoning there is. */
  lemma {:induction false} DroppedReasoning(t: string, n: nat)
    requires 0 < n <= Tags(t)
    ensures Ink(ReasoningText(Dropped(t, n), true)) < Ink(ReasoningText(t, true))
    decreases n
  {
    hide Opens, Unopened, ReasoningText, Ink;
    TagIsReasoning(t);
    if n > 1 {
      DroppedReasoning(Unopened(t), n - 1);
    } else {
      assert Dropped(Unopened(t), 0) == Unopened(t);
    }
  }

  /** The reasoning is what the buffered path makes of it exactly when the one tag is dropped
      that the buffered path drops. */
  lemma ReasoningAgreesIff(t: string, n: nat)
    requires n <= Tags(t)
    ensures Strip(ReasoningText(Dropped(t, n), true)) == Strip(ReasoningText(Unopened(t), true))
       <==> n == if Opens(t) then 1 else 0
  {
    hide Strip, ReasoningText, Ink;
    InkStrip(ReasoningText(Dropped(t, n), true));
    InkStrip(ReasoningText(Unopened(t), true));
    if Opens(t) {
      TagIsReasoning(t);
      if n > 1 {
        DroppedReasoning(Unopened(t), n - 1);
      }
    }
  }

  /** Streamed and buffered answers to the same generation, however it was cut: the same tool
      calls in the same order and the same finish reason whenever every closing tag has one
      opening tag of its own; the same content up to stripping exactly where `SameContent`
      says so; and the same reasoning up to stripping exactly if the stream has dropped one
      opening tag in front of it, or there was none. */
  lemma StreamAgreesWithBuffer(chunks: seq<string>, eos: string, thinking: bool, parse: Parser) returns (n: nat)
    ensures thinking ==> n <= Tags(Concat(chunks))
    ensures See(Output(chunks, eos, thinking, parse))
         == Declared(ReadAs(Concat(chunks), n, thinking), eos, thinking, parse)
    ensures var t := Concat(chunks);
            var c := VisibleText(t, thinking);
            var seen := See(Output(chunks, eos, thinking, parse));
            var whole := Whole(t, eos, thinking, parse);
            && (OneOpenPerClose(Blocks(c)) ==> seen.others == whole.calls + [Finish(whole.finish)])
            && (Find(c, TOOL_OPEN) == -1 ==> seen.content == whole.content)
            && (Strip(seen.content) == Strip(whole.content) <==> SameContent(c, parse))
            && (Strip(seen.reasoning) == Strip(whole.reasoning)
                <==> !thinking || n == if Opens(t) then 1 else 0)
  {
    hide *;
    n := EveryView(chunks, eos, thinking, parse);
    TextAgrees(Concat(chunks), n, eos, thinking, parse);
  }

  lemma TextAgrees(t: string, n: nat, eos: string, thinking: bool, parse: Parser)
    requires thinking ==> n <= Tags(t)
    ensures var seen, whole := Declared(ReadAs(t, n, thinking), eos, thinking, parse), Whole(t, eos, thinking, parse);
            var c := VisibleText(t, thinking);
            && (OneOpenPerClose(Blocks(c)) ==> seen.others == whole.calls + [Finish(whole.finish)])
            && (Find(c, TOOL_OPEN) == -1 ==> seen.content == whole.content)
            && (Strip(seen.content) == Strip(whole.content) <==> SameContent(c, parse))
            && (Strip(seen.reasoning) == Strip(whole.reasoning)
                <==> !thinking || n == if Opens(t) then 1 else 0)
  {
    hide *;
    var c, u := VisibleText(t, thinking), ReadAs(t, n, thinking);
    ReadContent(t, n, thinking);
    DeclaredParts(u, eos, thinking, parse);
    WholeParts(t, eos, thinking, parse);
    ContentAgreesIff(c, eos, parse);
    ContentAgrees(c, eos, parse);
    ReasoningCompared(t, n, thinking);
  }

  lemma ReasoningCompared(t: string, n: nat, thinking: bool)
    requires thinking ==> n <= Tags(t)
    ensures Strip(ReasoningText(ReadAs(t, n, thinking), thinking))
         == Strip(ReasoningText(if thinking then Unopened(t) else t, thinking))
       <==> !thinking || n == if Opens(t) then 1 else 0
  {
    hide Strip, Tags, Opens, Unopened, Dropped, Find;
    if thinking { ReasoningAgreesIff(t, n); }
  }

  lemma ReadContent(t: string, n: nat, thinking: bool)
    requires thinking ==> n <= Tags(t)
    ensures ContentText(ReadAs(t, n, thinking), thinking) == VisibleText(t, thinking)
  {
    if thinking {
      DroppedContent(t, n);
      if Opens(t) { TagIsReasoning(t); }
    }
  }

  lemma ContentAgrees(c: string, eos: string, parse: Parser)
    ensures var d, m := DeclaredContent(c, eos, parse), Lifted("", c, eos, parse);
            && (OneOpenPerClose(Blocks(c)) ==> d.others == m.calls + [Finish(m.finish)])
            && (Find(c, TOOL_OPEN) == -1 ==> d.content == m.content)
  {
    PayloadsAgreeIff(Blocks(c));
    FindAllFromFirst(c);
    NoBlocks();
    NoCalls(parse);
    ScanEmpty();
    hide TOOL_OPEN, Find, From, Ahead, Scan, FindAll, RemoveAll, Strip, OneOpenPerClose;
  }

  lemma NoBlocks()
    ensures FindAll("") == [] && Find("", TOOL_OPEN) == -1
  {
    TagFacts();
  }
}
