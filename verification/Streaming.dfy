/** The splitter in the form the server runs it: fields updated chunk by chunk. Every method
    is tied to the function of the same name in `Splitter`. */
module Streaming {
  import opened Text
  import S = Splitter

  class Sse {
    var phase: S.Phase
    var mode: S.Mode
    var carry: string
    var buf: string
    var toolCalls: nat
    var thinkSeen: bool
    var stripLead: bool
    const parse: S.Parser

    ghost function Snapshot(): S.State
      reads this
    {
      S.State(phase, mode, carry, buf, toolCalls, thinkSeen, stripLead)
    }

    constructor (thinking: bool, parse: S.Parser)
      ensures Snapshot() == S.Initial(thinking) && this.parse == parse
    {
      phase := if thinking then S.Thinking else S.Visible;
      mode, carry, buf, toolCalls := S.Plain, "", "", 0;
      thinkSeen, stripLead := false, thinking;
      this.parse := parse;
    }

    /** The length of the longest suffix of `data` that could start `tag`. */
    static method HoldBack(data: string, tag: string) returns (hold: nat)
      requires tag != ""
      ensures Holds(data, tag, hold)
    {
      var n := if |data| < |tag| - 1 then |data| else |tag| - 1;
      while n > 0
        invariant n <= |data| && n < |tag|
        invariant forall k: nat :: n < k <= |data| && k < |tag| ==> !EndsWith(data, tag[..k])
      {
        if EndsWith(data, tag[..n]) { return n; }
        n := n - 1;
      }
      return 0;
    }

    method FeedTools(text: string) returns (out: seq<S.Delta>)
      modifies this`buf, this`toolCalls
      ensures S.Fed(Snapshot(), out) == S.FeedTools(old(Snapshot()), text, parse)
    {
      S.TagShapes();
      hide S.TOOL_OPEN, S.TOOL_CLOSE, Find, Strip, S.NextTurn, S.Scan, S.Parsed, S.Numbered;
      buf := buf + text;
      out := [];
      ghost var all, taken := buf, [];
      Nothing(S.Scan(all), old(toolCalls), parse);
      while true
        invariant S.Scan(all) == Split(taken, "").Then(S.Scan(buf))
        invariant out == S.Numbered(S.Parsed(taken, parse), old(toolCalls))
        invariant toolCalls == old(toolCalls) + |S.Parsed(taken, parse)|
        decreases |buf|
      {
        var start, end := Find(buf, S.TOOL_OPEN), Find(buf, S.TOOL_CLOSE);
        Turn(buf);
        if start != -1 && (end == -1 || start < end) {
          buf := buf[start + |S.TOOL_OPEN|..];
          continue;
        }
        if end == -1 { break; }
        var payload := Strip(buf[..end]);
        buf := buf[end + |S.TOOL_CLOSE|..];
        var parsed := parse(payload);
        Took(taken, payload, S.Scan(buf), old(toolCalls), parse);
        if parsed.Some? {
          out := out + [S.Tool(toolCalls, parsed.value)];
          toolCalls := toolCalls + 1;
        }
        taken := taken + [payload];
      }
      AllTaken(all, taken, buf);
    }

    method FeedPlain(data: string) returns (out: seq<S.Delta>)
      modifies this
      ensures S.Fed(Snapshot(), out) == S.FeedPlain(old(Snapshot()), data, parse)
    {
      S.TagShapes();
      hide S.TOOL_OPEN, Find, HoldLength, Held, Free, S.FeedTools;
      var i := Find(data, S.TOOL_OPEN);
      if i == -1 {
        var hold := HoldBack(data, S.TOOL_OPEN);
        HoldUnique(data, S.TOOL_OPEN, hold);
        carry := data[|data| - hold..];
        out := S.ContentDelta(data[..|data| - hold]);
      } else {
        mode := S.Tools;
        buf := data[i..];
        var calls := FeedTools("");
        out := S.ContentDelta(data[..i]) + calls;
      }
    }

    method FeedContent(text: string) returns (out: seq<S.Delta>)
      modifies this
      ensures S.Fed(Snapshot(), out) == S.FeedContent(old(Snapshot()), text, parse)
    {
      hide LStripNewlines, S.FeedTools, S.FeedPlain;
      if mode == S.Tools {
        out := FeedTools(text);
        return;
      }
      var data := carry + text;
      if stripLead {
        data := LStripNewlines(data);
        if data == "" { return []; }
        stripLead := false;
      }
      out := FeedPlain(data);
    }

    method FeedThink(text: string) returns (out: seq<S.Delta>)
      modifies this
      ensures S.Fed(Snapshot(), out) == S.FeedThink(old(Snapshot()), text, parse)
    {
      S.TagShapes();
      hide S.THINK_CLOSE, Find, Holds, S.FeedOpen, S.FeedContent, S.Unopened, S.ReasoningDelta, LStripNewlines;
      var data := carry + text;
      if !thinkSeen { data := S.Unopened(data); }
      var i := Find(data, S.THINK_CLOSE);
      if i == -1 {
        var hold := HoldBack(data, S.THINK_CLOSE);
        S.StaysOpen(Snapshot(), data, hold, parse);
        carry := data[|data| - hold..];
        thinkSeen := thinkSeen || data[..|data| - hold] != "";
        return S.ReasoningDelta(data[..|data| - hold]);
      }
      S.LeavesOpen(Snapshot(), data, parse);
      carry := "";
      phase := S.Visible;
      var rest := FeedContent(LStripNewlines(data[i + |S.THINK_CLOSE|..]));
      out := S.ReasoningDelta(data[..i]) + rest;
    }

    method Feed(text: string) returns (out: seq<S.Delta>)
      modifies this
      ensures S.Fed(Snapshot(), out) == S.Feed(old(Snapshot()), text, parse)
    {
      if text == "" {
        out := [];
      } else if phase == S.Thinking {
        out := FeedThink(text);
      } else {
        out := FeedContent(text);
      }
    }

    method Finish(eos: string) returns (out: seq<S.Delta>)
      ensures out == S.Flush(Snapshot(), eos)
    {
      out := [];
      if phase == S.Thinking {
        if carry != "" { out := [S.Reasoning(carry)]; }
      } else if mode == S.Plain {
        if carry != "" { out := [S.Content(carry)]; }
      } else if Strip(buf) != "" && toolCalls == 0 {
        out := [S.Content(Strip(buf))];
      }
      var reason := if eos == "max_new_tokens" then "length" else "stop";
      if toolCalls > 0 && reason == "stop" { reason := "tool_calls"; }
      out := out + [S.Finish(reason)];
    }

    /** One generation from its first chunk to its last delta. */
    static method Generate(chunks: seq<string>, eos: string, thinking: bool, parse: S.Parser)
      returns (out: seq<S.Delta>)
      ensures out == S.Output(chunks, eos, thinking, parse)
    {
      var sse := new Sse(thinking, parse);
      out := [];
      for i := 0 to |chunks|
        invariant sse.parse == parse
        invariant S.Fed(sse.Snapshot(), out) == S.Run(chunks[..i], thinking, parse)
      {
        assert chunks[..i + 1][..i] == chunks[..i];
        var pieces := sse.Feed(chunks[i]);
        out := out + pieces;
      }
      assert chunks[..|chunks|] == chunks;
      var last := sse.Finish(eos);
      out := out + last;
    }
  }

  lemma Nothing(r: Split, first: nat, parse: S.Parser)
    ensures Split([], "").Then(r) == r
    ensures S.Parsed([], parse) == [] && S.Numbered([], first) == []
  {
  }

  /** One turn of the block loop, in terms of the two searches it makes. */
  lemma Turn(buf: string)
    ensures var start, end := Find(buf, S.TOOL_OPEN), Find(buf, S.TOOL_CLOSE);
            && (start != -1 && (end == -1 || start < end) ==>
                  && start + |S.TOOL_OPEN| <= |buf|
                  && S.Scan(buf) == S.Scan(buf[start + |S.TOOL_OPEN|..]))
            && (end == -1 && start == -1 ==> S.Scan(buf) == Split([], buf))
            && (end != -1 && !(start != -1 && start < end) ==>
                  && end + |S.TOOL_CLOSE| <= |buf|
                  && S.Scan(buf)
                     == Split([Strip(buf[..end])], "").Then(S.Scan(buf[end + |S.TOOL_CLOSE|..])))
  {
    hide S.TOOL_OPEN, S.TOOL_CLOSE, FindFrom, Strip;
  }

  lemma AllTaken(all: string, taken: seq<string>, buf: string)
    requires S.Scan(all) == Split(taken, "").Then(S.Scan(buf)) && S.Scan(buf) == Split([], buf)
    ensures S.Scan(all) == Split(taken, buf)
  {
    hide S.Scan;
    assert taken + [] == taken;
  }

  lemma Took(taken: seq<string>, payload: string, rest: Split, first: nat, parse: S.Parser)
    ensures Split(taken, "").Then(Split([payload], "").Then(rest)) == Split(taken + [payload], "").Then(rest)
    ensures var p, calls := parse(payload), S.Parsed(taken, parse);
            var more := S.Parsed(taken + [payload], parse);
            if p.None? then more == calls
            else && |more| == |calls| + 1
                 && S.Numbered(more, first) == S.Numbered(calls, first) + [S.Tool(first + |calls|, p.value)]
  {
    ThenAssoc(Split(taken, ""), Split([payload], ""), rest);
    S.ParsedAppend(taken, [payload], parse);
    assert [payload][1..] == [];
    assert S.Parsed(taken, parse) + [] == S.Parsed(taken, parse);
  }
}
