/** The Ollama adapter: a server-sent event stream of chat deltas becomes a stream of records
    with exactly one that says the answer is done. */
module Ollama {
  import opened Text

  const EVENT_END := "\n\n"
  const FIELD := "data:"
  const DONE := "[DONE]"

  // ------------------------------------------------------------ what events say

  datatype Arguments = Absent | Fragment(text: string) | Whole(text: string)

  /** A part of a tool call; `index` is what the backend put there, if it is an integer. */
  datatype CallDelta = CallDelta(index: Option<int>, name: string, arguments: Arguments)

  datatype Choice = Choice(content: string, thinking: string, calls: seq<CallDelta>, reason: string)

  datatype Usage = Usage(prompt: int, completion: int)

  /** What the text after `data:` decodes to. */
  datatype Frame =
    | Unreadable
    | Failure(error: string)
    | Report(usage: Option<Usage>, choice: Option<Choice>)

  type Decoder = string -> Frame

  // -------------------------------------------------------------- accumulating

  datatype Item = Item(name: string, arguments: string)

  type Tools = map<int, Item>

  /** One part of a call added to what has been gathered. */
  function Merged(tools: Tools, call: CallDelta): Tools {
    var index := if call.index.Some? then call.index.value else |tools|;
    var item := if index in tools then tools[index] else Item("", "");
    tools[index := Item(if call.name != "" then call.name else item.name,
                        match call.arguments
                        case Absent => item.arguments
                        case Fragment(text) => item.arguments + text
                        case Whole(text) => text)]
  }

  function MergedAll(tools: Tools, calls: seq<CallDelta>): Tools {
    if calls == [] then tools
    else Merged(MergedAll(tools, calls[..|calls| - 1]), calls[|calls| - 1])
  }

  /** A call without an index goes to the first place that is free, if places are taken in
      order; arguments that are not text replace what was gathered; other places stay. */
  lemma MergedPlaces(tools: Tools, c: CallDelta)
    ensures c.index.None? && (forall i :: i in tools <==> 0 <= i < |tools|) ==>
              |tools| !in tools && Merged(tools, c).Keys == tools.Keys + {|tools|}
    ensures c.index.Some? ==> Merged(tools, c).Keys == tools.Keys + {c.index.value}
    ensures c.index.Some? && c.arguments.Whole? ==> Merged(tools, c)[c.index.value].arguments == c.arguments.text
    ensures forall i :: i in tools && (if c.index.Some? then i != c.index.value else i != |tools|) ==>
              i in Merged(tools, c) && Merged(tools, c)[i] == tools[i]
  {
  }

  ghost predicate IsLeast(k: int, keys: set<int>) {
    k in keys && forall j :: j in keys ==> k <= j
  }

  lemma Member<T>(keys: set<T>) returns (k: T)
    requires keys != {}
    ensures k in keys
  {
    k :| k in keys;
  }

  lemma {:induction false} LeastExists(keys: set<int>)
    requires keys != {}
    ensures exists k :: IsLeast(k, keys)
    decreases |keys|
  {
    var k := Member(keys);
    var rest := keys - {k};
    if rest == {} {
      assert keys == {k};
      assert IsLeast(k, keys);
    } else {
      LeastExists(rest);
      var least :| IsLeast(least, rest);
      assert forall j :: j in keys ==> j == k || j in rest;
      assert IsLeast(if k < least then k else least, keys);
    }
  }

  function Least(keys: set<int>): (k: int)
    requires keys != {}
    ensures k in keys && forall j :: j in keys ==> k <= j
  {
    LeastExists(keys);
    assert exists k :: IsLeast(k, keys);
    var k :| k in keys && forall j :: j in keys ==> k <= j;
    k
  }

  function Ascending(keys: set<int>): seq<int>
    decreases |keys|
  {
    if keys == {} then [] else [Least(keys)] + Ascending(keys - {Least(keys)})
  }

  function Listed(tools: Tools, keys: seq<int>): seq<Item>
    requires forall i :: 0 <= i < |keys| ==> keys[i] in tools
  {
    if keys == [] then []
    else (if tools[keys[0]].name == "" then [] else [tools[keys[0]]]) + Listed(tools, keys[1..])
  }

  lemma ListedAll(tools: Tools, keys: seq<int>)
    requires forall j :: 0 <= j < |keys| ==> keys[j] in tools
    ensures keys[0..] == keys && [] + Listed(tools, keys) == Listed(tools, keys)
  {
  }

  lemma ListedFrom(tools: Tools, keys: seq<int>, i: nat, calls: seq<Item>)
    requires i <= |keys| && forall j :: 0 <= j < |keys| ==> keys[j] in tools
    ensures calls + Listed(tools, keys[i..])
         == if i == |keys| then calls
            else if tools[keys[i]].name == "" then calls + Listed(tools, keys[i + 1..])
            else (calls + [tools[keys[i]]]) + Listed(tools, keys[i + 1..])
  {
    if i < |keys| {
      assert keys[i..][0] == keys[i] && keys[i..][1..] == keys[i + 1..];
      Assoc(calls, if tools[keys[i]].name == "" then [] else [tools[keys[i]]], Listed(tools, keys[i + 1..]));
    }
  }

  /** Every named item is listed, in the order of the keys, and no other. */
  lemma {:induction false} ListedAppend(tools: Tools, a: seq<int>, b: seq<int>)
    requires (forall i :: 0 <= i < |a| ==> a[i] in tools) && (forall i :: 0 <= i < |b| ==> b[i] in tools)
    ensures forall i :: 0 <= i < |a + b| ==> (a + b)[i] in tools
    ensures Listed(tools, a + b) == Listed(tools, a) + Listed(tools, b)
  {
    if a == [] {
      assert a + b == b && [] + Listed(tools, b) == Listed(tools, b);
    } else {
      assert (a + b)[0] == a[0] && (a + b)[1..] == a[1..] + b;
      ListedAppend(tools, a[1..], b);
      Assoc(if tools[a[0]].name == "" then [] else [tools[a[0]]], Listed(tools, a[1..]), Listed(tools, b));
    }
  }

  lemma ListedOne(tools: Tools, k: int)
    requires k in tools
    ensures Listed(tools, [k]) == if tools[k].name == "" then [] else [tools[k]]
  {
    assert [k][1..] == [];
  }

  /** Every key once, smallest first. */
  lemma {:induction false} AscendingKeys(keys: set<int>)
    ensures var a := Ascending(keys);
            && (forall i :: 0 <= i < |a| ==> a[i] in keys) && (forall k :: k in keys ==> k in a)
            && (forall i, j :: 0 <= i < j < |a| ==> a[i] < a[j])
    decreases |keys|
  {
    if keys != {} {
      var k := Least(keys);
      AscendingKeys(keys - {k});
      var b := Ascending(keys - {k});
      assert Ascending(keys) == [k] + b;
      hide Ascending, Least;
      FirstOf(keys, k, b);
    }
  }

  lemma FirstOf(keys: set<int>, k: int, b: seq<int>)
    requires k in keys && forall j :: j in keys ==> k <= j
    requires (forall i :: 0 <= i < |b| ==> b[i] in keys - {k}) && (forall q :: q in keys - {k} ==> q in b)
    requires forall i, j :: 0 <= i < j < |b| ==> b[i] < b[j]
    ensures var a := [k] + b;
            && (forall i :: 0 <= i < |a| ==> a[i] in keys) && (forall q :: q in keys ==> q in a)
            && (forall i, j :: 0 <= i < j < |a| ==> a[i] < a[j])
  {
    var a := [k] + b;
    assert a[0] == k;
    forall q | q in keys ensures q in a {
      if q != k { assert q in b; }
    }
  }

  /** The calls by ascending index, those without a name left out. */
  function Accumulated(tools: Tools): seq<Item> {
    AscendingKeys(tools.Keys);
    Listed(tools, Ascending(tools.Keys))
  }

  // ---------------------------------------------------------------- the records

  datatype Record =
    | Content(text: string)
    | Thought(text: string)
    | Failed(error: string)
    | Done(calls: seq<Item>, reason: string, usage: Option<Usage>)

  datatype State = State(finished: bool, failed: bool, reason: string, usage: Option<Usage>, tools: Tools)

  const START := State(false, false, "stop", None, map[])

  /** The state a piece of input leaves and the records it yields. */
  datatype Step = Step(st: State, out: seq<Record>) {
    function Then(next: Step): Step {
      Step(next.st, out + next.out)
    }
  }

  function DoneRecord(st: State, generate: bool): Record {
    Done(if generate then [] else Accumulated(st.tools), st.reason, st.usage)
  }

  function OnChoice(st: State, c: Choice): Step {
    Step(st.(tools := MergedAll(st.tools, c.calls), reason := if c.reason != "" then c.reason else st.reason),
         (if c.content != "" then [Content(c.content)] else [])
         + (if c.thinking != "" then [Thought(c.thinking)] else []))
  }

  function OnFrame(st: State, f: Frame): Step {
    match f
    case Unreadable => Step(st, [])
    case Failure(e) => Step(st.(failed := true), [Failed(e)])
    case Report(usage, choice) =>
      var st' := st.(usage := if usage.Some? then usage else st.usage);
      if choice.None? then Step(st', []) else OnChoice(st', choice.value)
  }

  /** One data line; after a failure nothing is read any more. */
  function OnData(st: State, data: string, decode: Decoder, generate: bool): Step {
    if st.failed || data == "" then Step(st, [])
    else if data == DONE then
      if st.finished then Step(st, []) else Step(st.(finished := true), [DoneRecord(st, generate)])
    else OnFrame(st, decode(data))
  }

  function OnDatas(st: State, datas: seq<string>, decode: Decoder, generate: bool): Step {
    if datas == [] then Step(st, [])
    else
      var s := OnDatas(st, datas[..|datas| - 1], decode, generate);
      s.Then(OnData(s.st, datas[|datas| - 1], decode, generate))
  }

  function DataLines(lines: seq<string>): seq<string> {
    if lines == [] then []
    else
      (if StartsWith(lines[0], FIELD) then [TrimBoth(lines[0][|FIELD|..], BLANKS)] else []) + DataLines(lines[1..])
  }

  function Datas(event: string): seq<string> {
    var r := SplitOn(event, NEWLINE);
    DataLines(r.pieces + [r.rest])
  }

  function OnEvents(st: State, events: seq<string>, decode: Decoder, generate: bool): Step {
    if events == [] then Step(st, [])
    else
      var s := OnEvents(st, events[..|events| - 1], decode, generate);
      s.Then(OnDatas(s.st, Datas(events[|events| - 1]), decode, generate))
  }

  /** `replace(b"\r\n", b"\n")`. */
  function Unix(s: string): string {
    if |s| < 2 then s
    else if s[0] == '\r' && s[1] == '\n' then [s[1]] + Unix(s[2..])
    else [s[0]] + Unix(s[1..])
  }

  // ----------------------------------------------------------- chunk by chunk

  datatype Reader = Reader(buffer: string, st: State, closed: bool)

  const OPENED := Reader("", START, false)

  /** One chunk; `closed` once the generator has returned. */
  function Fed(r: Reader, chunk: string, decode: Decoder, generate: bool): (Reader, seq<Record>) {
    if r.closed then (r, [])
    else
      var split := SplitOn(Unix(r.buffer + chunk), EVENT_END);
      var s := OnEvents(r.st, split.pieces, decode, generate);
      (Reader(split.rest, s.st, s.st.failed || (s.st.finished && TrimBoth(split.rest, BLANKS) == "")), s.out)
  }

  function Run(chunks: seq<string>, decode: Decoder, generate: bool): (Reader, seq<Record>) {
    if chunks == [] then (OPENED, [])
    else
      var (r, out) := Run(chunks[..|chunks| - 1], decode, generate);
      var (r', more) := Fed(r, chunks[|chunks| - 1], decode, generate);
      (r', out + more)
  }

  /** The record that is owed when the stream ends. */
  function Last(st: State, generate: bool): seq<Record> {
    if st.finished || st.failed then [] else [DoneRecord(st, generate)]
  }

  /** All records for one stream. */
  function Output(chunks: seq<string>, decode: Decoder, generate: bool): seq<Record> {
    var (r, out) := Run(chunks, decode, generate);
    out + Last(r.st, generate)
  }

  // ------------------------------------------------------------- the generator

  /** The generator's variables. */
  class Adapter {
    const decode: Decoder
    const generate: bool
    var buffer: string
    var finished: bool
    var failed: bool
    var reason: string
    var usage: Option<Usage>
    var tools: Tools

    ghost function Snapshot(): State
      reads this
    {
      State(finished, failed, reason, usage, tools)
    }

    constructor (decode: Decoder, generate: bool)
      ensures this.decode == decode && this.generate == generate
      ensures Snapshot() == START && buffer == ""
    {
      this.decode, this.generate := decode, generate;
      buffer, finished, failed, reason, usage, tools := "", false, false, "stop", None, map[];
    }

    method MergeToolCall(call: CallDelta)
      modifies this`tools
      ensures tools == Merged(old(tools), call)
    {
      var index := if call.index.Some? then call.index.value else |tools|;
      if index !in tools { tools := tools[index := Item("", "")]; }
      var item := tools[index];
      if call.name != "" { item := item.(name := call.name); }
      match call.arguments {
        case Absent =>
        case Fragment(text) => item := item.(arguments := item.arguments + text);
        case Whole(text) => item := item.(arguments := text);
      }
      tools := tools[index := item];
    }

    /** The named calls, by index. */
    method AccumulatedToolCalls() returns (calls: seq<Item>)
      ensures calls == Accumulated(tools)
    {
      AscendingKeys(tools.Keys);
      calls := ListNamed(tools, Ascending(tools.Keys));
    }

    static method ListNamed(tools: Tools, keys: seq<int>) returns (calls: seq<Item>)
      requires forall i :: 0 <= i < |keys| ==> keys[i] in tools
      ensures calls == Listed(tools, keys)
    {
      hide Listed;
      calls := [];
      ListedAll(tools, keys);
      for i := 0 to |keys|
        invariant calls + Listed(tools, keys[i..]) == Listed(tools, keys)
      {
        ListedFrom(tools, keys, i, calls);
        var item := tools[keys[i]];
        if item.name != "" { calls := calls + [item]; }
      }
      ListedFrom(tools, keys, |keys|, calls);
    }

    method Finish() returns (done: Record)
      ensures done == DoneRecord(Snapshot(), generate)
    {
      var calls := AccumulatedToolCalls();
      done := Done(if generate then [] else calls, reason, usage);
    }

    /** One data line. */
    method Handle(data: string) returns (out: seq<Record>)
      requires !failed
      modifies this`finished, this`failed, this`reason, this`usage, this`tools
      ensures Step(Snapshot(), out) == OnData(old(Snapshot()), data, decode, generate)
    {
      out := [];
      if data == "" { return; }
      if data == DONE {
        if !finished {
          var done := Finish();
          finished := true;
          out := [done];
        }
        return;
      }
      match decode(data) {
        case Unreadable =>
        case Failure(e) =>
          failed := true;
          out := [Failed(e)];
        case Report(current, choice) =>
          if current.Some? { usage := current; }
          if choice.None? { return; }
          var c := choice.value;
          for i := 0 to |c.calls|
            invariant Snapshot() == old(Snapshot()).(usage := usage, tools := tools)
            invariant usage == if current.Some? then current else old(usage)
            invariant tools == MergedAll(old(tools), c.calls[..i])
          {
            assert c.calls[..i + 1][..i] == c.calls[..i];
            MergeToolCall(c.calls[i]);
          }
          assert c.calls[..|c.calls|] == c.calls;
          if c.reason != "" { reason := c.reason; }
          if c.content != "" { out := out + [Content(c.content)]; }
          if c.thinking != "" { out := out + [Thought(c.thinking)]; }
          assert out == OnChoice(old(Snapshot()), c).out;
      }
    }

    /** One event's data lines, up to a failure. */
    method HandleEvent(event: string) returns (out: seq<Record>)
      requires !failed
      modifies this`finished, this`failed, this`reason, this`usage, this`tools
      ensures Step(Snapshot(), out) == OnDatas(old(Snapshot()), Datas(event), decode, generate)
    {
      hide OnData, Datas;
      var datas := Datas(event);
      out := [];
      var i := 0;
      while i < |datas| && !failed
        invariant i <= |datas|
        invariant Step(Snapshot(), out) == OnDatas(old(Snapshot()), datas[..i], decode, generate)
      {
        assert datas[..i + 1][..i] == datas[..i];
        var more := Handle(datas[i]);
        out := out + more;
        i := i + 1;
      }
      assert datas == datas[..i] + datas[i..];
      if failed { FailedReadsOn(old(Snapshot()), datas[..i], datas[i..], decode, generate); }
      assert i == |datas| ==> datas[..i] == datas;
    }

    /** One chunk: complete events are handled, the rest is kept. */
    method Feed(chunk: string) returns (out: seq<Record>, closed: bool)
      requires !failed
      modifies this
      ensures (Reader(buffer, Snapshot(), closed), out)
           == Fed(Reader(old(buffer), old(Snapshot()), false), chunk, decode, generate)
    {
      hide SplitOn, OnDatas;
      var split := SplitOn(Unix(buffer + chunk), EVENT_END);
      buffer := split.rest;
      out := [];
      var i, events := 0, split.pieces;
      while i < |events| && !failed
        invariant i <= |events| && buffer == split.rest
        invariant Step(Snapshot(), out) == OnEvents(old(Snapshot()), events[..i], decode, generate)
      {
        assert events[..i + 1][..i] == events[..i];
        var more := HandleEvent(events[i]);
        out := out + more;
        i := i + 1;
      }
      assert events == events[..i] + events[i..];
      if failed { FailedEventsOn(old(Snapshot()), events[..i], events[i..], decode, generate); }
      assert i == |events| ==> events[..i] == events;
      closed := failed || (finished && TrimBoth(buffer, BLANKS) == "");
    }

    /** One stream from its first chunk to its last record. */
    static method StreamResponse(chunks: seq<string>, decode: Decoder, generate: bool)
      returns (out: seq<Record>)
      ensures out == Output(chunks, decode, generate)
    {
      hide Fed;
      var a := new Adapter(decode, generate);
      var closed := false;
      out := [];
      var i := 0;
      while i < |chunks| && !closed
        invariant i <= |chunks| && a.decode == decode && a.generate == generate
        invariant a.failed ==> closed
        invariant (Reader(a.buffer, a.Snapshot(), closed), out) == Run(chunks[..i], decode, generate)
      {
        assert chunks[..i + 1][..i] == chunks[..i];
        var more;
        more, closed := a.Feed(chunks[i]);
        FedCloses(Run(chunks[..i], decode, generate).0, chunks[i], decode, generate);
        out := out + more;
        i := i + 1;
      }
      assert chunks == chunks[..i] + chunks[i..];
      if closed { ClosedReadsOn(chunks[..i], chunks[i..], decode, generate); }
      assert i == |chunks| ==> chunks[..i] == chunks;
      if !a.finished && !a.failed {
        var done := a.Finish();
        out := out + [done];
      }
    }
  }

  lemma FedCloses(r: Reader, chunk: string, decode: Decoder, generate: bool)
    ensures Fed(r, chunk, decode, generate).0.st.failed && !r.closed ==> Fed(r, chunk, decode, generate).0.closed
  {
  }

  lemma {:induction false} FailedReadsOn(st: State, past: seq<string>, more: seq<string>,
                                          decode: Decoder, generate: bool)
    requires OnDatas(st, past, decode, generate).st.failed
    ensures OnDatas(st, past + more, decode, generate) == OnDatas(st, past, decode, generate)
    decreases |more|
  {
    if more == [] {
      assert past + more == past;
    } else {
      var n := |more| - 1;
      FailedReadsOn(st, past, more[..n], decode, generate);
      assert (past + more)[..|past + more| - 1] == past + more[..n];
    }
  }

  /** One more event. */
  lemma OnEventsMore(st: State, events: seq<string>, event: string, decode: Decoder, generate: bool)
    ensures var s := OnEvents(st, events, decode, generate);
            OnEvents(st, events + [event], decode, generate)
            == s.Then(OnDatas(s.st, Datas(event), decode, generate))
  {
    hide OnDatas, Datas;
    assert (events + [event])[..|events|] == events;
  }

  lemma NothingFails(st: State, datas: seq<string>, decode: Decoder, generate: bool)
    requires st.failed
    ensures OnDatas(st, datas, decode, generate) == Step(st, [])
  {
    assert [] + datas == datas && OnDatas(st, [], decode, generate) == Step(st, []);
    hide OnDatas;
    FailedReadsOn(st, [], datas, decode, generate);
  }

  lemma ThenNothing(s: Step)
    ensures s.Then(Step(s.st, [])) == s
  {
  }

  /** The last event apart from those before it. */
  lemma LastApart(past: seq<string>, more: seq<string>)
    requires more != []
    ensures past + more == past + more[..|more| - 1] + [more[|more| - 1]]
  {
  }

  lemma {:induction false} FailedEventsOn(st: State, past: seq<string>, more: seq<string>,
                                          decode: Decoder, generate: bool)
    requires OnEvents(st, past, decode, generate).st.failed
    ensures OnEvents(st, past + more, decode, generate) == OnEvents(st, past, decode, generate)
    decreases |more|
  {
    hide *;
    if more == [] {
      assert past + more == past;
    } else {
      var n := |more| - 1;
      FailedEventsOn(st, past, more[..n], decode, generate);
      LastApart(past, more);
      OnEventsMore(st, past + more[..n], more[n], decode, generate);
      var s := OnEvents(st, past, decode, generate);
      NothingFails(s.st, Datas(more[n]), decode, generate);
      ThenNothing(s);
    }
  }

  lemma {:induction false} ClosedReadsOn(past: seq<string>, more: seq<string>, decode: Decoder, generate: bool)
    requires Run(past, decode, generate).0.closed
    ensures Run(past + more, decode, generate) == Run(past, decode, generate)
    decreases |more|
  {
    if more == [] {
      assert past + more == past;
    } else {
      var n := |more| - 1;
      ClosedReadsOn(past, more[..n], decode, generate);
      assert (past + more)[..|past + more| - 1] == past + more[..n];
      var (r, out) := Run(past, decode, generate);
      assert Fed(r, more[n], decode, generate) == (r, []);
      assert out + [] == out;
    }
  }
}
