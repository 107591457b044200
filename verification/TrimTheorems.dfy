/** What trimming guarantees, in one round and over any number of rounds. */
module TrimTheorems {
  import opened Text
  import opened Trim

  /** The cut: everything from the end of the leading system block up to `k` is replaced by
      one marker, where `k` ends the shortest run of droppable turns that reaches what is
      needed, or ends all of them. */
  ghost predicate CutsAt(messages: Messages, needed: int, k: nat)
    requires messages != []
  {
    var ds := Droppable(messages);
    && Head(messages) < k <= |messages| - 1
    && exists j: nat :: 0 < j <= |ds| && ReachesAt(messages, ds, needed, j, k)
  }

  ghost predicate ReachesAt(messages: Messages, ds: seq<Group>, needed: int, j: nat, k: nat)
    requires 0 < j <= |ds|
  {
    var b, last := ds[0].first, ds[j - 1];
    && b <= last.first <= last.next == k <= |messages|
    && (j == |ds| || Cost(messages[b..k]) >= needed)
    && Cost(messages[b..last.first]) < needed
  }

  function Cut(messages: Messages, k: nat): Trimmed
    requires messages != [] && Head(messages) <= k <= |messages|
  {
    var h := Head(messages);
    Trimmed(messages[..h] + [Marker(k - h)] + messages[k..], k - h)
  }

  lemma DroppableChain(messages: Messages)
    requires messages != []
    ensures Chain(messages, Droppable(messages), Head(messages), |messages| - 1)
    ensures forall g :: g in Droppable(messages) ==> g.first < g.next <= |messages|
  {
    WithinIsChain(messages, 0, Head(messages), |messages| - 1);
    GroupsInRange(messages, 0, Head(messages), |messages| - 1);
  }

  /** Trimming gives up exactly when nothing is droppable or nothing is needed; otherwise it
      makes the cut. */
  lemma TrimCuts(messages: Messages, prompt: int, ctx: int, margin: int) returns (k: nat)
    ensures var r := TrimMessages(messages, prompt, ctx, margin);
            var needed := Needed(messages, prompt, ctx, margin);
            && (r.None? <==> messages == [] || Droppable(messages) == [] || needed <= 0)
            && (r.Some? ==> CutsAt(messages, needed, k) && r.value == Cut(messages, k))
  {
    k := 0;
    var needed := Needed(messages, prompt, ctx, margin);
    if messages != [] && Droppable(messages) != [] && needed > 0 {
      DroppableChain(messages);
      k := Reach(messages, Droppable(messages), needed, Head(messages));
      hide Droppable, Head, Needed, KeepFrom, ReachesAt;
    }
  }

  lemma Reach(messages: Messages, ds: seq<Group>, needed: int, h: nat) returns (k: nat)
    requires messages != [] && Chain(messages, ds, h, |messages| - 1) && ds != [] && needed > 0
    requires forall g :: g in ds ==> g.first < g.next <= |messages|
    ensures h < k <= |messages| - 1 && k == KeepFrom(messages, ds, needed, 0, |messages|)
    ensures exists j: nat :: 0 < j <= |ds| && ReachesAt(messages, ds, needed, j, k)
  {
    var j := KeepPoint(messages, ds, needed, 0, |messages|, h, |messages| - 1);
    hide GroupEnd, Cost, KeepFrom;
    k := ds[j - 1].next;
    assert ReachesAt(messages, ds, needed, j, k);
  }

  /** The droppable turns are the turns between the leading system block and the last message;
      in order, and none is left out. */
  lemma {:induction false} WithinIff(groups: seq<Group>, lo: nat, hi: nat, g: Group)
    ensures g in Within(groups, lo, hi) <==> g in groups && lo <= g.first && g.next <= hi
  {
    if groups != [] {
      WithinIff(groups[1..], lo, hi, g);
      assert g in groups <==> g == groups[0] || g in groups[1..];
    }
  }

  lemma DroppableIff(messages: Messages, g: Group)
    requires messages != []
    ensures g in Droppable(messages)
       <==> g in GroupsFrom(messages, 0) && Head(messages) <= g.first && g.next <= |messages| - 1
  {
    hide *;
    DroppableIs(messages);
    WithinIff(GroupsFrom(messages, 0), Head(messages), |messages| - 1, g);
  }

  lemma DroppableIs(messages: Messages)
    requires messages != []
    ensures Droppable(messages) == Within(GroupsFrom(messages, 0), Head(messages), |messages| - 1)
  {
    hide GroupsFrom, Within;
  }

  /** The leading system block: system messages up to one that is none, or up to the last. */
  lemma HeadIff(messages: Messages, h: nat)
    requires messages != []
    ensures Head(messages) == h
       <==> && h < |messages| && (forall k :: 0 <= k < h ==> IsSystem(messages[k]))
            && (h < |messages| - 1 ==> !IsSystem(messages[h]))
  {
    hide IsSystem;
  }

  /** How much goes: unless nothing droppable is left, what is dropped makes up for what the
      upstream counted over the limit and for what the estimate says is over it; without the
      last turn dropped one of the two would not be made up for. Nothing is dropped exactly if
      nothing can be or neither is over the limit. */
  lemma TrimDropsEnough(messages: Messages, prompt: int, ctx: int, margin: int) returns (j: nat, k: nat)
    ensures TrimMessages(messages, prompt, ctx, margin).None?
       <==> messages == [] || Droppable(messages) == []
            || (prompt <= ctx - margin && Cost(messages) <= ctx - margin)
    ensures TrimMessages(messages, prompt, ctx, margin).Some? ==>
              var ds, limit := Droppable(messages), ctx - margin;
              && 0 < j <= |ds| && ds[j - 1].next == k && Head(messages) < k < |messages|
              && TrimMessages(messages, prompt, ctx, margin).value == Cut(messages, k)
              && ds[0].first <= ds[j - 1].first < k
              && (j < |ds| ==> var gone := Cost(messages[ds[0].first..k]);
                               gone >= prompt - limit && gone >= Cost(messages) - limit)
              && (var gone := Cost(messages[ds[0].first..ds[j - 1].first]);
                  gone < prompt - limit || gone < Cost(messages) - limit)
  {
    var needed := Needed(messages, prompt, ctx, margin);
    k := TrimCuts(messages, prompt, ctx, margin);
    j := 0;
    if TrimMessages(messages, prompt, ctx, margin).Some? {
      DroppableChain(messages);
      hide Droppable, Head, Cost, TrimMessages, Cut, Chain;
      var ds := Droppable(messages);
      var i: nat :| 0 < i <= |ds| && ReachesAt(messages, ds, needed, i, k);
      assert ds[i - 1] in ds;
      j := i;
    }
  }

  // ------------------------------------------------------------------ the fit

  /** Either the kept originals are estimated to fit, or every droppable turn is gone. */
  lemma TrimFits(messages: Messages, prompt: int, ctx: int, margin: int, k: nat)
    requires messages != [] && CutsAt(messages, Needed(messages, prompt, ctx, margin), k)
    ensures || Cost(messages[..Head(messages)] + messages[k..]) <= ctx - margin
            || forall g :: g in Droppable(messages) ==> g.next <= k
  {
    var h, ds := Head(messages), Droppable(messages);
    DroppableChain(messages);
    hide Droppable, Head, KeepFrom, GroupEnd, Cost;
    var j: nat :| 0 < j <= |ds| && ReachesAt(messages, ds, Needed(messages, prompt, ctx, margin), j, k);
    var b := ds[0].first;
    if j == |ds| {
      LastIsLast(messages, ds, h, |messages| - 1);
    } else {
      CostAppend(messages[..h], messages[k..]);
      CostSplit(messages, 0, h, |messages|);
      CostSplit(messages, h, k, |messages|);
      CostSplit(messages, h, b, k);
      assert messages[0..|messages|] == messages && messages[0..h] == messages[..h];
      assert messages[k..|messages|] == messages[k..];
    }
  }

  lemma {:induction false} LastIsLast(messages: Messages, ds: seq<Group>, lo: nat, hi: nat)
    requires Chain(messages, ds, lo, hi) && ds != []
    ensures forall g :: g in ds ==> g.next <= ds[|ds| - 1].next
    ensures forall g :: g in ds ==> g.next >= ds[0].next
  {
    if |ds| > 1 {
      ChainTail(messages, ds, lo, hi);
      LastIsLast(messages, ds[1..], lo, hi);
      assert forall g :: g in ds ==> g == ds[0] || g in ds[1..];
      assert ds[1].next > ds[1].first;
    }
  }

  // --------------------------------------------------------------- tool results

  /** The tool result at `i` directly follows, through other tool results, the call turn at
      `j`. */
  predicate Answers(messages: Messages, i: int, j: int) {
    0 <= j < i < |messages| && IsCallTurn(messages[j])
    && forall l :: j < l <= i ==> IsTool(messages[l])
  }

  /** Upstream refuses a history with an orphaned tool result. */
  ghost predicate NoOrphans(messages: Messages) {
    forall i :: 0 <= i < |messages| && IsTool(messages[i]) ==> exists j :: Answers(messages, i, j)
  }

  lemma {:induction false} StartsAreNotTools(messages: Messages, from: nat)
    requires NoOrphans(messages) && from <= |messages|
    requires from < |messages| ==> !IsTool(messages[from])
    ensures forall g :: g in GroupsFrom(messages, from) ==>
              g.next <= |messages| && (g.next < |messages| ==> !IsTool(messages[g.next]))
    decreases |messages| - from
  {
    if from < |messages| {
      var e := GroupEnd(messages, from);
      forall j ensures !Answers(messages, e, j) {
      }
      StartsAreNotTools(messages, e);
    }
  }

  lemma {:induction false} WithinSubset(groups: seq<Group>, lo: nat, hi: nat)
    ensures forall g :: g in Within(groups, lo, hi) ==> g in groups && lo <= g.first && g.next <= hi
  {
    if groups != [] { WithinSubset(groups[1..], lo, hi); }
  }

  /** The kept part starts at a turn. */
  lemma KeptStartsTurn(messages: Messages, needed: int, k: nat)
    requires messages != [] && CutsAt(messages, needed, k)
    ensures exists g :: && g in GroupsFrom(messages, 0) && g in Droppable(messages)
                        && Head(messages) <= g.first && g.next == k
  {
    var ds := Droppable(messages);
    var j: nat :| 0 < j <= |ds| && ReachesAt(messages, ds, needed, j, k);
    WithinSubset(GroupsFrom(messages, 0), Head(messages), |messages| - 1);
    assert ds[j - 1] in ds;
  }

  lemma SystemIsNotTool(m: Json)
    requires IsSystem(m)
    ensures !IsTool(m)
  {
    assert "system"[0] != "tool"[0];
  }

  lemma CutKeepsToolResults(messages: Messages, k: nat)
    requires NoOrphans(messages) && messages != [] && Head(messages) <= k < |messages| && !IsTool(messages[k])
    ensures NoOrphans(Cut(messages, k).messages)
  {
    var h, cut := Head(messages), Cut(messages, k).messages;
    MarkerIsSystem(k - h);
    hide IsTool, IsCallTurn, Marker;
    forall i | 0 <= i < |cut| && IsTool(cut[i]) ensures exists j :: Answers(cut, i, j) {
      if i < h { SystemIsNotTool(messages[i]); }
      var shift := k - h - 1;
      var j :| Answers(messages, i + shift, j);
      assert j >= k;
      assert Answers(cut, i, j - shift);
    }
  }

  /** No trim orphans a tool result. */
  lemma TrimKeepsToolResults(messages: Messages, prompt: int, ctx: int, margin: int)
    requires NoOrphans(messages)
    ensures var r := TrimMessages(messages, prompt, ctx, margin);
            r.Some? ==> NoOrphans(r.value.messages)
  {
    var k := TrimCuts(messages, prompt, ctx, margin);
    if TrimMessages(messages, prompt, ctx, margin).Some? {
      var needed := Needed(messages, prompt, ctx, margin);
      KeptStartsTurn(messages, needed, k);
      assert forall j :: !Answers(messages, 0, j);
      StartsAreNotTools(messages, 0);
      CutKeepsToolResults(messages, k);
    }
  }

  // ----------------------------------------------------------- whole turns

  /** Every turn is kept or dropped as a whole. */
  ghost predicate WholeTurns(messages: Messages, h: nat, k: nat) {
    forall g :: g in GroupsFrom(messages, 0) ==>
      g.next <= h || (h <= g.first && g.next <= k) || k <= g.first
  }

  /** The leading system block ends in the middle of a turn. */
  predicate SplitsTurn(messages: Messages)
    requires messages != []
  {
    var h := Head(messages);
    h > 0 && IsCallTurn(messages[h - 1]) && IsTool(messages[h])
  }

  lemma {:induction false} TurnsApart(messages: Messages, from: nat, a: Group, b: Group)
    requires from <= |messages| && a in GroupsFrom(messages, from) && b in GroupsFrom(messages, from)
    ensures from <= a.first < a.next <= |messages| && a.next == GroupEnd(messages, a.first)
    ensures a == b || a.next <= b.first || b.next <= a.first
    decreases |messages| - from
  {
    var e := GroupEnd(messages, from);
    var tail := GroupsFrom(messages, e);
    assert GroupsFrom(messages, from) == [Group(from, e)] + tail;
    if a in tail {
      TurnsApart(messages, e, a, if b in tail then b else a);
    }
    if b in tail {
      TurnsApart(messages, e, b, b);
    }
  }

  /** Only tool results stand inside a turn. */
  lemma {:induction false} NonToolStarts(messages: Messages, from: nat, i: nat)
    requires from <= i < |messages| && !IsTool(messages[i])
    ensures Group(i, GroupEnd(messages, i)) in GroupsFrom(messages, from)
    decreases |messages| - from
  {
    if from < i {
      var e := GroupEnd(messages, from);
      NonToolStarts(messages, e, i);
    }
  }

  lemma NotAcross(messages: Messages, g: Group)
    requires messages != [] && !SplitsTurn(messages)
    requires g.first < |messages| && g.next == GroupEnd(messages, g.first)
    ensures !(g.first < Head(messages) < g.next)
  {
    var h := Head(messages);
    if g.first < h - 1 && h < g.next {
      SystemIsNotTool(messages[h - 1]);
    }
  }

  /** A turn that the leading system block cuts in two is neither kept nor dropped. */
  lemma SplitTurnBreaks(messages: Messages, k: nat)
    requires messages != [] && SplitsTurn(messages) && Head(messages) < k
    ensures !WholeTurns(messages, Head(messages), k)
  {
    var h := Head(messages);
    SystemBefore(messages, 0, h - 1);
    hide Head, GroupsFrom;
    NonToolStarts(messages, 0, h - 1);
    var g := Group(h - 1, GroupEnd(messages, h - 1));
    assert g in GroupsFrom(messages, 0) && g.first < h < g.next;
  }

  lemma {:induction false} SystemBefore(messages: Messages, from: nat, i: nat)
    requires from <= i < |messages| && i < HeadFrom(messages, from)
    ensures IsSystem(messages[i]) && !IsTool(messages[i])
    decreases |messages| - from
  {
    SystemIsNotTool(messages[from]);
    if from < i { SystemBefore(messages, from + 1, i); }
  }

  /** Where no turn is cut in two, each is on one side of the cut. */
  lemma OneSide(messages: Messages, d: Group, g: Group)
    requires messages != [] && !SplitsTurn(messages)
    requires d in GroupsFrom(messages, 0) && g in GroupsFrom(messages, 0) && Head(messages) <= d.first
    ensures g.next <= Head(messages) || (Head(messages) <= g.first && g.next <= d.next) || d.next <= g.first
  {
    hide Head, GroupsFrom, SplitsTurn;
    TurnsApart(messages, 0, g, d);
    TurnsApart(messages, 0, d, g);
    NotAcross(messages, g);
  }

  lemma UncutTurnsWhole(messages: Messages, d: Group)
    requires messages != [] && !SplitsTurn(messages)
    requires d in GroupsFrom(messages, 0) && Head(messages) <= d.first
    ensures WholeTurns(messages, Head(messages), d.next)
  {
    hide Head, GroupsFrom, SplitsTurn;
    forall g | g in GroupsFrom(messages, 0)
      ensures g.next <= Head(messages) || (Head(messages) <= g.first && g.next <= d.next) || d.next <= g.first
    {
      OneSide(messages, d, g);
    }
  }

  /** The last turn that goes. */
  lemma LastDropped(messages: Messages, needed: int, k: nat) returns (d: Group)
    requires messages != [] && CutsAt(messages, needed, k)
    ensures d in GroupsFrom(messages, 0) && Head(messages) <= d.first && d.next == k
    ensures Head(messages) < k
  {
    assert Head(messages) < k;
    hide *;
    KeptStartsTurn(messages, needed, k);
    d :| d in GroupsFrom(messages, 0) && d in Droppable(messages) && Head(messages) <= d.first && d.next == k;
  }

  /** Turns are dropped as a whole, except when the last message of the leading system block
      carries tool calls and a tool result answers it: then the results go and the calls
      stay. */
  lemma WholeTurnsIff(messages: Messages, needed: int, k: nat)
    requires messages != [] && CutsAt(messages, needed, k)
    ensures WholeTurns(messages, Head(messages), k) <==> !SplitsTurn(messages)
  {
    var d := LastDropped(messages, needed, k);
    hide *;
    if SplitsTurn(messages) {
      SplitTurnBreaks(messages, k);
    } else {
      UncutTurnsWhole(messages, d);
    }
  }

  function Plain(role: string): Json {
    Obj([Entry("role", Str(role))])
  }

  function Calling(role: string): Json {
    Obj([Entry("role", Str(role)), Entry("tool_calls", Arr([Null]))])
  }

  /** A system message that calls a tool, its result, and two user messages: however much has
      to go, the trim succeeds, drops the result and keeps the call. */
  lemma SplitTurnHappens(prompt: int, ctx: int, margin: int) returns (k: nat)
    requires prompt > ctx - margin
    ensures var messages := [Calling("system"), Plain("tool"), Plain("user"), Plain("user")];
            && SplitsTurn(messages) && Head(messages) == 1
            && CutsAt(messages, Needed(messages, prompt, ctx, margin), k)
            && TrimMessages(messages, prompt, ctx, margin) == Some(Cut(messages, k))
            && !WholeTurns(messages, Head(messages), k)
  {
    var messages := [Calling("system"), Plain("tool"), Plain("user"), Plain("user")];
    Roles();
    hide Plain, Calling, IsSystem, IsTool, IsCallTurn;
    assert HeadFrom(messages, 1) == 1;
    assert Head(messages) == 1;
    var d := Group(2, GroupEnd(messages, 2));
    NonToolStarts(messages, 0, 2);
    WithinKeeps(GroupsFrom(messages, 0), d, 1, 3);
    assert d in Droppable(messages);
    hide Head, Droppable, GroupsFrom, TrimMessages, Cut, CutsAt, Needed, WholeTurns;
    k := TrimCuts(messages, prompt, ctx, margin);
    NeedsSome(messages, prompt, ctx, margin);
    CutBehindHead(messages, Needed(messages, prompt, ctx, margin), k);
    SplitTurnBreaks(messages, k);
  }

  lemma NeedsSome(messages: Messages, prompt: int, ctx: int, margin: int)
    requires prompt > ctx - margin
    ensures Needed(messages, prompt, ctx, margin) > 0
  {
  }

  lemma CutBehindHead(messages: Messages, needed: int, k: nat)
    requires messages != [] && CutsAt(messages, needed, k)
    ensures Head(messages) < k
  {
  }

  lemma {:induction false} WithinKeeps(groups: seq<Group>, g: Group, lo: nat, hi: nat)
    requires g in groups && lo <= g.first && g.next <= hi
    ensures g in Within(groups, lo, hi)
  {
    if g in groups[1..] { WithinKeeps(groups[1..], g, lo, hi); }
  }

  lemma Roles()
    ensures IsSystem(Calling("system")) && IsCallTurn(Calling("system")) && !IsTool(Calling("system"))
    ensures IsTool(Plain("tool")) && !IsSystem(Plain("tool"))
    ensures !IsTool(Plain("user")) && !IsSystem(Plain("user")) && !IsCallTurn(Plain("user"))
  {
    var s := Calling("system").entries;
    assert Lookup(s, "tool_calls") == Lookup(s[1..], "tool_calls") == Arr([Null]);
    var u := Plain("user").entries;
    assert Lookup(u, "tool_calls") == Lookup(u[1..], "tool_calls") == Null;
  }

  // ------------------------------------------------------- over many rounds

  /** One upstream refusal: its own token counts and the margin of the request. */
  datatype Overflow = Overflow(prompt: int, ctx: int, margin: int)

  /** The history after the given refusals, if every one of them could be met by a trim. */
  function Rounds(messages: Messages, refusals: seq<Overflow>): Option<Messages>
    decreases |refusals|
  {
    if refusals == [] then Some(messages)
    else
      var o := refusals[0];
      var r := TrimMessages(messages, o.prompt, o.ctx, o.margin);
      if r.None? then None else Rounds(r.value.messages, refusals[1..])
  }

  /** `origin` says for each message of `now` where it stood in `start`, or that it is a
      marker; the originals are still in order. */
  ghost predicate Traces(start: Messages, now: Messages, origin: seq<Option<nat>>) {
    && |origin| == |now|
    && (forall x :: 0 <= x < |now| && origin[x].Some? ==>
          origin[x].value < |start| && now[x] == start[origin[x].value])
    && (forall x :: 0 <= x < |now| && origin[x].None? ==> exists n :: now[x] == Marker(n))
    && (forall x, y :: 0 <= x < y < |now| && origin[x].Some? && origin[y].Some? ==>
          origin[x].value < origin[y].value)
  }

  /** The messages after the leading system block: what is left to trim. */
  function Trimmable(messages: Messages): nat
    requires messages != []
  {
    |messages| - Head(messages)
  }

  lemma {:induction false} HeadReaches(messages: Messages, i: nat, j: nat)
    requires i <= j < |messages| && forall l :: i <= l < j ==> IsSystem(messages[l])
    ensures HeadFrom(messages, i) >= j
    decreases j - i
  {
    if i < j { HeadReaches(messages, i + 1, j); }
  }

  /** What one cut keeps, and what it uses up. */
  lemma CutKeeps(messages: Messages, k: nat)
    requires messages != [] && Head(messages) < k < |messages|
    ensures var cut := Cut(messages, k).messages;
            Keeps(messages, cut, 1) && Head(messages) < Head(cut)
  {
    var h, cut := Head(messages), Cut(messages, k).messages;
    MarkerIsSystem(k - h);
    hide IsSystem, Marker;
    HeadReaches(cut, 0, h + 1);
  }

  lemma CutTraces(start: Messages, messages: Messages, origin: seq<Option<nat>>, k: nat)
    requires Traces(start, messages, origin) && messages != [] && Head(messages) < k < |messages|
    ensures Traces(start, Cut(messages, k).messages, origin[..Head(messages)] + [None] + origin[k..])
  {
    hide Marker, Head;
    var h := Head(messages);
    var now := Cut(messages, k).messages;
    assert now[h] == Marker(k - h);
  }

  /** What `rounds` rounds may do to a history: the leading system block stays in front and
      the last message last, and every round uses up part of a finite supply. */
  ghost predicate Keeps(before: Messages, after: Messages, rounds: nat) {
    && before != [] && after != []
    && Head(before) <= Head(after) && after[..Head(before)] == before[..Head(before)]
    && after[|after| - 1] == before[|before| - 1]
    && Trimmable(after) + rounds <= Trimmable(before)
  }

  lemma KeepsOn(a: Messages, b: Messages, c: Messages, m: nat, n: nat)
    requires Keeps(a, b, m) && Keeps(b, c, n)
    ensures Keeps(a, c, m + n)
  {
    hide Head;
    assert c[..Head(a)] == c[..Head(b)][..Head(a)];
  }

  lemma RoundKeeps(start: Messages, messages: Messages, o: Overflow, origin: seq<Option<nat>>)
    returns (now: seq<Option<nat>>)
    requires messages != [] && Traces(start, messages, origin)
    requires TrimMessages(messages, o.prompt, o.ctx, o.margin).Some?
    ensures var r := TrimMessages(messages, o.prompt, o.ctx, o.margin).value.messages;
            && Traces(start, r, now) && Keeps(messages, r, 1)
            && (NoOrphans(messages) ==> NoOrphans(r))
  {
    var k := TrimCuts(messages, o.prompt, o.ctx, o.margin);
    assert Head(messages) < k < |messages|;
    hide *;
    if NoOrphans(messages) { TrimKeepsToolResults(messages, o.prompt, o.ctx, o.margin); }
    CutKeeps(messages, k);
    CutTraces(start, messages, origin, k);
    now := origin[..Head(messages)] + [None] + origin[k..];
  }

  /** Over any number of trim rounds: no tool result is orphaned that was not orphaned before
      the first, the original leading system block stays in front and the last message last, the surviving originals keep their
      order among markers, and there can be only as many rounds as there are messages after
      the leading system block. */
  lemma {:induction false} RoundsKeep(start: Messages, messages: Messages, refusals: seq<Overflow>,
                                      origin: seq<Option<nat>>) returns (now: seq<Option<nat>>)
    requires messages != [] && Traces(start, messages, origin)
    requires Rounds(messages, refusals).Some?
    ensures var r := Rounds(messages, refusals).value;
            && Traces(start, r, now) && Keeps(messages, r, |refusals|)
            && (NoOrphans(messages) ==> NoOrphans(r))
    decreases |refusals|
  {
    hide NoOrphans, Traces, TrimMessages;
    if refusals == [] {
      now := origin;
    } else {
      var o := refusals[0];
      var cut := TrimMessages(messages, o.prompt, o.ctx, o.margin).value.messages;
      var tags := RoundKeeps(start, messages, o, origin);
      assert cut != [];
      now := RoundsKeep(start, cut, refusals[1..], tags);
      hide Keeps;
      KeepsOn(messages, cut, Rounds(messages, refusals).value, 1, |refusals| - 1);
    }
  }
}
