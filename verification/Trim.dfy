/** Context-window overflow: cutting the oldest turns out of a chat history. */
module Trim {
  import opened Text

  datatype Json =
    | Null
    | Scalar(truthy: bool)
    | Str(text: string)
    | Arr(items: seq<Json>)
    | Obj(entries: seq<Entry>)

  datatype Entry = Entry(key: string, value: Json)

  type Messages = seq<Json>

  // ------------------------------------------------------------------ costs

  /** The chars/4 estimate of a JSON value. */
  function Estimate(v: Json): nat {
    match v
    case Str(text) => |text| / 4 + 1
    case Arr(items) => EstimateItems(items)
    case Obj(entries) => EstimateEntries(entries)
    case _ => 1
  }

  function EstimateItems(items: seq<Json>): nat {
    if items == [] then 0 else Estimate(items[0]) + EstimateItems(items[1..])
  }

  function EstimateEntries(entries: seq<Entry>): nat {
    if entries == [] then 0
    else |entries[0].key| / 4 + 1 + Estimate(entries[0].value) + EstimateEntries(entries[1..])
  }

  /** The characters of all strings and keys, and how many strings, keys and other values there
      are. */
  function Characters(v: Json): nat {
    match v
    case Str(text) => |text|
    case Arr(items) => CharactersOf(items)
    case Obj(entries) => CharactersIn(entries)
    case _ => 0
  }

  function CharactersOf(items: seq<Json>): nat {
    if items == [] then 0 else Characters(items[0]) + CharactersOf(items[1..])
  }

  function CharactersIn(entries: seq<Entry>): nat {
    if entries == [] then 0 else |entries[0].key| + Characters(entries[0].value) + CharactersIn(entries[1..])
  }

  function Pieces(v: Json): nat {
    match v
    case Arr(items) => PiecesOf(items)
    case Obj(entries) => PiecesIn(entries)
    case _ => 1
  }

  function PiecesOf(items: seq<Json>): nat {
    if items == [] then 0 else Pieces(items[0]) + PiecesOf(items[1..])
  }

  function PiecesIn(entries: seq<Entry>): nat {
    if entries == [] then 0 else 1 + Pieces(entries[0].value) + PiecesIn(entries[1..])
  }

  /** The estimate is a quarter of the characters, and at most one more for every piece. */
  lemma {:induction false} EstimateBounds(v: Json)
    ensures Characters(v) <= 4 * Estimate(v) <= Characters(v) + 4 * Pieces(v)
    decreases v, 0
  {
    match v
    case Arr(items) => ItemsBounds(items);
    case Obj(entries) => EntriesBounds(entries);
    case _ =>
  }

  lemma {:induction false} ItemsBounds(items: seq<Json>)
    ensures CharactersOf(items) <= 4 * EstimateItems(items) <= CharactersOf(items) + 4 * PiecesOf(items)
    decreases items
  {
    if items != [] {
      EstimateBounds(items[0]);
      ItemsBounds(items[1..]);
    }
  }

  lemma {:induction false} EntriesBounds(entries: seq<Entry>)
    ensures CharactersIn(entries) <= 4 * EstimateEntries(entries) <= CharactersIn(entries) + 4 * PiecesIn(entries)
    decreases entries
  {
    if entries != [] {
      EstimateBounds(entries[0].value);
      EntriesBounds(entries[1..]);
    }
  }

  function Lookup(entries: seq<Entry>, key: string): Json {
    if entries == [] then Null
    else if entries[0].key == key then entries[0].value
    else Lookup(entries[1..], key)
  }

  /** `msg.get(key)`, and `Null` for what is not an object. */
  function Get(msg: Json, key: string): Json {
    if msg.Obj? then Lookup(msg.entries, key) else Null
  }

  function FieldTokens(msg: Json, key: string): nat {
    if Get(msg, key) == Null then 0 else Estimate(Get(msg, key))
  }

  function MessageTokens(msg: Json): nat {
    if !msg.Obj? then Estimate(msg)
    else 8 + FieldTokens(msg, "content") + FieldTokens(msg, "name")
           + FieldTokens(msg, "tool_calls") + FieldTokens(msg, "function_call")
  }

  function FieldsTotal(msg: Json, keys: seq<string>): nat {
    if keys == [] then 0 else FieldTokens(msg, keys[0]) + FieldsTotal(msg, keys[1..])
  }

  /** A message costs 8 tokens and what its content, name and calls are estimated at; other
      fields and empty ones cost nothing. */
  lemma MessageTotal(msg: Json)
    ensures msg.Obj? ==>
              MessageTokens(msg) == 8 + FieldsTotal(msg, ["content", "name", "tool_calls", "function_call"])
    ensures forall key :: FieldTokens(msg, key) > 0 ==> msg.Obj? && Get(msg, key) != Null
    ensures forall key :: msg.Obj? && Get(msg, key) != Null ==> FieldTokens(msg, key) == Estimate(Get(msg, key))
  {
    hide Lookup, Estimate;
    TotalCons(msg, "content", ["name", "tool_calls", "function_call"]);
    TotalCons(msg, "name", ["tool_calls", "function_call"]);
    TotalCons(msg, "tool_calls", ["function_call"]);
    TotalCons(msg, "function_call", []);
    assert ["function_call"] == ["function_call"] + [];
    assert ["tool_calls", "function_call"] == ["tool_calls"] + ["function_call"];
    assert ["name", "tool_calls", "function_call"] == ["name"] + ["tool_calls", "function_call"];
    assert ["content", "name", "tool_calls", "function_call"] == ["content"] + ["name", "tool_calls", "function_call"];
  }

  lemma TotalCons(msg: Json, key: string, keys: seq<string>)
    ensures FieldsTotal(msg, [key] + keys) == FieldTokens(msg, key) + FieldsTotal(msg, keys)
    ensures FieldsTotal(msg, []) == 0
  {
    assert ([key] + keys)[1..] == keys;
  }

  function Cost(messages: Messages): nat {
    if messages == [] then 0 else MessageTokens(messages[0]) + Cost(messages[1..])
  }

  lemma {:induction false} CostAppend(a: Messages, b: Messages)
    ensures Cost(a + b) == Cost(a) + Cost(b)
  {
    if a == [] {
      assert a + b == b;
    } else {
      assert (a + b)[1..] == a[1..] + b;
      CostAppend(a[1..], b);
    }
  }

  /** Costs of adjacent stretches of a history add up. */
  lemma CostSplit(messages: Messages, i: nat, j: nat, k: nat)
    requires i <= j <= k <= |messages|
    ensures Cost(messages[i..k]) == Cost(messages[i..j]) + Cost(messages[j..k])
  {
    assert messages[i..k] == messages[i..j] + messages[j..k];
    CostAppend(messages[i..j], messages[j..k]);
  }

  // ------------------------------------------------------------------ roles

  predicate Truthy(v: Json) {
    match v
    case Null => false
    case Scalar(truthy) => truthy
    case Str(text) => text != ""
    case Arr(items) => items != []
    case Obj(entries) => entries != []
  }

  predicate IsTool(msg: Json) {
    msg.Obj? && Get(msg, "role") == Str("tool")
  }

  predicate IsSystem(msg: Json) {
    msg.Obj? && Get(msg, "role") == Str("system")
  }

  /** A message whose tool results follow it. */
  predicate IsCallTurn(msg: Json) {
    msg.Obj? && Truthy(Get(msg, "tool_calls")) && !IsTool(msg)
  }

  /** A call turn is an object that is no tool result and has tool calls: a list or object with
      something in it, some text, or another value that counts as true. */
  lemma CallTurnIff(msg: Json)
    ensures IsCallTurn(msg)
       <==> msg.Obj? && Get(msg, "role") != Str("tool") && Get(msg, "tool_calls") != Null
            && Get(msg, "tool_calls") != Scalar(false)
            && Get(msg, "tool_calls") !in [Str(""), Arr([]), Obj([])]
  {
    hide Lookup;
  }

  // ------------------------------------------------------------------ turns

  /** The indices from `first` up to but not including `next`. */
  datatype Group = Group(first: nat, next: nat)

  /** The first index from `j` on that is not a tool result. */
  function ToolsEnd(messages: Messages, j: nat): (e: nat)
    requires j <= |messages|
    ensures j <= e <= |messages|
    ensures forall i :: j <= i < e ==> IsTool(messages[i])
    ensures e < |messages| ==> !IsTool(messages[e])
    decreases |messages| - j
  {
    if j < |messages| && IsTool(messages[j]) then ToolsEnd(messages, j + 1) else j
  }

  function GroupEnd(messages: Messages, i: nat): (e: nat)
    requires i < |messages|
    ensures i < e <= |messages|
  {
    if IsCallTurn(messages[i]) then ToolsEnd(messages, i + 1) else i + 1
  }

  /** The indivisible units from index `i` on. */
  function GroupsFrom(messages: Messages, i: nat): seq<Group>
    requires i <= |messages|
    decreases |messages| - i
  {
    if i == |messages| then []
    else [Group(i, GroupEnd(messages, i))] + GroupsFrom(messages, GroupEnd(messages, i))
  }

  method TurnGroups(messages: Messages) returns (groups: seq<Group>)
    ensures groups == GroupsFrom(messages, 0)
  {
    groups := [];
    var i, n := 0, |messages|;
    while i < n
      invariant i <= n
      invariant groups + GroupsFrom(messages, i) == GroupsFrom(messages, 0)
    {
      var j := i + 1;
      if IsCallTurn(messages[i]) {
        while j < n && IsTool(messages[j])
          invariant i < j <= n
          invariant ToolsEnd(messages, j) == ToolsEnd(messages, i + 1)
        {
          j := j + 1;
        }
      }
      assert j == GroupEnd(messages, i);
      groups := groups + [Group(i, j)];
      i := j;
    }
  }

  /** What a division into turns has to be: consecutive intervals that cover the history, a
      call turn with all the tool results that directly follow it, and single messages. */
  ghost predicate DividesTurns(messages: Messages, groups: seq<Group>, from: nat) {
    && (groups == [] ==> from == |messages|)
    && (groups != [] ==> groups[0].first == from && groups[|groups| - 1].next == |messages|)
    && (forall k :: 0 <= k < |groups| - 1 ==> groups[k].next == groups[k + 1].first)
    && (forall k :: 0 <= k < |groups| ==> IsTurn(messages, groups[k]))
  }

  ghost predicate IsTurn(messages: Messages, g: Group) {
    && g.first < g.next <= |messages|
    && (forall i :: g.first < i < g.next ==> IsTool(messages[i]))
    && (if IsCallTurn(messages[g.first]) then g.next < |messages| ==> !IsTool(messages[g.next])
        else g.next == g.first + 1)
  }

  lemma TurnEnds(messages: Messages, g: Group)
    requires g.first < |messages|
    ensures IsTurn(messages, g) <==> g.next == GroupEnd(messages, g.first)
  {
  }

  lemma DividesStep(messages: Messages, groups: seq<Group>, from: nat)
    requires from < |messages| && groups != [] && groups[0].first == from
    ensures DividesTurns(messages, groups, from) <==>
            IsTurn(messages, groups[0]) && DividesTurns(messages, groups[1..], groups[0].next)
  {
    hide IsTurn;
    var tail := groups[1..];
    if IsTurn(messages, groups[0]) && DividesTurns(messages, tail, groups[0].next) {
      forall k | 0 <= k < |groups| - 1 ensures groups[k].next == groups[k + 1].first {
        if k > 0 { assert tail[k - 1].next == tail[k].first; }
      }
      forall k | 0 <= k < |groups| ensures IsTurn(messages, groups[k]) {
        if k > 0 { assert IsTurn(messages, tail[k - 1]); }
      }
    }
    if DividesTurns(messages, groups, from) {
      assert forall k :: 0 <= k < |tail| ==> tail[k] == groups[k + 1];
    }
  }

  /** The groups are the one division into turns. */
  lemma {:induction false} TurnsUnique(messages: Messages, groups: seq<Group>, from: nat)
    requires from <= |messages|
    ensures DividesTurns(messages, groups, from) <==> groups == GroupsFrom(messages, from)
    decreases |messages| - from
  {
    if from == |messages| {
    } else if groups != [] && groups[0].first == from {
      var tail := groups[1..];
      TurnEnds(messages, groups[0]);
      TurnsUnique(messages, tail, GroupEnd(messages, from));
      hide ToolsEnd, IsCallTurn, IsTool, GroupEnd, IsTurn;
      assert groups == [groups[0]] + tail;
      DividesStep(messages, groups, from);
    }
  }

  // ---------------------------------------------------------------- trimming

  /** The leading system block; the last message never belongs to it. */
  function HeadFrom(messages: Messages, i: nat): (h: nat)
    requires i < |messages|
    ensures i <= h < |messages|
    ensures forall k :: i <= k < h ==> IsSystem(messages[k])
    ensures h < |messages| - 1 ==> !IsSystem(messages[h])
    decreases |messages| - i
  {
    if i < |messages| - 1 && IsSystem(messages[i]) then HeadFrom(messages, i + 1) else i
  }

  function Head(messages: Messages): (h: nat)
    requires messages != []
    ensures h < |messages|
  {
    HeadFrom(messages, 0)
  }

  /** The turns that lie between the leading system block and the last message. */
  function Within(groups: seq<Group>, lo: nat, hi: nat): seq<Group> {
    if groups == [] then []
    else (if lo <= groups[0].first && groups[0].next <= hi then [groups[0]] else [])
         + Within(groups[1..], lo, hi)
  }

  function Droppable(messages: Messages): seq<Group>
    requires messages != []
  {
    Within(GroupsFrom(messages, 0), Head(messages), |messages| - 1)
  }

  /** How many tokens must go: by the upstream's count, or by our own estimate if that says
      more. */
  function Needed(messages: Messages, prompt: int, ctx: int, margin: int): int {
    var byPrompt, byEstimate := prompt - (ctx - margin), Cost(messages) - (ctx - margin);
    if byPrompt < byEstimate then byEstimate else byPrompt
  }

  /** Where the kept messages start again once enough of `groups` is dropped. */
  function KeepFrom(messages: Messages, groups: seq<Group>, needed: int, dropped: nat, keep: nat): (k: nat)
    requires keep <= |messages| && forall g :: g in groups ==> g.first < g.next <= |messages|
    ensures k <= |messages|
  {
    if groups == [] || dropped >= needed then keep
    else
      var g := groups[0];
      KeepFrom(messages, groups[1..], needed, dropped + Cost(messages[g.first..g.next]), g.next)
  }

  function Digits(n: nat): string {
    if n < 10 then [('0' as int + n) as char] else Digits(n / 10) + [('0' as int + n % 10) as char]
  }

  /** The number that decimal digits denote. */
  function Denoted(s: string): int {
    if s == "" then 0 else 10 * Denoted(s[..|s| - 1]) + (s[|s| - 1] as int - '0' as int)
  }

  /** `str.format` writes the number itself, in digits and without leading zeros. */
  lemma {:induction false} DigitsDenote(n: nat)
    ensures var s := Digits(n);
            && s != "" && Denoted(s) == n && (|s| > 1 ==> s[0] != '0')
            && forall i :: 0 <= i < |s| ==> '0' <= s[i] <= '9'
  {
    var s := Digits(n);
    if n < 10 {
      assert s[..0] == "";
    } else {
      DigitsDenote(n / 10);
      assert s[..|s| - 1] == Digits(n / 10);
      assert Digits(n / 10) != "0" by { if n / 10 < 10 { assert Digits(n / 10)[0] != '0'; } }
    }
  }

  /** The note left in place of `n` dropped messages. */
  function Marker(n: nat): Json {
    Obj([Entry("role", Str("system")),
         Entry("content", Str("[llamaswap: dropped " + Digits(n)
                              + " earlier messages to fit the context window]"))])
  }

  lemma MarkerIsSystem(n: nat)
    ensures IsSystem(Marker(n)) && !IsTool(Marker(n)) && !IsCallTurn(Marker(n))
  {
    var m := Marker(n);
    assert m.entries[1..][1..] == [];
    assert Lookup(m.entries, "role") == Str("system");
    assert Lookup(m.entries[1..][1..], "tool_calls") == Null;
    assert Lookup(m.entries[1..], "tool_calls") == Null;
  }

  datatype Trimmed = Trimmed(messages: Messages, dropped: nat)

  lemma GroupsInRange(messages: Messages, from: nat, lo: nat, hi: nat)
    requires from <= |messages|
    ensures forall g :: g in Within(GroupsFrom(messages, from), lo, hi) ==> g.first < g.next <= |messages|
    decreases |messages| - from
  {
  }

  function TrimMessages(messages: Messages, prompt: int, ctx: int, margin: int): Option<Trimmed> {
    if messages == [] then None
    else
      var droppable := Droppable(messages);
      var needed := Needed(messages, prompt, ctx, margin);
      if droppable == [] || needed <= 0 then None
      else
        GroupsInRange(messages, 0, Head(messages), |messages| - 1);
        var h, k := Head(messages), KeepFrom(messages, droppable, needed, 0, |messages|);
        if k <= h then None
        else Some(Trimmed(messages[..h] + [Marker(k - h)] + messages[k..], k - h))
  }

  // ------------------------------------------------------ what trimming drops

  /** Consecutive turns inside `lo..hi`. */
  ghost predicate Chain(messages: Messages, groups: seq<Group>, lo: nat, hi: nat) {
    && (forall k :: 0 <= k < |groups| ==>
          && lo <= groups[k].first < |messages| && groups[k].next <= hi
          && groups[k].next == GroupEnd(messages, groups[k].first))
    && (forall k :: 0 <= k < |groups| - 1 ==> groups[k].next == groups[k + 1].first)
  }

  lemma {:induction false} PastTheEnd(messages: Messages, from: nat, lo: nat, hi: nat)
    requires hi <= from <= |messages|
    ensures Within(GroupsFrom(messages, from), lo, hi) == []
    decreases |messages| - from
  {
    if from < |messages| { PastTheEnd(messages, GroupEnd(messages, from), lo, hi); }
  }

  /** The droppable turns are consecutive, and the first of them starts where the first turn
      at or after `lo` does. */
  lemma {:induction false} WithinIsChain(messages: Messages, from: nat, lo: nat, hi: nat)
    requires from <= |messages| && hi <= |messages|
    ensures var ds := Within(GroupsFrom(messages, from), lo, hi);
            && Chain(messages, ds, lo, hi)
            && (lo <= from && ds != [] ==> ds[0].first == from)
    decreases |messages| - from
  {
    if from < |messages| {
      var e := GroupEnd(messages, from);
      WithinIsChain(messages, e, lo, hi);
      if e > hi { PastTheEnd(messages, e, lo, hi); }
      hide GroupEnd;
      assert GroupsFrom(messages, from)[1..] == GroupsFrom(messages, e);
      var tail := Within(GroupsFrom(messages, e), lo, hi);
      if lo <= from && e <= hi { ChainFront(messages, tail, from, lo, hi); }
      hide Chain;
    }
  }

  lemma ChainFront(messages: Messages, tail: seq<Group>, from: nat, lo: nat, hi: nat)
    requires lo <= from < |messages| && GroupEnd(messages, from) <= hi
    requires Chain(messages, tail, lo, hi) && (tail != [] ==> tail[0].first == GroupEnd(messages, from))
    ensures Chain(messages, [Group(from, GroupEnd(messages, from))] + tail, lo, hi)
  {
    hide GroupEnd;
  }

  /** Index after the first `j` of consecutive groups that start at `from`. */
  function After(groups: seq<Group>, j: nat, from: nat): nat
    requires j <= |groups|
  {
    if j == 0 then from else groups[j - 1].next
  }

  lemma ChainTail(messages: Messages, groups: seq<Group>, lo: nat, hi: nat)
    requires Chain(messages, groups, lo, hi) && |groups| > 1
    ensures Chain(messages, groups[1..], lo, hi) && groups[1].first == groups[0].next
  {
    hide GroupEnd;
    var tail := groups[1..];
    assert forall k :: 0 <= k < |tail| ==> tail[k] == groups[k + 1];
  }

  /** The first `j` turns are the shortest run that reaches `needed`, or all there are. */
  ghost predicate StopsAt(messages: Messages, groups: seq<Group>, needed: int, dropped: nat, j: nat)
    requires groups != [] && j <= |groups|
  {
    var b := groups[0].first;
    && b <= After(groups, j, b) <= |messages|
    && (j == |groups| || dropped + Cost(messages[b..After(groups, j, b)]) >= needed)
    && (j > 0 ==> && b <= groups[j - 1].first <= |messages|
                  && dropped + Cost(messages[b..groups[j - 1].first]) < needed)
  }

  /** One more turn in front. */
  lemma StopsLater(messages: Messages, groups: seq<Group>, needed: int, dropped: nat, i: nat)
    requires |groups| > 1 && i < |groups| && groups[1].first == groups[0].next && dropped < needed
    requires forall g :: g in groups ==> g.first < g.next <= |messages|
    requires StopsAt(messages, groups[1..], needed, dropped + Cost(messages[groups[0].first..groups[0].next]), i)
    requires i == 0 ==> dropped + Cost(messages[groups[0].first..groups[0].next]) >= needed
    ensures StopsAt(messages, groups, needed, dropped, i + 1)
    ensures After(groups, i + 1, groups[0].first) == After(groups[1..], i, groups[0].next)
  {
    var tail, b, e := groups[1..], groups[0].first, groups[0].next;
    assert groups[0] in groups;
    assert messages[b..b] == [] && Cost([]) == 0;
    hide Cost;
    assert After(groups, i + 1, b) == After(tail, i, e);
    CostSplit(messages, b, e, After(tail, i, e));
    if i > 0 {
      assert groups[i] == tail[i - 1];
      CostSplit(messages, b, e, groups[i].first);
    }
  }

  /** The loop drops the shortest run of turns that reaches `needed`, or all of them. */
  lemma {:induction false} KeepPoint(messages: Messages, groups: seq<Group>, needed: int, dropped: nat,
                                     keep: nat, lo: nat, hi: nat) returns (j: nat)
    requires Chain(messages, groups, lo, hi) && groups != []
    requires keep <= |messages| && hi <= |messages|
    requires forall g :: g in groups ==> g.first < g.next <= |messages|
    ensures j <= |groups| && (j == 0 <==> dropped >= needed) && StopsAt(messages, groups, needed, dropped, j)
    ensures KeepFrom(messages, groups, needed, dropped, keep)
         == (if j == 0 then keep else After(groups, j, groups[0].first))
  {
    hide *;
    if dropped >= needed {
      StopsNow(messages, groups, needed, dropped, keep);
      j := 0;
    } else if |groups| == 1 {
      StopsLast(messages, groups, needed, dropped, keep);
      j := 1;
    } else {
      var g, tail := groups[0], groups[1..];
      ChainTail(messages, groups, lo, hi);
      KeepTail(messages, groups, needed, dropped, keep);
      var i := KeepPoint(messages, tail, needed, dropped + Cost(messages[g.first..g.next]), g.next, lo, hi);
      StopsLater(messages, groups, needed, dropped, i);
      j := i + 1;
    }
  }

  lemma StopsNow(messages: Messages, groups: seq<Group>, needed: int, dropped: nat, keep: nat)
    requires groups != [] && keep <= |messages| && dropped >= needed
    requires forall g :: g in groups ==> g.first < g.next <= |messages|
    ensures StopsAt(messages, groups, needed, dropped, 0) && KeepFrom(messages, groups, needed, dropped, keep) == keep
  {
    assert groups[0] in groups;
    hide Cost;
  }

  lemma StopsLast(messages: Messages, groups: seq<Group>, needed: int, dropped: nat, keep: nat)
    requires |groups| == 1 && keep <= |messages| && dropped < needed
    requires forall g :: g in groups ==> g.first < g.next <= |messages|
    ensures StopsAt(messages, groups, needed, dropped, 1) && After(groups, 1, groups[0].first) == groups[0].next
    ensures KeepFrom(messages, groups, needed, dropped, keep) == groups[0].next
  {
    assert groups[0] in groups && groups[1..] == [];
    assert messages[groups[0].first..groups[0].first] == [] && Cost([]) == 0;
    hide Cost;
  }

  lemma KeepTail(messages: Messages, groups: seq<Group>, needed: int, dropped: nat, keep: nat)
    requires |groups| > 1 && keep <= |messages| && dropped < needed
    requires forall g :: g in groups ==> g.first < g.next <= |messages|
    ensures groups[0] in groups && forall g :: g in groups[1..] ==> g.first < g.next <= |messages|
    ensures var g := groups[0];
            var cost := Cost(messages[g.first..g.next]);
            && KeepFrom(messages, groups, needed, dropped, keep)
               == KeepFrom(messages, groups[1..], needed, dropped + cost, g.next)
            && After(groups[1..], 0, g.next) == g.next
  {
    hide Cost;
  }
}
