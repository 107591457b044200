/** Re-emission of recovered calls on a whole response. */
module ReconcileResponse {
  import opened Calls
  import opened Text
  import opened Reconcile

  /** One outcome per call considered. */
  datatype Record = Record(written: string, outcome: Outcome)

  /** What the calls from position `i` on add to a message whose executed names are `done`. */
  function Recover(calls: seq<Call>, declared: seq<string>, done: set<string>, m: Matcher): seq<Call> {
    if calls == [] then []
    else
      var o := MatchName(calls[0].name, declared, m);
      if o.Reconciled? && o.name !in done then
        [Call(o.name, calls[0].arguments)] + Recover(calls[1..], declared, done + {o.name}, m)
      else Recover(calls[1..], declared, done, m)
  }

  function Records(calls: seq<Call>, declared: seq<string>, m: Matcher): seq<Record> {
    seq(|calls|, i requires 0 <= i < |calls| => Record(calls[i].name, MatchName(calls[i].name, declared, m)))
  }

  function Names(calls: seq<Call>): set<string> {
    set c | c in calls :: c.name
  }

  /** The calls considered for a response: the refused ones with their text blocks'
      arguments, or without any refusal the text blocks themselves. */
  function Considered(rejected: seq<Call>, textCalls: seq<Call>, m: Matcher): seq<Call> {
    if rejected != [] then Merge(rejected, textCalls, m) else textCalls
  }

  /** The assistant message of a response. */
  class Message {
    var toolCalls: seq<Call>

    constructor (toolCalls: seq<Call>)
      ensures this.toolCalls == toolCalls
    {
      this.toolCalls := toolCalls;
    }

    method ApplyReconcile(rejected: seq<Call>, textCalls: seq<Call>, declared: seq<string>, m: Matcher)
      returns (records: seq<Record>)
      modifies this
      ensures declared == [] ==> records == [] && toolCalls == old(toolCalls)
      ensures declared != [] ==>
                var calls := Considered(rejected, textCalls, m);
                && records == Records(calls, declared, m)
                && toolCalls == old(toolCalls) + Recover(calls, declared, Names(old(toolCalls)), m)
    {
      if declared == [] { return []; }
      hide Recover, Records, Names, Merge;
      var calls := textCalls;
      if rejected != [] { calls := MergeArguments(rejected, textCalls, m); }
      records := Emit(calls, declared, m);
    }

    /** Each considered call in turn: record its outcome, and re-emit it if it is new. */
    method Emit(calls: seq<Call>, declared: seq<string>, m: Matcher) returns (records: seq<Record>)
      modifies this
      ensures records == Records(calls, declared, m)
      ensures toolCalls == old(toolCalls) + Recover(calls, declared, Names(old(toolCalls)), m)
    {
      hide Recover, Records, Names, MatchName;
      var executed := Names(toolCalls);
      records := [];
      ghost var added := [];
      NothingYet(calls, declared, m);
      for i := 0 to |calls|
        invariant records == Records(calls[..i], declared, m)
        invariant toolCalls == old(toolCalls) + added
        invariant added + Recover(calls[i..], declared, executed, m)
               == Recover(calls, declared, Names(old(toolCalls)), m)
      {
        var call := calls[i];
        NextCall(calls, i, declared, executed, m);
        var outcome := MatchName(call.name, declared, m);
        records := records + [Record(call.name, outcome)];
        if outcome.Reconciled? && outcome.name !in executed {
          var entry := Call(outcome.name, call.arguments);
          toolCalls := toolCalls + [entry];
          ghost var before := added;
          added := added + [entry];
          executed := executed + {outcome.name};
          Assoc(before, [entry], Recover(calls[i + 1..], declared, executed, m));
          Assoc(old(toolCalls), before, [entry]);
        }
      }
      AllCalls(calls, declared, executed, m);
      assert added == Recover(calls, declared, Names(old(toolCalls)), m);
    }
  }

  lemma NothingYet(calls: seq<Call>, declared: seq<string>, m: Matcher)
    ensures calls[0..] == calls && Records(calls[..0], declared, m) == []
  {
  }

  lemma AllCalls(calls: seq<Call>, declared: seq<string>, done: set<string>, m: Matcher)
    ensures calls[..|calls|] == calls && Recover(calls[|calls|..], declared, done, m) == []
  {
  }

  /** One turn of the loop over the calls. */
  lemma NextCall(calls: seq<Call>, i: nat, declared: seq<string>, done: set<string>, m: Matcher)
    requires i < |calls|
    ensures var o := MatchName(calls[i].name, declared, m);
            && Records(calls[..i + 1], declared, m)
               == Records(calls[..i], declared, m) + [Record(calls[i].name, o)]
            && Recover(calls[i..], declared, done, m)
               == (if o.Reconciled? && o.name !in done then
                     [Call(o.name, calls[i].arguments)] + Recover(calls[i + 1..], declared, done + {o.name}, m)
                   else Recover(calls[i + 1..], declared, done, m))
  {
    hide MatchName;
    assert calls[i..][1..] == calls[i + 1..];
  }

  /** The first call that is re-emitted under `name`. */
  ghost predicate FirstOf(calls: seq<Call>, declared: seq<string>, m: Matcher, name: string, i: int) {
    && 0 <= i < |calls| && MatchName(calls[i].name, declared, m) == Reconciled(name)
    && forall j :: 0 <= j < i ==> MatchName(calls[j].name, declared, m) != Reconciled(name)
  }

  /** Re-emitted calls are new, and carry the arguments of the first call that means them. */
  lemma {:induction false} RecoverIsFirst(calls: seq<Call>, declared: seq<string>, done: set<string>, m: Matcher)
    ensures forall e :: e in Recover(calls, declared, done, m) ==>
              e.name !in done
              && exists i :: FirstOf(calls, declared, m, e.name, i) && e.arguments == calls[i].arguments
  {
    hide MatchName;
    if calls != [] {
      var rest, o := calls[1..], MatchName(calls[0].name, declared, m);
      var emits := o.Reconciled? && o.name !in done;
      var more := if emits then done + {o.name} else done;
      RecoverIsFirst(rest, declared, more, m);
      if emits { assert FirstOf(calls, declared, m, o.name, 0); }
      forall e | e in Recover(rest, declared, more, m)
        ensures exists i :: FirstOf(calls, declared, m, e.name, i) && e.arguments == calls[i].arguments
      {
        var i :| FirstOf(rest, declared, m, e.name, i) && e.arguments == rest[i].arguments;
        assert FirstOf(calls, declared, m, e.name, i + 1);
      }
    }
  }

  /** Every name that some call means is executed in the end. */
  lemma {:induction false} RecoverIsComplete(calls: seq<Call>, declared: seq<string>, done: set<string>,
                                             m: Matcher, i: nat)
    requires i < |calls| && MatchName(calls[i].name, declared, m).Reconciled?
    ensures MatchName(calls[i].name, declared, m).name in done + Names(Recover(calls, declared, done, m))
  {
    hide MatchName;
    var rest, o := calls[1..], MatchName(calls[0].name, declared, m);
    var emits := o.Reconciled? && o.name !in done;
    var more := if emits then done + {o.name} else done;
    if emits {
      assert Call(o.name, calls[0].arguments) in Recover(calls, declared, done, m);
    }
    if i > 0 {
      RecoverIsComplete(rest, declared, more, m, i - 1);
    }
  }

  /** Without any refusal the text blocks themselves are considered; with one, every refusal in
      turn, under the name it was refused by. */
  lemma ConsideredAre(rejected: seq<Call>, textCalls: seq<Call>, m: Matcher)
    ensures rejected == [] ==> Considered(rejected, textCalls, m) == textCalls
    ensures rejected != [] ==>
              var calls := Considered(rejected, textCalls, m);
              |calls| == |rejected| && forall i :: 0 <= i < |calls| ==> calls[i].name == rejected[i].name
  {
    hide Merge;
    MergeIsFifo(rejected, textCalls, m);
  }

  /** Re-emitted calls come in the order of the calls that mean them first. */
  lemma {:induction false} RecoverInOrder(calls: seq<Call>, declared: seq<string>, done: set<string>, m: Matcher,
                                          a: nat, b: nat) returns (i: nat, j: nat)
    requires a < b < |Recover(calls, declared, done, m)|
    ensures var out := Recover(calls, declared, done, m);
            i < j && FirstOf(calls, declared, m, out[a].name, i) && FirstOf(calls, declared, m, out[b].name, j)
  {
    hide *;
    assert Recover(calls, declared, done, m) != [];
    var rest, more, emits := FirstCall(calls, declared, done, m);
    var n := if emits then 1 else 0;
    if emits && a == 0 {
      var k := FirstMeans(rest, declared, more, m, b - n);
      FirstLater(calls, declared, done, m, b, k);
      i, j := 0, k + 1;
    } else {
      var k, l := RecoverInOrder(rest, declared, more, m, a - n, b - n);
      FirstLater(calls, declared, done, m, a, k);
      FirstLater(calls, declared, done, m, b, l);
      i, j := k + 1, l + 1;
    }
  }

  /** The first call, and the calls behind it. */
  lemma FirstCall(calls: seq<Call>, declared: seq<string>, done: set<string>, m: Matcher)
    returns (rest: seq<Call>, more: set<string>, emits: bool)
    requires Recover(calls, declared, done, m) != []
    ensures calls != [] && rest == calls[1..]
    ensures var o := MatchName(calls[0].name, declared, m);
            emits == (o.Reconciled? && o.name !in done) && more == if emits then done + {o.name} else done
    ensures var out, tail := Recover(calls, declared, done, m), Recover(rest, declared, more, m);
            if emits then |out| == 1 + |tail| && FirstOf(calls, declared, m, out[0].name, 0)
                          && forall b :: 0 < b < |out| ==> out[b] == tail[b - 1]
            else out == tail
  {
    hide MatchName;
    var o := MatchName(calls[0].name, declared, m);
    rest, emits := calls[1..], o.Reconciled? && o.name !in done;
    more := if emits then done + {o.name} else done;
  }

  lemma FirstMeans(calls: seq<Call>, declared: seq<string>, done: set<string>, m: Matcher, b: nat) returns (k: nat)
    requires b < |Recover(calls, declared, done, m)|
    ensures FirstOf(calls, declared, m, Recover(calls, declared, done, m)[b].name, k)
  {
    hide MatchName, Recover;
    RecoverIsFirst(calls, declared, done, m);
    var e := Recover(calls, declared, done, m)[b];
    assert e in Recover(calls, declared, done, m);
    var i :| FirstOf(calls, declared, m, e.name, i) && e.arguments == calls[i].arguments;
    k := i;
  }

  /** Behind a first call that means something else, or something executed. */
  lemma FirstLater(calls: seq<Call>, declared: seq<string>, done: set<string>, m: Matcher, b: nat, k: nat)
    requires b < |Recover(calls, declared, done, m)| && calls != []
    requires FirstOf(calls[1..], declared, m, Recover(calls, declared, done, m)[b].name, k)
    requires b == 0 ==> var o := MatchName(calls[0].name, declared, m); !(o.Reconciled? && o.name !in done)
    ensures FirstOf(calls, declared, m, Recover(calls, declared, done, m)[b].name, k + 1)
  {
    var name := Recover(calls, declared, done, m)[b].name;
    OtherName(calls, declared, done, m, b);
    hide MatchName, Recover;
    FirstShift(calls, declared, m, name, k);
  }

  lemma FirstShift(calls: seq<Call>, declared: seq<string>, m: Matcher, name: string, k: nat)
    requires calls != [] && MatchName(calls[0].name, declared, m) != Reconciled(name)
    requires FirstOf(calls[1..], declared, m, name, k)
    ensures FirstOf(calls, declared, m, name, k + 1)
  {
    hide MatchName;
    var rest := calls[1..];
    assert forall j :: 0 < j < |calls| ==> calls[j] == rest[j - 1];
  }

  lemma OtherName(calls: seq<Call>, declared: seq<string>, done: set<string>, m: Matcher, b: nat)
    requires b < |Recover(calls, declared, done, m)| && calls != []
    requires b == 0 ==> var o := MatchName(calls[0].name, declared, m); !(o.Reconciled? && o.name !in done)
    ensures MatchName(calls[0].name, declared, m) != Reconciled(Recover(calls, declared, done, m)[b].name)
  {
    var rest, more, emits := FirstCall(calls, declared, done, m);
    RecoverIsNew(rest, declared, more, m);
    hide MatchName, Recover;
    var out, tail := Recover(calls, declared, done, m), Recover(rest, declared, more, m);
    assert out[b] in tail by { if emits { assert out[b] == tail[b - 1]; } }
  }

  /** A call has a record, under the name it was written by. The names recorded as reconciled are
      the re-emitted ones and some that were executed before. */
  lemma RecordsAgree(calls: seq<Call>, declared: seq<string>, done: set<string>, m: Matcher)
    ensures var records, out := Records(calls, declared, m), Recover(calls, declared, done, m);
            && |records| == |calls| && (forall i :: 0 <= i < |calls| ==> records[i].written == calls[i].name)
            && (forall i :: 0 <= i < |records| && records[i].outcome.Reconciled? ==>
                  records[i].outcome.name in done + Names(out))
            && (forall e :: e in out ==> exists i :: 0 <= i < |records| && records[i].outcome == Reconciled(e.name))
  {
    hide MatchName, Recover, Names;
    var records, out := Records(calls, declared, m), Recover(calls, declared, done, m);
    forall i | 0 <= i < |records| && records[i].outcome.Reconciled?
      ensures records[i].outcome.name in done + Names(out)
    {
      RecoverIsComplete(calls, declared, done, m, i);
    }
    RecoverIsFirst(calls, declared, done, m);
    forall e | e in out
      ensures exists i :: 0 <= i < |records| && records[i].outcome == Reconciled(e.name)
    {
      var i :| FirstOf(calls, declared, m, e.name, i);
      assert records[i].outcome == Reconciled(e.name);
    }
  }

  lemma {:induction false} RecoverIsNew(calls: seq<Call>, declared: seq<string>, done: set<string>, m: Matcher)
    ensures forall e :: e in Recover(calls, declared, done, m) ==> e.name !in done
  {
    hide MatchName;
    if calls != [] {
      var o := MatchName(calls[0].name, declared, m);
      var emits := o.Reconciled? && o.name !in done;
      RecoverIsNew(calls[1..], declared, if emits then done + {o.name} else done, m);
    }
  }

  /** No name is re-emitted twice. */
  lemma {:induction false} RecoverOnce(calls: seq<Call>, declared: seq<string>, done: set<string>, m: Matcher)
    ensures Distinct(Recover(calls, declared, done, m))
  {
    hide MatchName;
    if calls != [] {
      var o := MatchName(calls[0].name, declared, m);
      var emits := o.Reconciled? && o.name !in done;
      var more := if emits then done + {o.name} else done;
      RecoverOnce(calls[1..], declared, more, m);
      RecoverIsNew(calls[1..], declared, more, m);
      if emits {
        var tail := Recover(calls[1..], declared, more, m);
        var head := Call(o.name, calls[0].arguments);
        assert forall b :: 0 <= b < |tail| ==> tail[b] in tail;
        DistinctCons(head, tail);
      }
    }
  }

  ghost predicate Distinct(calls: seq<Call>) {
    forall a, b :: 0 <= a < b < |calls| ==> calls[a].name != calls[b].name
  }

  lemma DistinctCons(head: Call, tail: seq<Call>)
    requires Distinct(tail) && forall b :: 0 <= b < |tail| ==> tail[b].name != head.name
    ensures Distinct([head] + tail)
  {
  }

  /** Every call re-emitted was declared by the client. */
  lemma {:induction false} RecoverDeclared(calls: seq<Call>, declared: seq<string>, done: set<string>, m: Matcher)
    ensures forall e :: e in Recover(calls, declared, done, m) ==> e.name in declared
  {
    var out := Recover(calls, declared, done, m);
    RecoverIsFirst(calls, declared, done, m);
    forall e | e in out ensures e.name in declared {
      var i :| FirstOf(calls, declared, m, e.name, i);
      MatchIsUnambiguous(calls[i].name, declared, m, e.name);
    }
  }
}
