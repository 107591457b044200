/** Recovery of tool calls a backend parsed but refused: naming, argument pairing, and the
    rewrite of a whole response. */
module Reconcile {
  import opened Calls
  import opened Text

  const NO_ARGUMENTS := "{}"

  /** How names are compared: a normal form, and whether two normal forms are close enough. */
  datatype Matcher = Matcher(norm: string -> string, close: (string, string) -> bool)

  datatype Outcome = Reconciled(name: string) | Ambiguous | Unmatched

  // ------------------------------------------------------------------- naming

  function Select(names: seq<string>, keep: string -> bool): (r: seq<string>) {
    if names == [] then []
    else (if keep(names[0]) then [names[0]] else []) + Select(names[1..], keep)
  }

  /** The three tests a declared name is put to, weakest last. */
  function Exact(name: string, m: Matcher): string -> bool {
    d => m.norm(d) == m.norm(name)
  }

  function Drifted(name: string, m: Matcher): string -> bool {
    d => EndsWith(m.norm(name), m.norm(d)) || EndsWith(m.norm(d), m.norm(name))
  }

  function Close(name: string, m: Matcher): string -> bool {
    d => m.close(m.norm(d), m.norm(name))
  }

  function MatchName(name: string, declared: seq<string>, m: Matcher): Outcome {
    if m.norm(name) == "" || declared == [] then Unmatched
    else
      var exact := Select(declared, Exact(name, m));
      if |exact| == 1 then Reconciled(exact[0])
      else
        var fits := Select(declared, Drifted(name, m));
        if |fits| == 1 then Reconciled(fits[0])
        else if fits != [] then Ambiguous
        else
          var good := Select(declared, Close(name, m));
          if |good| == 1 then Reconciled(good[0])
          else if good != [] then Ambiguous
          else Unmatched
  }

  lemma {:induction false} SelectMembers(names: seq<string>, keep: string -> bool)
    ensures forall d :: d in Select(names, keep) <==> d in names && keep(d)
    ensures |Select(names, keep)| <= |names|
    ensures |Select(names, keep)| == 1 ==>
              forall i, j :: 0 <= i < |names| && 0 <= j < |names| && keep(names[i]) && keep(names[j]) ==> i == j
  {
    if names != [] {
      SelectMembers(names[1..], keep);
      if keep(names[0]) && |Select(names, keep)| == 1 {
        assert Select(names[1..], keep) == [];
        assert forall i :: 0 < i < |names| ==> names[i] in names[1..];
      }
      assert forall i :: 0 < i < |names| ==> names[i] == names[1..][i - 1];
    }
  }

  /** At most one declaration passes the test. */
  ghost predicate Unique(declared: seq<string>, test: string -> bool) {
    forall i, j :: 0 <= i < j < |declared| && test(declared[i]) ==> !test(declared[j])
  }

  /** A call is re-emitted only under a declared name, and under that name only if no other
      declaration passes the weakest test it was found by: the same normal form, else one a
      suffix of the other, else close. Two declarations with the written name's own normal
      form always make it ambiguous. */
  lemma MatchIsUnambiguous(name: string, declared: seq<string>, m: Matcher, d: string)
    requires MatchName(name, declared, m) == Reconciled(d)
    ensures d in declared && Unique(declared, Exact(name, m))
    ensures Exact(name, m)(d)
         || (Drifted(name, m)(d) && Unique(declared, Drifted(name, m)))
         || (Close(name, m)(d) && Unique(declared, Close(name, m))
             && forall e :: e in declared ==> !Drifted(name, m)(e))
  {
    SelectMembers(declared, Exact(name, m));
    SelectMembers(declared, Drifted(name, m));
    SelectMembers(declared, Close(name, m));
    ExactDrifts(name, declared, m);
  }

  lemma ExactDrifts(name: string, declared: seq<string>, m: Matcher)
    ensures forall d :: Exact(name, m)(d) ==> Drifted(name, m)(d)
    ensures Unique(declared, Drifted(name, m)) ==> Unique(declared, Exact(name, m))
  {
    forall d | Exact(name, m)(d) ensures Drifted(name, m)(d) {
      assert m.norm(d)[|m.norm(d)| - |m.norm(name)|..] == m.norm(d)[0..] == m.norm(d);
    }
  }

  /** `d` passes the test, and stands among the declarations as the only one that does. */
  ghost predicate Sole(declared: seq<string>, test: string -> bool, d: string) {
    exists i :: SoleAt(declared, test, d, i)
  }

  ghost predicate SoleAt(declared: seq<string>, test: string -> bool, d: string, i: int) {
    && 0 <= i < |declared| && declared[i] == d && test(d)
    && forall j :: 0 <= j < |declared| && j != i ==> !test(declared[j])
  }

  ghost predicate Nobody(declared: seq<string>, test: string -> bool) {
    forall d :: d in declared ==> !test(d)
  }

  lemma {:induction false} SelectNobody(names: seq<string>, keep: string -> bool)
    ensures Select(names, keep) == [] <==> Nobody(names, keep)
  {
    SelectMembers(names, keep);
    if Select(names, keep) != [] { assert Select(names, keep)[0] in Select(names, keep); }
  }

  lemma {:induction false} SelectSole(names: seq<string>, keep: string -> bool, d: string)
    ensures Select(names, keep) == [d] <==> Sole(names, keep, d)
  {
    if names != [] {
      SelectSole(names[1..], keep, d);
      SelectNobody(names[1..], keep);
      SelectCons(names, keep, d);
      hide Select, Sole, Nobody;
      SoleCons(names, keep, d);
    }
  }

  lemma SelectCons(names: seq<string>, keep: string -> bool, d: string)
    requires names != []
    ensures Select(names, keep) == [d]
       <==> if keep(names[0]) then names[0] == d && Select(names[1..], keep) == [] else Select(names[1..], keep) == [d]
  {
    var tail := Select(names[1..], keep);
    if keep(names[0]) {
      assert Select(names, keep) == [names[0]] + tail;
      assert |Select(names, keep)| == 1 + |tail| && Select(names, keep)[0] == names[0];
      if tail == [] { assert [names[0]] + tail == [names[0]]; }
    } else {
      assert [] + tail == tail;
    }
  }

  lemma SoleCons(names: seq<string>, keep: string -> bool, d: string)
    requires names != []
    ensures Sole(names, keep, d)
       <==> if keep(names[0]) then names[0] == d && Nobody(names[1..], keep) else Sole(names[1..], keep, d)
  {
    var tail := names[1..];
    assert forall j :: 0 < j < |names| ==> names[j] == tail[j - 1] && tail[j - 1] in tail;
    if Sole(names, keep, d) {
      var i :| SoleAt(names, keep, d, i);
      if i > 0 {
        assert SoleAt(tail, keep, d, i - 1);
      } else {
        NobodyElse(names, keep, d);
      }
    }
    if keep(names[0]) && names[0] == d && Nobody(tail, keep) { assert SoleAt(names, keep, d, 0); }
    if !keep(names[0]) && Sole(tail, keep, d) {
      var i :| SoleAt(tail, keep, d, i);
      assert SoleAt(names, keep, d, i + 1);
    }
  }

  lemma NobodyElse(names: seq<string>, keep: string -> bool, d: string)
    requires SoleAt(names, keep, d, 0)
    ensures Nobody(names[1..], keep)
  {
    var tail := names[1..];
    forall e | e in tail ensures !keep(e) {
      var j :| 0 <= j < |tail| && tail[j] == e;
      assert names[j + 1] == e;
    }
  }

  /** The tests compare normal forms: the same, one the end of the other, close. */
  lemma TestsAre(name: string, m: Matcher, d: string)
    ensures Exact(name, m)(d) <==> m.norm(d) == m.norm(name)
    ensures Drifted(name, m)(d)
       <==> exists x: string :: m.norm(name) == x + m.norm(d) || m.norm(d) == x + m.norm(name)
    ensures Close(name, m)(d) <==> m.close(m.norm(d), m.norm(name))
  {
    EndsIff(m.norm(name), m.norm(d));
    EndsIff(m.norm(d), m.norm(name));
    hide EndsWith;
  }

  lemma EndsIff(s: string, tag: string)
    ensures EndsWith(s, tag) <==> exists x: string :: s == x + tag
  {
    if EndsWith(s, tag) { assert s == s[..|s| - |tag|] + tag; }
  }

  /** A name means a declaration exactly if that is the only one with its normal form, or there
      is no such only one and it is the only one that is a suffix of it or the reverse, or there
      is none of these at all and it is the only close one. It is unmatched exactly if it has
      no letters or digits or nothing fits even loosely. */
  lemma MatchIff(name: string, declared: seq<string>, m: Matcher, d: string)
    ensures MatchName(name, declared, m) == Reconciled(d)
       <==> m.norm(name) != ""
            && (|| Sole(declared, Exact(name, m), d)
                || ((forall e :: !Sole(declared, Exact(name, m), e)) && Sole(declared, Drifted(name, m), d))
                || (Nobody(declared, Drifted(name, m)) && Sole(declared, Close(name, m), d)))
    ensures MatchName(name, declared, m) == Unmatched
       <==> m.norm(name) == "" || (Nobody(declared, Drifted(name, m)) && Nobody(declared, Close(name, m)))
  {
    ExactDrifts(name, declared, m);
    hide Exact, Drifted, Close;
    Selected(declared, Exact(name, m));
    Selected(declared, Drifted(name, m));
    Selected(declared, Close(name, m));
    SoleExcludes(declared, Exact(name, m), Drifted(name, m));
    hide Sole, Nobody, Select;
  }

  lemma Selected(declared: seq<string>, keep: string -> bool)
    ensures Select(declared, keep) == [] <==> Nobody(declared, keep)
    ensures forall d :: Select(declared, keep) == [d] <==> Sole(declared, keep, d)
    ensures |Select(declared, keep)| == 1 ==> Select(declared, keep) == [Select(declared, keep)[0]]
    ensures declared == [] ==> Nobody(declared, keep)
  {
    SelectNobody(declared, keep);
    forall d ensures Select(declared, keep) == [d] <==> Sole(declared, keep, d) {
      SelectSole(declared, keep, d);
    }
  }

  lemma SoleExcludes(declared: seq<string>, strong: string -> bool, weak: string -> bool)
    requires forall d :: strong(d) ==> weak(d)
    ensures Nobody(declared, weak) ==> forall d :: !Sole(declared, strong, d)
  {
  }

  // ----------------------------------------------------------------- pairing

  /** Position of the first block of that normalised name, or the number of blocks. */
  function FirstNamed(blocks: seq<Call>, key: string, m: Matcher): (i: nat)
    ensures i <= |blocks|
    ensures i < |blocks| ==> m.norm(blocks[i].name) == key
    ensures forall k :: 0 <= k < i ==> m.norm(blocks[k].name) != key
  {
    if blocks == [] || m.norm(blocks[0].name) == key then 0 else 1 + FirstNamed(blocks[1..], key, m)
  }

  /** Refused calls with the arguments of their text blocks. */
  function Merge(rejected: seq<Call>, blocks: seq<Call>, m: Matcher): seq<Call> {
    if rejected == [] then []
    else
      var call := rejected[0];
      var i := FirstNamed(blocks, m.norm(call.name), m);
      if call.arguments == NO_ARGUMENTS && i < |blocks| then
        [Call(call.name, blocks[i].arguments)] + Merge(rejected[1..], blocks[..i] + blocks[i + 1..], m)
      else [call] + Merge(rejected[1..], blocks, m)
  }

  method MergeArguments(rejected: seq<Call>, textCalls: seq<Call>, m: Matcher) returns (merged: seq<Call>)
    ensures merged == Merge(rejected, textCalls, m)
  {
    var remaining := textCalls;
    merged := [];
    for j := 0 to |rejected|
      invariant merged + Merge(rejected[j..], remaining, m) == Merge(rejected, textCalls, m)
    {
      var call := rejected[j];
      assert rejected[j..][0] == call && rejected[j..][1..] == rejected[j + 1..];
      if call.arguments == NO_ARGUMENTS {
        var key := m.norm(call.name);
        var i := 0;
        while i < |remaining| && m.norm(remaining[i].name) != key
          invariant i <= |remaining|
          invariant forall k :: 0 <= k < i ==> m.norm(remaining[k].name) != key
        {
          i := i + 1;
        }
        assert i == FirstNamed(remaining, key, m);
        if i < |remaining| {
          call := Call(call.name, remaining[i].arguments);
          remaining := remaining[..i] + remaining[i + 1..];
        }
      }
      merged := merged + [call];
    }
  }

  /** The blocks of one normalised name, in order. */
  function Named(blocks: seq<Call>, key: string, m: Matcher): seq<Call> {
    if blocks == [] then []
    else (if m.norm(blocks[0].name) == key then [blocks[0]] else []) + Named(blocks[1..], key, m)
  }

  /** How many refusals of that name before position `i` take a block, if there is one. */
  function Rank(rejected: seq<Call>, key: string, i: nat, m: Matcher): nat
    requires i <= |rejected|
  {
    if i == 0 then 0
    else Rank(rejected, key, i - 1, m) + if Takes(rejected[i - 1], key, m) then 1 else 0
  }

  predicate Takes(call: Call, key: string, m: Matcher) {
    call.arguments == NO_ARGUMENTS && m.norm(call.name) == key
  }

  /** What pairing promises for the i-th refusal: if it came without arguments, those of the
      block of its name that has as many predecessors as it has. */
  function Paired(rejected: seq<Call>, blocks: seq<Call>, i: nat, m: Matcher): Call
    requires i < |rejected|
  {
    var call := rejected[i];
    var named := Named(blocks, m.norm(call.name), m);
    var k := Rank(rejected, m.norm(call.name), i, m);
    if call.arguments == NO_ARGUMENTS && k < |named| then Call(call.name, named[k].arguments) else call
  }

  lemma {:induction false} NamedAppend(a: seq<Call>, b: seq<Call>, key: string, m: Matcher)
    ensures Named(a + b, key, m) == Named(a, key, m) + Named(b, key, m)
  {
    if a == [] {
      assert a + b == b;
    } else {
      assert (a + b)[1..] == a[1..] + b;
      NamedAppend(a[1..], b, key, m);
    }
  }

  lemma {:induction false} NoneNamed(blocks: seq<Call>, key: string, m: Matcher)
    requires forall k :: 0 <= k < |blocks| ==> m.norm(blocks[k].name) != key
    ensures Named(blocks, key, m) == []
  {
    if blocks != [] { NoneNamed(blocks[1..], key, m); }
  }

  /** Deleting the first block of one name shifts that name's blocks and no others. */
  lemma DeleteFirst(blocks: seq<Call>, key: string, other: string, m: Matcher)
    requires FirstNamed(blocks, key, m) < |blocks|
    ensures var i := FirstNamed(blocks, key, m);
            var named := Named(blocks, other, m);
            && Named(blocks[..i] + blocks[i + 1..], other, m)
               == (if other == key then (if named == [] then [] else named[1..]) else named)
            && (other == key ==> named != [] && named[0] == blocks[i])
  {
    var i := FirstNamed(blocks, key, m);
    NoneNamed(blocks[..i], key, m);
    NamedAppend(blocks[..i], [blocks[i]], other, m);
    NamedAppend(blocks[..i] + [blocks[i]], blocks[i + 1..], other, m);
    NamedAppend(blocks[..i], blocks[i + 1..], other, m);
    assert blocks == blocks[..i] + [blocks[i]] + blocks[i + 1..];
    assert [blocks[i]][1..] == [];
  }

  lemma {:induction false} RankShift(rejected: seq<Call>, key: string, i: nat, m: Matcher)
    requires 0 < i <= |rejected|
    ensures Rank(rejected, key, i, m)
         == (if Takes(rejected[0], key, m) then 1 else 0) + Rank(rejected[1..], key, i - 1, m)
  {
    if i > 1 { RankShift(rejected, key, i - 1, m); }
  }

  /** Pairing is first come, first served: as many calls as refusals, each with its name, and
      each argument-less one with the arguments of the next unused block of that name. */
  lemma {:induction false} MergeIsFifo(rejected: seq<Call>, blocks: seq<Call>, m: Matcher)
    ensures var merged := Merge(rejected, blocks, m);
            |merged| == |rejected| && forall i :: 0 <= i < |merged| ==> merged[i] == Paired(rejected, blocks, i, m)
  {
    if rejected != [] {
      MergeFirst(rejected, blocks, m);
      var left := Left(rejected[0], blocks, m);
      hide *;
      MergeIsFifo(rejected[1..], left, m);
      var merged := Merge(rejected, blocks, m);
      forall n | 0 < n < |merged| ensures merged[n] == Paired(rejected, blocks, n, m) {
        PairedShift(rejected, blocks, n, m);
      }
    }
  }

  /** The blocks a refusal leaves. */
  function Left(call: Call, blocks: seq<Call>, m: Matcher): seq<Call> {
    var i := FirstNamed(blocks, m.norm(call.name), m);
    if call.arguments == NO_ARGUMENTS && i < |blocks| then blocks[..i] + blocks[i + 1..] else blocks
  }

  lemma MergeFirst(rejected: seq<Call>, blocks: seq<Call>, m: Matcher)
    requires rejected != []
    ensures Merge(rejected, blocks, m)
         == [Paired(rejected, blocks, 0, m)] + Merge(rejected[1..], Left(rejected[0], blocks, m), m)
  {
    var call := rejected[0];
    var key := m.norm(call.name);
    if FirstNamed(blocks, key, m) < |blocks| {
      DeleteFirst(blocks, key, key, m);
    } else {
      NoneNamed(blocks, key, m);
    }
    hide Named, FirstNamed;
  }

  /** What the first refusal leaves for the n-th. */
  lemma PairedShift(rejected: seq<Call>, blocks: seq<Call>, n: nat, m: Matcher)
    requires 0 < n < |rejected|
    ensures Paired(rejected, blocks, n, m) == Paired(rejected[1..], Left(rejected[0], blocks, m), n - 1, m)
  {
    var other := m.norm(rejected[n].name);
    assert rejected[1..][n - 1] == rejected[n];
    RankShift(rejected, other, n, m);
    NamedShift(rejected[0], blocks, other, m);
    hide Named, Rank, Takes, Left;
    var named, left := Named(blocks, other, m), Named(Left(rejected[0], blocks, m), other, m);
    assert Takes(rejected[0], other, m) && named != [] ==>
        forall k :: 0 <= k < |left| ==> left[k] == named[k + 1];
  }

  /** A refusal takes the first block of its own name, and none of another name. */
  lemma NamedShift(call: Call, blocks: seq<Call>, other: string, m: Matcher)
    ensures var named := Named(blocks, other, m);
            Named(Left(call, blocks, m), other, m)
            == if Takes(call, other, m) && named != [] then named[1..] else named
  {
    var key := m.norm(call.name);
    if FirstNamed(blocks, key, m) < |blocks| {
      DeleteFirst(blocks, key, other, m);
    } else {
      NoneNamed(blocks, key, m);
    }
    hide Named, FirstNamed;
  }

  /** No block is used twice: of two refusals that take a block of the same name, the later
      takes a later one. */
  lemma {:induction false} NoBlockTwice(rejected: seq<Call>, i: nat, j: nat, m: Matcher)
    requires i < j < |rejected| && Takes(rejected[i], m.norm(rejected[j].name), m)
    ensures var key := m.norm(rejected[j].name); Rank(rejected, key, i, m) < Rank(rejected, key, j, m)
    decreases j
  {
    RankGrows(rejected, m.norm(rejected[j].name), i + 1, j, m);
  }

  lemma {:induction false} RankGrows(rejected: seq<Call>, key: string, i: nat, j: nat, m: Matcher)
    requires i <= j <= |rejected|
    ensures Rank(rejected, key, i, m) <= Rank(rejected, key, j, m)
    decreases j
  {
    if i < j { RankGrows(rejected, key, i, j - 1, m); }
  }
}
