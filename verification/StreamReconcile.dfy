/** Recovery of refused calls on a stream: lines pass through, except the ones that end the
    stream, which wait for the synthesized event. The class keeps two ghost histories, the
    bytes it was fed and the bytes it let through, and its invariant says that the second,
    like everything it stores, is a function of the first alone: how the stream was cut into
    chunks cannot matter. */
module StreamReconcile {
  import opened Calls
  import opened Text
  import opened Reconcile
  import opened ReconcileResponse

  /** What follows `data: ` on a line. */
  datatype Payload =
    | DoneMark
    | NotAnObject
    | Event(text: string, indices: seq<int>, final: bool, rejected: seq<Call>)

  /** A synthesized call and its index. */
  datatype Indexed = Indexed(index: nat, call: Call)

  /** The parts of the reconciler that are not line handling: JSON decoding, the text blocks
      in an answer, printing of the synthesized event after the last event seen, naming. */
  datatype Parts = Parts(
    decode: string -> Payload,
    blocks: string -> seq<Call>,
    render: (seq<Indexed>, Option<string>) -> string,
    declared: seq<string>,
    matcher: Matcher)

  // ------------------------------------------------------ what one line means

  function Decoded(line: string, p: Parts): Option<Payload> {
    if StartsWith(line, DATA) then Some(p.decode(line[|DATA|..])) else None
  }

  function EventOf(line: string, p: Parts): Option<Payload> {
    var d := Decoded(line, p);
    if d.Some? && d.value.Event? then d else None
  }

  function IndicesOf(line: string, p: Parts): seq<int> {
    var d := Decoded(line, p);
    if d.Some? && d.value.Event? then d.value.indices else []
  }

  /** The lines held back to the end: the end mark and the events that finish or refuse. */
  predicate Held(line: string, p: Parts) {
    var d := Decoded(line, p);
    d.Some? && (d.value.DoneMark? || (d.value.Event? && (d.value.final || d.value.rejected != [])))
  }

  /** One more than the index of a streamed call; a missing or negative one counts as 0. */
  function NextAfter(indices: seq<int>, next: nat): nat {
    if indices == [] then next
    else
      var idx := if indices[0] < 0 then 0 else indices[0];
      NextAfter(indices[1..], if next < idx + 1 then idx + 1 else next)
  }

  // ------------------------------------------------ what a list of lines means

  function Passed(lines: seq<string>, p: Parts): seq<string> {
    if lines == [] then []
    else
      var n := |lines| - 1;
      Passed(lines[..n], p) + if Held(lines[n], p) then [] else [lines[n]]
  }

  function Waiting(lines: seq<string>, p: Parts): seq<string> {
    if lines == [] then []
    else
      var n := |lines| - 1;
      Waiting(lines[..n], p) + if Held(lines[n], p) then [lines[n]] else []
  }

  function AnswerText(lines: seq<string>, p: Parts): string {
    if lines == [] then ""
    else
      var n := |lines| - 1;
      var e := EventOf(lines[n], p);
      AnswerText(lines[..n], p) + if e.Some? then e.value.text else ""
  }

  function NextIndex(lines: seq<string>, p: Parts): nat {
    if lines == [] then 0
    else
      var n := |lines| - 1;
      NextAfter(IndicesOf(lines[n], p), NextIndex(lines[..n], p))
  }

  function LastEvent(lines: seq<string>, p: Parts): Option<string> {
    if lines == [] then None
    else
      var n := |lines| - 1;
      if EventOf(lines[n], p).Some? then Some(lines[n]) else LastEvent(lines[..n], p)
  }

  function RejectedIn(lines: seq<string>, p: Parts): seq<Call> {
    if lines == [] then []
    else
      var n := |lines| - 1;
      var e := EventOf(lines[n], p);
      RejectedIn(lines[..n], p) + if e.Some? then e.value.rejected else []
  }

  /** The calls that get an index, from `next` on. A stream has no list of executed names, so
      unlike a whole response it does not leave those out. */
  function Synthesized(calls: seq<Call>, next: nat, p: Parts): seq<Indexed> {
    if calls == [] then []
    else
      var n := |calls| - 1;
      var before := Synthesized(calls[..n], next, p);
      var o := MatchName(calls[n].name, p.declared, p.matcher);
      before + if o.Reconciled? then [Indexed(next + |before|, Call(o.name, calls[n].arguments))] else []
  }

  function CallsOf(lines: seq<string>, p: Parts): seq<Call> {
    var text := AnswerText(lines, p);
    Considered(RejectedIn(Waiting(lines, p), p), if text == "" then [] else p.blocks(text), p.matcher)
  }

  /** The event that is put between the passed and the held lines, if any call is recovered. */
  function Inserted(lines: seq<string>, p: Parts): string {
    var calls := Synthesized(CallsOf(lines, p), NextIndex(lines, p), p);
    if calls == [] then "" else p.render(calls, LastEvent(lines, p))
  }

  /** The lines of a finished stream; an unterminated last line counts. */
  function AllLines(seen: string): seq<string> {
    var r := SplitOn(seen, NEWLINE);
    if r.rest == "" then r.pieces else r.pieces + [r.rest]
  }

  /** The whole output for the whole input: passed lines, at most one event, held lines. */
  function Rewritten(seen: string, p: Parts): string {
    var lines := AllLines(seen);
    Closed(Passed(lines, p), NEWLINE) + Inserted(lines, p) + Closed(Waiting(lines, p), NEWLINE)
  }

  // ------------------------------------------------------------------ the class

  class StreamReconciler {
    const p: Parts
    var residual: string
    var text: string
    var tail: seq<string>
    var template: Option<string>
    var nextIndex: nat
    var records: seq<Record>
    ghost var seen: string
    ghost var emitted: string

    /** Everything stored stems from the given lines. */
    ghost predicate Stores(lines: seq<string>)
      reads this
    {
      && text == AnswerText(lines, p) && tail == Waiting(lines, p)
      && template == LastEvent(lines, p) && nextIndex == NextIndex(lines, p)
    }

    ghost predicate Valid()
      reads this
    {
      var r := SplitOn(seen, NEWLINE);
      residual == r.rest && Stores(r.pieces) && emitted == Closed(Passed(r.pieces, p), NEWLINE)
    }

    constructor (p: Parts)
      ensures Valid() && this.p == p && seen == "" && emitted == "" && records == []
    {
      this.p := p;
      residual, text, tail, template, nextIndex, records := "", "", [], None, 0, [];
      seen, emitted := "", "";
    }

    method Route(line: string, ghost lines: seq<string>) returns (out: string)
      requires Stores(lines)
      modifies this`text, this`tail, this`template, this`nextIndex
      ensures Stores(lines + [line])
      ensures Closed(Passed(lines + [line], p), NEWLINE) == Closed(Passed(lines, p), NEWLINE) + out
    {
      LineAdds(lines, line, p);
      assert StartsWith(line, DATA) ==> |DATA| <= |line| && Decoded(line, p) == Some(p.decode(line[|DATA|..]));
      assert !StartsWith(line, DATA) ==> Decoded(line, p) == None;
      hide StartsWith, Closed, Passed, Waiting, AnswerText, LastEvent, NextIndex, NextAfter, Decoded;
      if !StartsWith(line, DATA) { return line + NEWLINE; }
      var payload := p.decode(line[|DATA|..]);
      if payload.DoneMark? {
        tail := tail + [line];
        return "";
      }
      if payload.NotAnObject? { return line + NEWLINE; }
      template := Some(line);
      nextIndex := PastIndices(payload.indices, nextIndex);
      text := text + payload.text;
      if payload.final || payload.rejected != [] {
        tail := tail + [line];
        out := "";
      } else {
        out := line + NEWLINE;
      }
    }

    static method PastIndices(indices: seq<int>, start: nat) returns (next: nat)
      ensures next == NextAfter(indices, start)
    {
      next := start;
      for i := 0 to |indices|
        invariant NextAfter(indices[i..], next) == NextAfter(indices, start)
      {
        var idx: nat := if indices[i] < 0 then 0 else indices[i];
        assert indices[i..][1..] == indices[i + 1..];
        if next < idx + 1 { next := idx + 1; }
      }
    }

    method Feed(chunk: string) returns (out: string)
      requires Valid()
      modifies this
      ensures Valid() && seen == old(seen) + chunk && emitted == old(emitted) + out
      ensures records == old(records)
    {
      hide Passed, Closed, Waiting, AnswerText, LastEvent, NextIndex, SplitOn;
      SplitAppend(seen, chunk, NEWLINE);
      ghost var before := SplitOn(seen, NEWLINE).pieces;
      var r := SplitOn(residual + chunk, NEWLINE);
      residual := r.rest;
      out := "";
      assert before + r.pieces[..0] == before;
      assert emitted + "" == emitted;
      for i := 0 to |r.pieces|
        invariant Stores(before + r.pieces[..i]) && residual == r.rest
        invariant emitted + out == Closed(Passed(before + r.pieces[..i], p), NEWLINE)
        invariant seen == old(seen) && emitted == old(emitted) && records == old(records)
      {
        ghost var lines := before + r.pieces[..i];
        assert before + r.pieces[..i + 1] == lines + [r.pieces[i]];
        var piece := Route(r.pieces[i], lines);
        Assoc(emitted, out, piece);
        out := out + piece;
      }
      assert r.pieces[..|r.pieces|] == r.pieces;
      seen := seen + chunk;
      emitted := emitted + out;
    }

    /** The records of a finished stream. */
    ghost predicate Recorded(lines: seq<string>)
      reads this
    {
      records == Records(CallsOf(lines, p), p.declared, p.matcher)
    }

    method Finish() returns (out: string)
      requires Valid() && records == []
      modifies this
      ensures old(emitted) + out == Rewritten(seen, p) && Recovers(seen, old(emitted) + out, p)
      ensures seen == old(seen)
      ensures Recorded(AllLines(seen))
    {
      hide Passed, Closed, Waiting, AnswerText, LastEvent, NextIndex, SplitOn, RejectedIn, Synthesized, MatchName,
        Recovers;
      ghost var lines := AllLines(seen);
      out := "";
      if residual != "" {
        out := Route(residual, SplitOn(seen, NEWLINE).pieces);
        residual := "";
      }
      assert Stores(lines);
      assert old(emitted) + out == Closed(Passed(lines, p), NEWLINE);
      var calls := RejectedIn(tail, p);
      var textCalls := if text == "" then [] else p.blocks(text);
      if calls != [] { calls := MergeArguments(calls, textCalls, p.matcher); } else { calls := textCalls; }
      assert calls == CallsOf(lines, p);
      var delta := Number(calls);
      var event := if delta == [] then "" else p.render(delta, template);
      ghost var passed := out;
      out := out + event + Closed(tail, NEWLINE);
      tail := [];
      Assoc(passed, event, Closed(Waiting(lines, p), NEWLINE));
      Assoc(old(emitted), passed, event + Closed(Waiting(lines, p), NEWLINE));
      Assoc(Closed(Passed(lines, p), NEWLINE), event, Closed(Waiting(lines, p), NEWLINE));
      EventInFront(seen, p);
    }

    /** Number the recovered calls and record every outcome. */
    method Number(calls: seq<Call>) returns (delta: seq<Indexed>)
      requires records == []
      modifies this`records
      ensures delta == Synthesized(calls, nextIndex, p)
      ensures records == Records(calls, p.declared, p.matcher)
    {
      hide MatchName;
      delta := [];
      for i := 0 to |calls|
        invariant delta == Synthesized(calls[..i], nextIndex, p)
        invariant records == Records(calls[..i], p.declared, p.matcher)
      {
        assert calls[..i + 1] == calls[..i] + [calls[i]];
        assert calls[..i + 1][..i] == calls[..i];
        var outcome := MatchName(calls[i].name, p.declared, p.matcher);
        records := records + [Record(calls[i].name, outcome)];
        if outcome.Reconciled? {
          delta := delta + [Indexed(nextIndex + |delta|, Call(outcome.name, calls[i].arguments))];
        }
      }
      assert calls[..|calls|] == calls;
    }

    /** A whole stream, however it is cut into chunks. */
    static method Relay(p: Parts, chunks: seq<string>) returns (out: string, records: seq<Record>)
      ensures out == Rewritten(Concat(chunks), p) && Recovers(Concat(chunks), out, p)
      ensures records == Records(CallsOf(AllLines(Concat(chunks)), p), p.declared, p.matcher)
    {
      hide Rewritten, AllLines, Recovers;
      var r := new StreamReconciler(p);
      out := "";
      for i := 0 to |chunks|
        invariant r.Valid() && r.p == p && r.records == [] && fresh(r)
        invariant r.seen == Concat(chunks[..i]) && r.emitted == out
      {
        assert chunks[..i + 1][..i] == chunks[..i];
        var piece := r.Feed(chunks[i]);
        out := out + piece;
      }
      assert chunks[..|chunks|] == chunks;
      var last := r.Finish();
      out := out + last;
      records := r.records;
    }
  }

  /** What one more line adds to each of the things stored, and to what has passed. */
  lemma LineAdds(lines: seq<string>, line: string, p: Parts)
    ensures var more, d := lines + [line], Decoded(line, p);
            var past := Closed(Passed(lines, p), NEWLINE);
            var isEvent := d.Some? && d.value.Event?;
            var held := d.Some? && (d.value.DoneMark? || (isEvent && (d.value.final || d.value.rejected != [])));
            && Waiting(more, p) == (if held then Waiting(lines, p) + [line] else Waiting(lines, p))
            && Closed(Passed(more, p), NEWLINE) == (if held then past + "" else past + (line + NEWLINE))
            && AnswerText(more, p)
               == (if isEvent then AnswerText(lines, p) + d.value.text else AnswerText(lines, p))
            && LastEvent(more, p) == (if isEvent then Some(line) else LastEvent(lines, p))
            && NextIndex(more, p)
               == (if isEvent then NextAfter(d.value.indices, NextIndex(lines, p)) else NextIndex(lines, p))
  {
    assert (lines + [line])[..|lines|] == lines;
    PassedOne(lines, line, p);
    hide Decoded, Passed, Closed;
    assert Waiting(lines, p) + [] == Waiting(lines, p);
    assert AnswerText(lines, p) + "" == AnswerText(lines, p);
    var past := Closed(Passed(lines, p), NEWLINE);
    assert past + "" == past;
  }

  lemma PassedOne(lines: seq<string>, line: string, p: Parts)
    ensures Closed(Passed(lines + [line], p), NEWLINE)
         == Closed(Passed(lines, p), NEWLINE) + (if Held(line, p) then "" else line + NEWLINE)
  {
    assert (lines + [line])[..|lines|] == lines;
    hide Held;
    if Held(line, p) {
      assert Passed(lines, p) + [] == Passed(lines, p);
    } else {
      ClosedAppend(Passed(lines, p), [line], NEWLINE);
      assert [line][1..] == [] && Closed([line], NEWLINE) == line + NEWLINE + "" == line + NEWLINE;
    }
  }

  // ----------------------------------------------------------------- theorems

  /** `part` is what remains of `all` in order when some lines are taken out. */
  ghost predicate Subsequence(part: seq<string>, all: seq<string>)
    decreases |all|
  {
    if all == [] then part == []
    else
      var n := |all| - 1;
      || Subsequence(part, all[..n])
      || (part != [] && part[|part| - 1] == all[n] && Subsequence(part[..|part| - 1], all[..n]))
  }

  /** A data line that ends the stream, finishes a choice or tells of refused calls. */
  predicate Ends(line: string, p: Parts) {
    StartsWith(line, DATA) &&
    match p.decode(line[|DATA|..])
    case DoneMark => true
    case NotAnObject => false
    case Event(_, _, final, rejected) => final || rejected != []
  }

  /** `out` is the lines of a stream, each with its newline, in two groups: the lines that end
      nothing, then those that do, each group in its order; and between the two stands one event
      with the recovered calls, if there are any. So the event stands in front of the end mark
      and of the finish reason. */
  ghost predicate Recovers(seen: string, out: string, p: Parts) {
    var lines := AllLines(seen);
    exists passed: seq<string>, held: seq<string>, calls: seq<Indexed> ::
      && Subsequence(passed, lines) && Subsequence(held, lines)
      && multiset(passed) + multiset(held) == multiset(lines)
      && (forall l :: l in passed ==> !Ends(l, p)) && (forall l :: l in held ==> Ends(l, p))
      && Bare(calls) == Meant(CallsOf(lines, p), p)
      && out == Closed(passed, NEWLINE) + (if calls == [] then "" else p.render(calls, LastEvent(lines, p)))
                + Closed(held, NEWLINE)
  }

  lemma HeldEnds(p: Parts)
    ensures forall l :: Held(l, p) <==> Ends(l, p)
  {
  }

  lemma EventInFront(seen: string, p: Parts)
    ensures Recovers(seen, Rewritten(seen, p), p)
  {
    var lines := AllLines(seen);
    HeldEnds(p);
    hide Held, Ends, Subsequence, Passed, Waiting, AllLines, CallsOf, Synthesized, LastEvent, NextIndex, Meant, Closed;
    LinesConserved(lines, p);
    LinesInOrder(lines, p);
    SynthesizedAreMeant(CallsOf(lines, p), NextIndex(lines, p), p);
  }

  /** The lines of a stream are its text, cut at every newline and nowhere else. */
  lemma AllLinesAre(seen: string)
    ensures var lines := AllLines(seen);
            && (forall l :: l in lines ==> Find(l, NEWLINE) == -1)
            && Closed(lines, NEWLINE) == if seen == "" || seen[|seen| - 1] == '\n' then seen else seen + NEWLINE
  {
    var r := SplitOn(seen, NEWLINE);
    SplitKeepsAll(seen, NEWLINE);
    SplitPieces(seen, NEWLINE);
    ClosedEnds(r.pieces, NEWLINE);
    ClosedAppend(r.pieces, [r.rest], NEWLINE);
    NoBreak(r.rest);
    hide Closed, SplitOn, Find;
    OneClosed(r.rest);
    Assoc(Closed(r.pieces, NEWLINE), r.rest, NEWLINE);
    if r.rest == "" { assert Closed(r.pieces, NEWLINE) + "" == Closed(r.pieces, NEWLINE); }
  }

  lemma NoBreak(s: string)
    requires Find(s, NEWLINE) == -1
    ensures s != "" ==> s[|s| - 1] != '\n'
  {
    hide FindFrom;
    if s != "" {
      assert !At(s, NEWLINE, |s| - 1);
      assert s[|s| - 1..] == [s[|s| - 1]];
    }
  }

  lemma OneClosed(line: string)
    ensures Closed([line], NEWLINE) == line + NEWLINE
  {
    assert [line][1..] == [];
  }

  /** Every refusal is found: a line that tells of one is held. */
  lemma {:induction false} NoRefusalMissed(lines: seq<string>, p: Parts)
    ensures RejectedIn(Waiting(lines, p), p) == RejectedIn(lines, p)
  {
    if lines != [] {
      var n := |lines| - 1;
      NoRefusalMissed(lines[..n], p);
      OneWaiting(lines[..n], lines[n], p);
      assert lines == lines[..n] + [lines[n]];
    }
  }

  lemma OneWaiting(lines: seq<string>, line: string, p: Parts)
    ensures RejectedIn(lines + [line], p) == RejectedIn(lines, p) + RefusedOn(line, p)
    ensures var w, more := Waiting(lines, p), Waiting(lines + [line], p);
            RejectedIn(more, p) == RejectedIn(w, p) + RefusedOn(line, p)
  {
    assert (lines + [line])[..|lines|] == lines;
    var w := Waiting(lines, p);
    assert (w + [line])[..|w|] == w && w + [] == w;
    assert RejectedIn(w, p) + [] == RejectedIn(w, p);
    hide Decoded;
  }

  function RefusedOn(line: string, p: Parts): seq<Call> {
    var e := EventOf(line, p);
    if e.Some? then e.value.rejected else []
  }

  /** The calls considered on a stream: all that were refused on any line, with the arguments of
      the blocks in the text; without a refusal the blocks themselves. */
  lemma CallsAre(lines: seq<string>, p: Parts)
    ensures var text, refused, calls := AnswerText(lines, p), RejectedIn(lines, p), CallsOf(lines, p);
            && (refused == [] && text == "" ==> calls == [])
            && (refused == [] && text != "" ==> calls == p.blocks(text))
            && (refused != [] && text != "" ==> calls == Merge(refused, p.blocks(text), p.matcher))
            && (refused != [] ==> |calls| == |refused|
                                  && forall i :: 0 <= i < |calls| ==> calls[i].name == refused[i].name)
  {
    NoRefusalMissed(lines, p);
    hide Merge, AnswerText, RejectedIn, Waiting;
    var text := AnswerText(lines, p);
    ConsideredAre(RejectedIn(lines, p), if text == "" then [] else p.blocks(text), p.matcher);
  }

  /** What the stream says is what its lines say, in order: the text of all events, all calls
      refused, and the last event of all. */
  lemma {:induction false} LinesSay(a: seq<string>, b: seq<string>, p: Parts)
    ensures AnswerText(a + b, p) == AnswerText(a, p) + AnswerText(b, p)
    ensures RejectedIn(a + b, p) == RejectedIn(a, p) + RejectedIn(b, p)
    ensures LastEvent(a + b, p) == if LastEvent(b, p).Some? then LastEvent(b, p) else LastEvent(a, p)
    decreases |b|
  {
    if b == [] {
      assert a + b == a && AnswerText(a, p) + "" == AnswerText(a, p) && RejectedIn(a, p) + [] == RejectedIn(a, p);
    } else {
      var n := |b| - 1;
      LinesSay(a, b[..n], p);
      assert (a + b)[..|a + b| - 1] == a + b[..n] && (a + b)[|a + b| - 1] == b[n];
      hide EventOf;
      var e := EventOf(b[n], p);
      Assoc(AnswerText(a, p), AnswerText(b[..n], p), if e.Some? then e.value.text else "");
      Assoc(RejectedIn(a, p), RejectedIn(b[..n], p), if e.Some? then e.value.rejected else []);
    }
  }

  lemma LineSays(line: string, p: Parts)
    ensures var d := if StartsWith(line, DATA) then p.decode(line[|DATA|..]) else NotAnObject;
            && AnswerText([line], p) == (if d.Event? then d.text else "")
            && RejectedIn([line], p) == (if d.Event? then d.rejected else [])
            && LastEvent([line], p) == (if d.Event? then Some(line) else None)
  {
    assert [line][..0] == [];
  }

  lemma SubsequenceMore(part: seq<string>, all: seq<string>, last: string)
    requires Subsequence(part, all)
    ensures Subsequence(part, all + [last]) && Subsequence(part + [last], all + [last])
  {
    assert (all + [last])[..|all|] == all && (part + [last])[..|part|] == part;
  }

  /** Every input line comes out exactly once: passed through or held to the end. */
  lemma {:induction false} LinesConserved(lines: seq<string>, p: Parts)
    ensures multiset(Passed(lines, p)) + multiset(Waiting(lines, p)) == multiset(lines)
    ensures forall l :: l in Passed(lines, p) ==> !Held(l, p)
    ensures forall l :: l in Waiting(lines, p) ==> Held(l, p)
  {
    hide Held;
    if lines != [] {
      var n := |lines| - 1;
      LinesConserved(lines[..n], p);
      assert lines == lines[..n] + [lines[n]];
    }
  }

  /** And in their original order within each group. */
  lemma {:induction false} LinesInOrder(lines: seq<string>, p: Parts)
    ensures Subsequence(Passed(lines, p), lines) && Subsequence(Waiting(lines, p), lines)
  {
    hide Held, Subsequence;
    if lines == [] {
      NothingIn();
    } else {
      var n := |lines| - 1;
      LinesInOrder(lines[..n], p);
      assert lines == lines[..n] + [lines[n]];
      SubsequenceMore(Passed(lines[..n], p), lines[..n], lines[n]);
      SubsequenceMore(Waiting(lines[..n], p), lines[..n], lines[n]);
      if Held(lines[n], p) {
        assert Passed(lines, p) == Passed(lines[..n], p);
      } else {
        assert Waiting(lines, p) == Waiting(lines[..n], p);
      }
    }
  }

  lemma NothingIn()
    ensures Subsequence([], [])
  {
  }

  lemma {:induction false} NextAfterBounds(indices: seq<int>, next: nat)
    ensures next <= NextAfter(indices, next)
    ensures forall i :: i in indices ==> i < NextAfter(indices, next)
  {
    if indices != [] {
      var idx := if indices[0] < 0 then 0 else indices[0];
      NextAfterBounds(indices[1..], if next < idx + 1 then idx + 1 else next);
      assert forall i :: i in indices ==> i == indices[0] || i in indices[1..];
    }
  }

  /** The first free index is above every index the backend streamed, wherever it did. */
  lemma {:induction false} NextIndexAbove(lines: seq<string>, p: Parts, n: nat, i: int)
    requires n < |lines| && i in IndicesOf(lines[n], p)
    ensures i < NextIndex(lines, p)
    decreases |lines|
  {
    hide IndicesOf, NextAfter;
    var last := |lines| - 1;
    NextAfterBounds(IndicesOf(lines[last], p), NextIndex(lines[..last], p));
    if n < last { NextIndexAbove(lines[..last], p, n, i); }
  }

  /** Synthesized indices count up from the first free one, so they collide neither with each
      other nor with any index the backend streamed. */
  lemma {:induction false} IndicesConsecutive(calls: seq<Call>, next: nat, p: Parts, k: nat)
    requires k < |Synthesized(calls, next, p)|
    ensures Synthesized(calls, next, p)[k].index == next + k
  {
    hide MatchName;
    var n := |calls| - 1;
    if k < |Synthesized(calls[..n], next, p)| { IndicesConsecutive(calls[..n], next, p, k); }
  }

  /** Every synthesized call was declared by the client. */
  lemma {:induction false} SynthesizedDeclared(calls: seq<Call>, next: nat, p: Parts)
    ensures forall e :: e in Synthesized(calls, next, p) ==> e.call.name in p.declared
  {
    if calls != [] {
      var n := |calls| - 1;
      SynthesizedDeclared(calls[..n], next, p);
      var o := MatchName(calls[n].name, p.declared, p.matcher);
      assert o.Reconciled? ==> o.name in p.declared by {
        if o.Reconciled? { MatchIsUnambiguous(calls[n].name, p.declared, p.matcher, o.name); }
      }
      hide MatchName;
    }
  }

  /** All calls that mean a declared name, under that name. */
  function Meant(calls: seq<Call>, p: Parts): seq<Call> {
    if calls == [] then []
    else
      var o := MatchName(calls[0].name, p.declared, p.matcher);
      (if o.Reconciled? then [Call(o.name, calls[0].arguments)] else []) + Meant(calls[1..], p)
  }

  function Bare(calls: seq<Indexed>): seq<Call> {
    seq(|calls|, i requires 0 <= i < |calls| => calls[i].call)
  }

  lemma {:induction false} MeantAppend(calls: seq<Call>, last: Call, p: Parts)
    ensures var o := MatchName(last.name, p.declared, p.matcher);
            Meant(calls + [last], p)
            == Meant(calls, p) + if o.Reconciled? then [Call(o.name, last.arguments)] else []
  {
    hide MatchName;
    if calls == [] {
      assert [] + [last] == [last] && [last][1..] == [];
    } else {
      assert (calls + [last])[1..] == calls[1..] + [last];
      MeantAppend(calls[1..], last, p);
    }
  }

  lemma {:induction false} SynthesizedAreMeant(calls: seq<Call>, next: nat, p: Parts)
    ensures Bare(Synthesized(calls, next, p)) == Meant(calls, p)
  {
    hide MatchName;
    if calls != [] {
      var n := |calls| - 1;
      SynthesizedAreMeant(calls[..n], next, p);
      MeantAppend(calls[..n], calls[n], p);
      assert calls == calls[..n] + [calls[n]];
    }
  }

  lemma {:induction false} FewerRecovered(calls: seq<Call>, done: set<string>, p: Parts)
    ensures |Recover(calls, p.declared, done, p.matcher)| <= |Meant(calls, p)|
  {
    hide MatchName;
    if calls != [] {
      var o := MatchName(calls[0].name, p.declared, p.matcher);
      FewerRecovered(calls[1..], if o.Reconciled? && o.name !in done then done + {o.name} else done, p);
    }
  }

  /** No call means a name that was executed or that another call means. */
  ghost predicate AllNew(calls: seq<Call>, done: set<string>) {
    Distinct(calls) && forall c :: c in calls ==> c.name !in done
  }

  lemma AllNewCons(head: Call, tail: seq<Call>, done: set<string>)
    ensures AllNew([head] + tail, done) <==> head.name !in done && AllNew(tail, done + {head.name})
  {
    if AllNew([head] + tail, done) {
      TailNew(head, tail, done);
    }
    if head.name !in done && AllNew(tail, done + {head.name}) {
      assert forall c :: c in tail ==> c.name !in done + {head.name};
      assert forall b :: 0 <= b < |tail| ==> tail[b] in tail;
      DistinctCons(head, tail);
    }
  }

  lemma TailNew(head: Call, tail: seq<Call>, done: set<string>)
    requires AllNew([head] + tail, done)
    ensures head.name !in done && AllNew(tail, done + {head.name})
  {
    var all := [head] + tail;
    assert all[0] in all;
    forall i | 0 <= i < |tail| ensures tail[i].name !in done + {head.name} {
      assert all[i + 1] == tail[i] && all[i + 1] in all;
    }
    forall a, b | 0 <= a < b < |tail| ensures tail[a].name != tail[b].name {
      assert all[a + 1] == tail[a] && all[b + 1] == tail[b];
    }
  }

  lemma {:induction false} MeantOrRecovered(calls: seq<Call>, done: set<string>, p: Parts)
    ensures Meant(calls, p) == Recover(calls, p.declared, done, p.matcher) <==> AllNew(Meant(calls, p), done)
  {
    hide MatchName;
    if calls != [] {
      var o := MatchName(calls[0].name, p.declared, p.matcher);
      var tail := Meant(calls[1..], p);
      if o.Reconciled? {
        var head := Call(o.name, calls[0].arguments);
        AllNewCons(head, tail, done);
        FewerRecovered(calls[1..], done, p);
        MeantOrRecovered(calls[1..], done + {o.name}, p);
        hide AllNew;
        if o.name !in done {
          SameCons(head, tail, Recover(calls[1..], p.declared, done + {o.name}, p.matcher));
        }
      } else {
        MeantOrRecovered(calls[1..], done, p);
        assert [] + tail == tail;
      }
    }
  }

  lemma SameCons(head: Call, a: seq<Call>, b: seq<Call>)
    ensures [head] + a == [head] + b <==> a == b
  {
    assert ([head] + a)[1..] == a && ([head] + b)[1..] == b;
  }

  /** A stream synthesizes what a whole response that has executed `done` is given, exactly when
      no two of the calls considered mean one name and none means an executed one. */
  lemma SynthesizedIff(calls: seq<Call>, next: nat, done: set<string>, p: Parts)
    ensures Bare(Synthesized(calls, next, p)) == Recover(calls, p.declared, done, p.matcher)
       <==> AllNew(Meant(calls, p), done)
  {
    hide *;
    SynthesizedAreMeant(calls, next, p);
    MeantOrRecovered(calls, done, p);
  }

  lemma NoCollision(seen: string, p: Parts, n: nat, i: int, k: nat)
    requires n < |AllLines(seen)|
    requires i in IndicesOf(AllLines(seen)[n], p)
    requires k < |Synthesized(CallsOf(AllLines(seen), p), NextIndex(AllLines(seen), p), p)|
    ensures i < Synthesized(CallsOf(AllLines(seen), p), NextIndex(AllLines(seen), p), p)[k].index
  {
    hide IndicesOf, Synthesized, CallsOf, AllLines;
    NextIndexAbove(AllLines(seen), p, n, i);
    IndicesConsecutive(CallsOf(AllLines(seen), p), NextIndex(AllLines(seen), p), p, k);
  }
}
