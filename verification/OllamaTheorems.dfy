/** What a client of the Ollama adapter can rely on, however the stream was cut. */
module OllamaTheorems {
  import opened Text
  import opened Ollama

  // -------------------------------------------------- carriage returns removed

  /** No carriage return in front of a CRLF. */
  predicate Clean(s: string) {
    forall i :: 0 <= i < |s| - 2 ==> !(s[i] == '\r' && s[i + 1] == '\r' && s[i + 2] == '\n')
  }

  predicate NoPair(s: string) {
    forall i :: 0 <= i < |s| - 1 ==> !(s[i] == '\r' && s[i + 1] == '\n')
  }

  lemma UnixCons(c: char, s: string)
    ensures Unix([c] + s) == if c == '\r' && s != "" && s[0] == '\n' then ['\n'] + Unix(s[1..]) else [c] + Unix(s)
  {
    assert ([c] + s)[1..] == s;
    if s != "" { assert ([c] + s)[2..] == s[1..]; }
  }

  lemma {:induction false} UnixAppend(a: string, b: string)
    requires a == "" || b == "" || a[|a| - 1] != '\r' || b[0] != '\n'
    ensures Unix(a + b) == Unix(a) + Unix(b)
    decreases |a|
  {
    UnixFirst("");
    hide Unix;
    if a == "" {
      assert a + b == b && "" + Unix(b) == Unix(b);
    } else {
      var c, tail := a[0], a[1..];
      assert a == [c] + tail && a + b == [c] + (tail + b);
      UnixCons(c, tail);
      UnixCons(c, tail + b);
      if c == '\r' && tail != "" && tail[0] == '\n' {
        assert (tail + b)[1..] == tail[1..] + b;
        UnixAppend(tail[1..], b);
        Assoc(['\n'], Unix(tail[1..]), Unix(b));
      } else {
        UnixAppend(tail, b);
        Assoc([c], Unix(tail), Unix(b));
      }
    }
  }

  lemma {:induction false} UnixKeeps(s: string)
    requires NoPair(s)
    ensures Unix(s) == s
  {
    if |s| >= 2 {
      assert NoPair(s[1..]) by { assert forall i :: 0 <= i < |s| - 1 ==> s[1..][i] == s[i + 1]; }
      UnixKeeps(s[1..]);
      assert [s[0]] + s[1..] == s;
    }
  }

  /** The first character survives, unless it begins a CRLF. */
  lemma UnixFirst(s: string)
    ensures s != "" ==> Unix(s) != "" && Unix(s)[0] == (if |s| > 1 && s[0] == '\r' && s[1] == '\n' then '\n' else s[0])
    ensures s == "" ==> Unix(s) == ""
  {
  }

  lemma {:induction false} UnixHasNoPair(s: string)
    requires Clean(s)
    ensures NoPair(Unix(s))
    decreases |s|
  {
    if |s| >= 2 {
      var n := if s[0] == '\r' && s[1] == '\n' then 2 else 1;
      var c, rest := if n == 2 then '\n' else s[0], s[n..];
      assert Clean(rest) by { assert forall i :: 0 <= i < |rest| ==> rest[i] == s[i + n]; }
      UnixHasNoPair(rest);
      UnixFirst(rest);
      assert Unix(s) == [c] + Unix(rest);
      assert c == '\r' && rest != "" ==> Unix(rest)[0] != '\n';
      PairInFront(c, Unix(rest));
    }
  }

  lemma PairInFront(c: char, s: string)
    requires NoPair(s) && (c == '\r' && s != "" ==> s[0] != '\n')
    ensures NoPair([c] + s)
  {
  }

  lemma {:induction false} UnixShortens(s: string)
    ensures |Unix(s)| <= |s| && (!NoPair(s) ==> |Unix(s)| < |s|)
    decreases |s|
  {
    if |s| >= 2 {
      UnixShortens(s[2..]);
      UnixShortens(s[1..]);
      if !(s[0] == '\r' && s[1] == '\n') && NoPair(s[1..]) {
        PairInFront(s[0], s[1..]);
        assert [s[0]] + s[1..] == s;
      }
    }
  }

  lemma {:induction false} UnixMakesPair(s: string, i: nat)
    requires i < |s| - 2 && s[i] == '\r' && s[i + 1] == '\r' && s[i + 2] == '\n'
    ensures !NoPair(Unix(s))
    decreases |s|
  {
    if i == 0 {
      UnixFirst(s[1..]);
      assert Unix(s) == ['\r'] + Unix(s[1..]);
      assert Unix(s)[0] == '\r' && Unix(s)[1] == '\n';
    } else {
      var n := if s[0] == '\r' && s[1] == '\n' then 2 else 1;
      UnixMakesPair(s[n..], i - n);
      var r := Unix(s[n..]);
      var k :| 0 <= k < |r| - 1 && r[k] == '\r' && r[k + 1] == '\n';
      assert Unix(s)[k + 1] == '\r' && Unix(s)[k + 2] == '\n';
    }
  }

  /** Running the replacement over a kept buffer again is harmless exactly when no carriage
      return stands in front of a CRLF. */
  lemma UnixTwiceIff(s: string)
    ensures Unix(Unix(s)) == Unix(s) <==> Clean(s)
  {
    if Clean(s) {
      UnixHasNoPair(s);
      UnixKeeps(Unix(s));
    } else {
      var i: nat :| i < |s| - 2 && s[i] == '\r' && s[i + 1] == '\r' && s[i + 2] == '\n';
      UnixMakesPair(s, i);
      UnixShortens(Unix(s));
    }
  }

  /** Removing carriage returns from a text that arrives in two parts, when what was kept of
      the first part had already been through it. */
  lemma UnixAgain(a: string, b: string)
    requires Clean(a + b)
    ensures Unix(Unix(a) + b) == Unix(a + b)
  {
    CleanPrefix(a, b);
    hide Clean, NoPair, Unix;
    UnixHasNoPair(a);
    UnixKeeps(Unix(a));
    if a != "" && b != "" && a[|a| - 1] == '\r' && b[0] == '\n' {
      var front := a[..|a| - 1];
      assert a == front + "\r";
      CleanPrefix(front, "\r");
      UnixAcross(front, b);
    } else {
      UnixApart(a, b);
    }
  }

  /** No CRLF lies across the place where the parts meet. */
  lemma UnixApart(a: string, b: string)
    requires a != "" && b != "" ==> a[|a| - 1] != '\r' || b[0] != '\n'
    requires Unix(Unix(a)) == Unix(a)
    ensures Unix(Unix(a) + b) == Unix(a + b)
  {
    hide Unix;
    UnixLast(a);
    UnixAppend(a, b);
    UnixAppend(Unix(a), b);
  }

  lemma CleanPrefix(a: string, b: string)
    requires Clean(a + b)
    ensures Clean(a)
  {
    assert forall i :: 0 <= i < |a| ==> a[i] == (a + b)[i];
  }

  /** The parts meet in the middle of a CRLF. */
  lemma UnixAcross(front: string, b: string)
    requires Clean(front)
    ensures Unix(Unix(front + "\r") + b) == Unix(front + "\r" + b)
  {
    UnixFirst("\r");
    assert Unix("\r") == "\r";
    hide Clean, NoPair, Unix;
    UnixHasNoPair(front);
    UnixKeeps(Unix(front));
    UnixAppend(front, "\r");
    UnixAppend(front, "\r" + b);
    UnixAppend(Unix(front), "\r" + b);
    Assoc(front, "\r", b);
    Assoc(Unix(front), "\r", b);
  }

  /** A text ends in a carriage return after the replacement only if it did before. */
  lemma {:induction false} UnixLast(s: string)
    ensures Unix(s) == "" <==> s == ""
    ensures s != "" && s[|s| - 1] != '\r' ==> Unix(s)[|Unix(s)| - 1] != '\r'
    decreases |s|
  {
    if |s| >= 2 {
      UnixLast(if s[0] == '\r' && s[1] == '\n' then s[2..] else s[1..]);
    }
  }

  // ------------------------------------------------------- one chunk and the rest

  /** The complete events of a text, and what follows the last of them. */
  function Events(t: string): Split {
    SplitOn(Unix(t), EVENT_END)
  }

  /** Keeping only the unfinished event is enough. */
  lemma BufferSuffices(t: string, c: string)
    requires Clean(t + c)
    ensures var r := Events(t);
            Events(t + c) == Split(r.pieces, "").Then(SplitOn(Unix(r.rest + c), EVENT_END))
  {
    var r := Events(t);
    var head := Closed(r.pieces, EVENT_END);
    assert Clean(t) by { assert forall i :: 0 <= i < |t| ==> t[i] == (t + c)[i]; }
    SplitKeepsAll(Unix(t), EVENT_END);
    ClosedEnds(r.pieces, EVENT_END);
    assert EVENT_END != "" && EVENT_END[|EVENT_END| - 1] == '\n';
    UnixHasNoPair(t);
    NoPairPrefix(head, r.rest);
    hide EVENT_END, Clean, NoPair, Unix, SplitOn, Closed;
    UnixAgain(t, c);
    Assoc(head, r.rest, c);
    UnixKeeps(head);
    UnixAppend(head, r.rest + c);
    SplitClosed(Unix(t), EVENT_END, Unix(r.rest + c));
  }

  lemma NoPairPrefix(a: string, b: string)
    requires NoPair(a + b)
    ensures NoPair(a)
  {
    assert forall i :: 0 <= i < |a| ==> (a + b)[i] == a[i];
  }

  lemma StepAssoc(a: Step, b: Step, c: Step)
    ensures a.Then(b).Then(c) == a.Then(b.Then(c))
  {
    Assoc(a.out, b.out, c.out);
  }

  lemma NoEvents(st: State, decode: Decoder, generate: bool)
    ensures OnEvents(st, [], decode, generate) == Step(st, [])
  {
  }

  lemma {:induction false} OnEventsAppend(st: State, a: seq<string>, b: seq<string>, decode: Decoder, generate: bool)
    ensures var s := OnEvents(st, a, decode, generate);
            OnEvents(st, a + b, decode, generate) == s.Then(OnEvents(s.st, b, decode, generate))
    decreases |b|
  {
    hide *;
    var s := OnEvents(st, a, decode, generate);
    if b == [] {
      assert a + b == a;
      NoEvents(s.st, decode, generate);
      ThenNothing(s);
    } else {
      var n := |b| - 1;
      OnEventsAppend(st, a, b[..n], decode, generate);
      LastApart(a, b);
      LastApart([], b);
      OnEventsMore(st, a + b[..n], b[n], decode, generate);
      OnEventsMore(s.st, b[..n], b[n], decode, generate);
      var most := OnEvents(s.st, b[..n], decode, generate);
      ThenIs(s, most);
      StepAssoc(s, most, OnDatas(most.st, Datas(b[n]), decode, generate));
      assert [] + b == b && [] + b[..n] == b[..n];
    }
  }

  lemma ThenIs(a: Step, b: Step)
    ensures a.Then(b).st == b.st
  {
  }

  // ----------------------------------------------------------- the end mark

  predicate HasDone(event: string) {
    DONE in Datas(event)
  }

  /** Nothing follows the event with the end mark. */
  predicate DoneLast(events: seq<string>) {
    forall i :: 0 <= i < |events| - 1 ==> !HasDone(events[i])
  }

  lemma {:induction false} NoDoneData(st: State, datas: seq<string>, decode: Decoder, generate: bool)
    requires !st.finished && DONE !in datas
    ensures !OnDatas(st, datas, decode, generate).st.finished
  {
    if datas != [] {
      NoDoneData(st, datas[..|datas| - 1], decode, generate);
      hide MergedAll;
      assert datas[|datas| - 1] in datas;
    }
  }

  lemma {:induction false} NoDoneEvent(st: State, events: seq<string>, decode: Decoder, generate: bool)
    requires !st.finished && forall i :: 0 <= i < |events| ==> !HasDone(events[i])
    ensures !OnEvents(st, events, decode, generate).st.finished
  {
    if events != [] {
      var n := |events| - 1;
      NoDoneEvent(st, events[..n], decode, generate);
      assert !HasDone(events[n]);
      NoDoneData(OnEvents(st, events[..n], decode, generate).st, Datas(events[n]), decode, generate);
    }
  }

  // -------------------------------------------------------- chunk independence

  /** What the text of a whole stream means. */
  function Declared(t: string, decode: Decoder, generate: bool): seq<Record> {
    var s := OnEvents(START, Events(t).pieces, decode, generate);
    s.out + Last(s.st, generate)
  }

  /** What the adapter has done once it has seen `t`. */
  ghost predicate Follows(r: Reader, out: seq<Record>, t: string, decode: Decoder, generate: bool) {
    && Step(r.st, out) == OnEvents(START, Events(t).pieces, decode, generate)
    && (if r.closed then r.st.failed || r.st.finished else !r.st.failed && r.buffer == Events(t).rest)
  }

  lemma FedFollows(r: Reader, out: seq<Record>, t: string, c: string, decode: Decoder, generate: bool)
    requires Follows(r, out, t, decode, generate) && !r.closed && Clean(t + c)
    ensures var f := Fed(r, c, decode, generate); Follows(f.0, out + f.1, t + c, decode, generate)
  {
    var e := Events(t);
    BufferSuffices(t, c);
    var next := SplitOn(Unix(r.buffer + c), EVENT_END);
    hide Unix, SplitOn, Clean, Events, OnEvents, EVENT_END;
    OnEventsAppend(START, e.pieces, next.pieces, decode, generate);
  }

  /** Once the adapter has returned, the rest of a well-ended stream adds nothing. */
  lemma ClosedFollows(r: Reader, out: seq<Record>, t: string, c: string, decode: Decoder, generate: bool)
    requires Follows(r, out, t, decode, generate) && r.closed
    requires Clean(t + c) && DoneLast(Events(t + c).pieces)
    ensures Follows(r, out, t + c, decode, generate)
  {
    var e := Events(t);
    BufferSuffices(t, c);
    var more := SplitOn(Unix(e.rest + c), EVENT_END).pieces;
    assert Events(t + c).pieces == e.pieces + more;
    hide Unix, SplitOn, Clean, Events, OnEvents, HasDone, EVENT_END;
    if r.st.failed {
      FailedEventsOn(START, e.pieces, more, decode, generate);
    } else if more != [] {
      assert forall i :: 0 <= i < |e.pieces| ==> (e.pieces + more)[i] == e.pieces[i];
      NoDoneEvent(START, e.pieces, decode, generate);
    } else {
      assert e.pieces + more == e.pieces;
    }
  }

  lemma Earlier(t: string, c: string)
    requires Clean(t + c) && DoneLast(Events(t + c).pieces)
    ensures Clean(t) && DoneLast(Events(t).pieces)
  {
    BufferSuffices(t, c);
    assert forall i :: 0 <= i < |t| ==> t[i] == (t + c)[i];
    hide Unix, SplitOn, Events, HasDone;
    var e, all := Events(t).pieces, Events(t + c).pieces;
    assert |e| <= |all| && forall i :: 0 <= i < |e| ==> all[i] == e[i];
  }

  lemma {:induction false} RunFollows(chunks: seq<string>, decode: Decoder, generate: bool)
    requires Clean(Concat(chunks)) && DoneLast(Events(Concat(chunks)).pieces)
    ensures var r := Run(chunks, decode, generate); Follows(r.0, r.1, Concat(chunks), decode, generate)
  {
    if chunks == [] {
      NothingYet(decode, generate);
    } else {
      var n := |chunks| - 1;
      var t, c := Concat(chunks[..n]), chunks[n];
      Earlier(t, c);
      RunFollows(chunks[..n], decode, generate);
      var r := Run(chunks[..n], decode, generate);
      RunStep(chunks, decode, generate);
      hide Clean, DoneLast, Events, Follows, Run;
      if r.0.closed {
        ClosedFollows(r.0, r.1, t, c, decode, generate);
        assert Fed(r.0, c, decode, generate) == (r.0, []);
        assert r.1 + [] == r.1;
      } else {
        hide Fed;
        FedFollows(r.0, r.1, t, c, decode, generate);
      }
    }
  }

  lemma RunStep(chunks: seq<string>, decode: Decoder, generate: bool)
    requires chunks != []
    ensures var r := Run(chunks[..|chunks| - 1], decode, generate);
            var f := Fed(r.0, chunks[|chunks| - 1], decode, generate);
            Run(chunks, decode, generate) == (f.0, r.1 + f.1)
  {
    hide Fed;
  }

  lemma NothingYet(decode: Decoder, generate: bool)
    ensures Follows(OPENED, [], "", decode, generate)
  {
    assert Find("", EVENT_END) == -1;
  }

  /** However the stream is cut, the records are those the whole text means. */
  lemma StreamIsDeclared(chunks: seq<string>, decode: Decoder, generate: bool)
    requires Clean(Concat(chunks)) && DoneLast(Events(Concat(chunks)).pieces)
    ensures Output(chunks, decode, generate) == Declared(Concat(chunks), decode, generate)
  {
    RunFollows(chunks, decode, generate);
    hide Run, Events, OnEvents, Clean, DoneLast;
  }

  // ------------------------------------------------------ one record at the end

  function Dones(out: seq<Record>): nat {
    if out == [] then 0 else Dones(out[..|out| - 1]) + if out[|out| - 1].Done? then 1 else 0
  }

  function Failures(out: seq<Record>): nat {
    if out == [] then 0 else Failures(out[..|out| - 1]) + if out[|out| - 1].Failed? then 1 else 0
  }

  lemma {:induction false} CountsAppend(a: seq<Record>, b: seq<Record>)
    ensures Dones(a + b) == Dones(a) + Dones(b) && Failures(a + b) == Failures(a) + Failures(b)
    decreases |b|
  {
    if b == [] {
      assert a + b == a;
    } else {
      var n := |b| - 1;
      CountsAppend(a, b[..n]);
      assert (a + b)[..|a + b| - 1] == a + b[..n];
    }
  }

  /** A step that leaves the counts and the flags in agreement. */
  ghost predicate Tallied(st: State, s: Step) {
    && Dones(s.out) == (if s.st.finished && !st.finished then 1 else 0)
    && Failures(s.out) == (if s.st.failed && !st.failed then 1 else 0)
    && (st.finished ==> s.st.finished) && (st.failed ==> s == Step(st, []))
    && (s.st.failed && !st.failed ==> s.out != [] && s.out[|s.out| - 1].Failed?)
  }

  lemma TalliedThen(st: State, a: Step, b: Step)
    requires Tallied(st, a) && Tallied(a.st, b)
    ensures Tallied(st, a.Then(b))
  {
    CountsAppend(a.out, b.out);
  }

  lemma OneRecord(r: Record)
    ensures Dones([r]) == (if r.Done? then 1 else 0) && Failures([r]) == (if r.Failed? then 1 else 0)
  {
    assert [r][..0] == [];
  }

  lemma DataTallied(st: State, data: string, decode: Decoder, generate: bool)
    ensures Tallied(st, OnData(st, data, decode, generate))
  {
    NothingTallied(st);
    if !st.failed {
      MarkTallied(st, DoneRecord(st, generate));
      FrameTallied(st, decode(data));
    }
    hide DONE, OnFrame, Tallied, DoneRecord;
  }

  lemma NothingTallied(st: State)
    ensures Tallied(st, Step(st, []))
  {
  }

  lemma MarkTallied(st: State, r: Record)
    requires !st.failed && r.Done?
    ensures !st.finished ==> Tallied(st, Step(st.(finished := true), [r]))
  {
    OneRecord(r);
  }

  lemma FrameTallied(st: State, f: Frame)
    requires !st.failed
    ensures Tallied(st, OnFrame(st, f))
  {
    match f
    case Unreadable =>
    case Failure(e) => OneRecord(Failed(e));
    case Report(usage, choice) =>
      if choice.Some? {
        ChoiceTallied(st.(usage := if usage.Some? then usage else st.usage), choice.value);
        hide OnChoice;
      }
  }

  lemma ChoiceTallied(st: State, c: Choice)
    ensures var s := OnChoice(st, c);
            && Dones(s.out) == 0 && Failures(s.out) == 0
            && s.st.finished == st.finished && s.st.failed == st.failed
  {
    hide MergedAll;
    OneRecord(Content(c.content));
    OneRecord(Thought(c.thinking));
    CountsAppend(if c.content != "" then [Content(c.content)] else [],
                 if c.thinking != "" then [Thought(c.thinking)] else []);
  }

  lemma {:induction false} DatasTallied(st: State, datas: seq<string>, decode: Decoder, generate: bool)
    ensures Tallied(st, OnDatas(st, datas, decode, generate))
  {
    if datas != [] {
      var n := |datas| - 1;
      DatasTallied(st, datas[..n], decode, generate);
      var s := OnDatas(st, datas[..n], decode, generate);
      DataTallied(s.st, datas[n], decode, generate);
      hide OnData, Tallied;
      TalliedThen(st, s, OnData(s.st, datas[n], decode, generate));
    }
  }

  lemma {:induction false} EventsTallied(st: State, events: seq<string>, decode: Decoder, generate: bool)
    ensures Tallied(st, OnEvents(st, events, decode, generate))
  {
    if events != [] {
      var n := |events| - 1;
      EventsTallied(st, events[..n], decode, generate);
      var s := OnEvents(st, events[..n], decode, generate);
      DatasTallied(s.st, Datas(events[n]), decode, generate);
      hide OnDatas, Datas, Tallied;
      TalliedThen(st, s, OnDatas(s.st, Datas(events[n]), decode, generate));
    }
  }

  lemma {:induction false} RunTallied(chunks: seq<string>, decode: Decoder, generate: bool)
    ensures var r := Run(chunks, decode, generate); Tallied(START, Step(r.0.st, r.1))
  {
    if chunks != [] {
      var n := |chunks| - 1;
      RunTallied(chunks[..n], decode, generate);
      RunStep(chunks, decode, generate);
      var r, c := Run(chunks[..n], decode, generate).0, chunks[n];
      FedTallied(r, c, decode, generate);
      hide Fed, Run, Tallied;
      var f := Fed(r, c, decode, generate);
      TalliedThen(START, Step(r.st, Run(chunks[..n], decode, generate).1), Step(f.0.st, f.1));
    }
  }

  lemma FedTallied(r: Reader, c: string, decode: Decoder, generate: bool)
    ensures var f := Fed(r, c, decode, generate); Tallied(r.st, Step(f.0.st, f.1))
  {
    var split := SplitOn(Unix(r.buffer + c), EVENT_END);
    hide SplitOn, Unix, OnEvents;
    EventsTallied(r.st, split.pieces, decode, generate);
  }

  /** Every stream, however cut and however it ends, gets exactly one record that says it is
      done, unless an error is reported: then nothing follows the error. */
  lemma OneDone(chunks: seq<string>, decode: Decoder, generate: bool)
    ensures var out := Output(chunks, decode, generate);
            && Dones(out) <= 1 && Failures(out) <= 1
            && (Failures(out) == 0 ==> Dones(out) == 1)
            && (Failures(out) == 1 ==> out != [] && out[|out| - 1].Failed?)
  {
    RunTallied(chunks, decode, generate);
    hide Run;
    LastTallied(Run(chunks, decode, generate).0.st, Run(chunks, decode, generate).1, generate);
  }

  lemma LastTallied(st: State, out: seq<Record>, generate: bool)
    requires Tallied(START, Step(st, out))
    ensures var all := out + Last(st, generate);
            && Dones(all) <= 1 && Failures(all) <= 1
            && (Failures(all) == 0 ==> Dones(all) == 1)
            && (Failures(all) == 1 ==> all != [] && all[|all| - 1].Failed?)
  {
    var done := DoneRecord(st, generate);
    assert done.Done?;
    OneRecord(done);
    CountsAppend(out, [done]);
    hide DoneRecord, Dones, Failures;
    assert out + [] == out;
  }

  // ------------------------------------------------- what the answer contains

  /** All data lines of some events, in order. */
  function AllDatas(events: seq<string>): seq<string> {
    if events == [] then [] else AllDatas(events[..|events| - 1]) + Datas(events[|events| - 1])
  }

  lemma {:induction false} OnDatasAppend(st: State, a: seq<string>, b: seq<string>, decode: Decoder, generate: bool)
    ensures var s := OnDatas(st, a, decode, generate);
            OnDatas(st, a + b, decode, generate) == s.Then(OnDatas(s.st, b, decode, generate))
    decreases |b|
  {
    var s := OnDatas(st, a, decode, generate);
    if b == [] {
      assert a + b == a && s.out + [] == s.out;
    } else {
      var n := |b| - 1;
      OnDatasAppend(st, a, b[..n], decode, generate);
      assert (a + b)[..|a + b| - 1] == a + b[..n] && (a + b)[|a + b| - 1] == b[n];
      hide OnData;
      var most := OnDatas(s.st, b[..n], decode, generate);
      StepAssoc(s, most, OnData(most.st, b[n], decode, generate));
    }
  }

  /** Reading events is reading their data lines. */
  lemma {:induction false} EventsAreDatas(st: State, events: seq<string>, decode: Decoder, generate: bool)
    ensures OnEvents(st, events, decode, generate) == OnDatas(st, AllDatas(events), decode, generate)
  {
    if events != [] {
      var n := |events| - 1;
      EventsAreDatas(st, events[..n], decode, generate);
      hide OnDatas, Datas;
      OnDatasAppend(st, AllDatas(events[..n]), Datas(events[n]), decode, generate);
    }
  }

  function ContentOf(out: seq<Record>): string {
    if out == [] then ""
    else ContentOf(out[..|out| - 1]) + if out[|out| - 1].Content? then out[|out| - 1].text else ""
  }

  function ThoughtOf(out: seq<Record>): string {
    if out == [] then ""
    else ThoughtOf(out[..|out| - 1]) + if out[|out| - 1].Thought? then out[|out| - 1].text else ""
  }

  lemma {:induction false} TextsAppend(a: seq<Record>, b: seq<Record>)
    ensures ContentOf(a + b) == ContentOf(a) + ContentOf(b) && ThoughtOf(a + b) == ThoughtOf(a) + ThoughtOf(b)
    decreases |b|
  {
    if b == [] {
      assert a + b == a;
    } else {
      var n := |b| - 1;
      var r := b[n];
      TextsAppend(a, b[..n]);
      assert (a + b)[..|a + b| - 1] == a + b[..n];
      Assoc(ContentOf(a), ContentOf(b[..n]), if r.Content? then r.text else "");
      Assoc(ThoughtOf(a), ThoughtOf(b[..n]), if r.Thought? then r.text else "");
    }
  }

  /** What deltas add to an answer. */
  datatype Said = Said(content: string, thinking: string, calls: seq<CallDelta>) {
    function Then(next: Said): Said {
      Said(content + next.content, thinking + next.thinking, calls + next.calls)
    }
  }

  predicate Fails(data: string, decode: Decoder) {
    data != "" && data != DONE && decode(data).Failure?
  }

  function Says(data: string, decode: Decoder): Said {
    if data == "" || data == DONE then Said("", "", [])
    else
      match decode(data)
      case Report(_, Some(c)) => Said(c.content, c.thinking, c.calls)
      case _ => Said("", "", [])
  }

  /** What the data lines in front of the first failure say. */
  function AllSaid(datas: seq<string>, decode: Decoder): Said {
    if datas == [] || Fails(datas[0], decode) then Said("", "", [])
    else Says(datas[0], decode).Then(AllSaid(datas[1..], decode))
  }

  lemma {:induction false} MergedAppend(tools: Tools, a: seq<CallDelta>, b: seq<CallDelta>)
    ensures MergedAll(tools, a + b) == MergedAll(MergedAll(tools, a), b)
    decreases |b|
  {
    if b == [] {
      assert a + b == a;
    } else {
      MergedAppend(tools, a, b[..|b| - 1]);
      hide Merged;
      assert (a + b)[..|a + b| - 1] == a + b[..|b| - 1];
    }
  }

  lemma SaysOne(r: Record)
    ensures ContentOf([r]) == (if r.Content? then r.text else "") && ThoughtOf([r]) == (if r.Thought? then r.text else "")
  {
    assert [r][..0] == [];
  }

  /** A step that adds to the answer what was said. */
  ghost predicate Adds(st: State, s: Step, said: Said) {
    && ContentOf(s.out) == said.content && ThoughtOf(s.out) == said.thinking
    && s.st.tools == MergedAll(st.tools, said.calls)
  }

  lemma AddsThen(st: State, a: Step, b: Step, x: Said, y: Said)
    requires Adds(st, a, x) && Adds(a.st, b, y)
    ensures Adds(st, a.Then(b), x.Then(y))
  {
    hide ContentOf, ThoughtOf, MergedAll;
    TextsAppend(a.out, b.out);
    MergedAppend(st.tools, x.calls, y.calls);
  }

  /** What one data line adds. */
  lemma DataAdds(st: State, data: string, decode: Decoder, generate: bool)
    requires !st.failed
    ensures var s := OnData(st, data, decode, generate);
            s.st.failed == Fails(data, decode) && Adds(st, s, Says(data, decode))
  {
    NothingAdds(st);
    SaysOne(DoneRecord(st, generate));
    FrameAdds(st, decode(data));
    hide DONE, OnFrame, DoneRecord, ContentOf, ThoughtOf, MergedAll;
  }

  lemma NothingAdds(st: State)
    ensures Adds(st, Step(st, []), Said("", "", []))
    ensures MergedAll(st.tools, []) == st.tools
  {
  }

  lemma FrameAdds(st: State, f: Frame)
    requires !st.failed
    ensures var s := OnFrame(st, f);
            && s.st.failed == f.Failure?
            && Adds(st, s, match f
                           case Report(_, Some(c)) => Said(c.content, c.thinking, c.calls)
                           case _ => Said("", "", []))
  {
    NothingAdds(st);
    match f
    case Unreadable =>
    case Failure(e) => SaysOne(Failed(e));
    case Report(usage, choice) =>
      if choice.Some? { ChoiceSays(choice.value); }
      hide ContentOf, ThoughtOf, MergedAll;
  }

  lemma ChoiceSays(c: Choice)
    ensures forall st :: ContentOf(OnChoice(st, c).out) == c.content && ThoughtOf(OnChoice(st, c).out) == c.thinking
    ensures ContentOf([]) == "" && ThoughtOf([]) == ""
  {
    SaysOne(Content(c.content));
    SaysOne(Thought(c.thinking));
    TextsAppend(if c.content != "" then [Content(c.content)] else [],
                if c.thinking != "" then [Thought(c.thinking)] else []);
  }

  lemma FromFront(st: State, datas: seq<string>, decode: Decoder, generate: bool)
    requires datas != []
    ensures var s := OnData(st, datas[0], decode, generate);
            OnDatas(st, datas, decode, generate) == s.Then(OnDatas(s.st, datas[1..], decode, generate))
  {
    OnDatasAppend(st, [datas[0]], datas[1..], decode, generate);
    assert datas == [datas[0]] + datas[1..];
    assert [datas[0]][..0] == [];
    hide OnData;
    var s := OnData(st, datas[0], decode, generate);
    assert OnDatas(st, [], decode, generate) == Step(st, []) && [] + s.out == s.out;
  }

  /** Content, reasoning and tool calls are those of the deltas, in order. */
  lemma {:induction false} DatasAdd(st: State, datas: seq<string>, decode: Decoder, generate: bool)
    requires !st.failed
    ensures Adds(st, OnDatas(st, datas, decode, generate), AllSaid(datas, decode))
    decreases |datas|
  {
    NothingAdds(st);
    if datas != [] {
      FromFront(st, datas, decode, generate);
      DataAdds(st, datas[0], decode, generate);
      var s := OnData(st, datas[0], decode, generate);
      if Fails(datas[0], decode) {
        NothingFails(s.st, datas[1..], decode, generate);
        assert s.out + [] == s.out;
        hide OnData, OnDatas, Adds;
      } else {
        DatasAdd(s.st, datas[1..], decode, generate);
        hide OnData, OnDatas, Adds, Says;
        var next := OnDatas(s.st, datas[1..], decode, generate);
        AddsThen(st, s, next, Says(datas[0], decode), AllSaid(datas[1..], decode));
      }
    }
  }

  /** The content a client receives is the concatenation of the content deltas in front of the
      first error, and so is the reasoning. */
  lemma ContentIsDeltas(chunks: seq<string>, decode: Decoder, generate: bool)
    requires Clean(Concat(chunks)) && DoneLast(Events(Concat(chunks)).pieces)
    ensures var out := Output(chunks, decode, generate);
            var said := AllSaid(AllDatas(Events(Concat(chunks)).pieces), decode);
            ContentOf(out) == said.content && ThoughtOf(out) == said.thinking
  {
    hide Clean, DoneLast, Events, AllDatas, Output, OnEvents, OnDatas, AllSaid;
    StreamIsDeclared(chunks, decode, generate);
    var events := Events(Concat(chunks)).pieces;
    EventsAreDatas(START, events, decode, generate);
    DatasAdd(START, AllDatas(events), decode, generate);
    var s := OnEvents(START, events, decode, generate);
    SaysOne(DoneRecord(s.st, generate));
    TextsAppend(s.out, Last(s.st, generate));
    hide DoneRecord;
    NoTexts();
  }

  lemma NoTexts()
    ensures ContentOf([]) == "" && ThoughtOf([]) == ""
  {
  }

  /** The end mark reports every tool call gathered from the deltas before it. */
  lemma DoneReports(datas: seq<string>, decode: Decoder, generate: bool)
    requires DONE !in datas && !OnDatas(START, datas, decode, generate).st.failed
    ensures var s := OnDatas(START, datas, decode, generate);
            var calls := if generate then [] else Accumulated(MergedAll(map[], AllSaid(datas, decode).calls));
            OnDatas(START, datas + [DONE], decode, generate).out == s.out + [Done(calls, s.st.reason, s.st.usage)]
  {
    NoDoneData(START, datas, decode, generate);
    DatasAdd(START, datas, decode, generate);
    assert (datas + [DONE])[..|datas|] == datas;
    assert DONE != "";
    hide DONE, Accumulated, AllSaid, MergedAll;
  }

  // ----------------------------------------------------- fragments of a call

  predicate Indexed(calls: seq<CallDelta>) {
    forall k :: 0 <= k < |calls| ==> calls[k].index.Some? && !calls[k].arguments.Whole?
  }

  /** The argument fragments for one index, in order. */
  function FragmentsOf(calls: seq<CallDelta>, i: int): string {
    if calls == [] then ""
    else
      var c := calls[|calls| - 1];
      FragmentsOf(calls[..|calls| - 1], i)
      + if c.index == Some(i) && c.arguments.Fragment? then c.arguments.text else ""
  }

  /** The last name given for one index. */
  function NameOf(calls: seq<CallDelta>, i: int): string {
    if calls == [] then ""
    else
      var c := calls[|calls| - 1];
      if c.index == Some(i) && c.name != "" then c.name else NameOf(calls[..|calls| - 1], i)
  }

  /** However the fragments of several calls are interleaved, each index gathers exactly its
      own, in order. */
  lemma {:induction false} FragmentsGather(calls: seq<CallDelta>, i: int)
    requires Indexed(calls)
    ensures var tools := MergedAll(map[], calls);
            && (i in tools <==> exists k :: 0 <= k < |calls| && calls[k].index == Some(i))
            && (i in tools ==> tools[i] == Item(NameOf(calls, i), FragmentsOf(calls, i)))
            && (i !in tools ==> NameOf(calls, i) == "" && FragmentsOf(calls, i) == "")
  {
    if calls != [] {
      var n := |calls| - 1;
      var c := calls[n];
      assert c.index.Some? && !c.arguments.Whole?;
      FragmentsGather(calls[..n], i);
      GatherStep(MergedAll(map[], calls[..n]), c, i);
      CallsStep(calls, i);
      hide NameOf, FragmentsOf, Merged, Indexed;
      assert calls[n].index == Some(i) <==> c.index == Some(i);
    }
  }

  /** What one more fragment does to the item of one index. */
  lemma GatherStep(tools: Tools, c: CallDelta, i: int)
    requires c.index.Some? && !c.arguments.Whole?
    ensures var more := Merged(tools, c);
            var item := if i in tools then tools[i] else Item("", "");
            if c.index == Some(i) then
              && i in more
              && more[i] == Item(if c.name != "" then c.name else item.name,
                                 item.arguments + if c.arguments.Fragment? then c.arguments.text else "")
            else (i in more <==> i in tools) && (i in tools ==> more[i] == tools[i])
  {
    if i in tools { assert tools[i].arguments + "" == tools[i].arguments; }
  }

  lemma CallsStep(calls: seq<CallDelta>, i: int)
    requires calls != []
    ensures var c, past := calls[|calls| - 1], calls[..|calls| - 1];
            && NameOf(calls, i) == (if c.index == Some(i) && c.name != "" then c.name else NameOf(past, i))
            && FragmentsOf(calls, i)
               == FragmentsOf(past, i) + (if c.index == Some(i) && c.arguments.Fragment? then c.arguments.text else "")
            && (c.index != Some(i) ==> FragmentsOf(calls, i) == FragmentsOf(past, i))
            && ((exists k :: 0 <= k < |calls| && calls[k].index == Some(i))
                <==> c.index == Some(i) || exists k :: 0 <= k < |past| && past[k].index == Some(i))
  {
    var past := calls[..|calls| - 1];
    assert forall k :: 0 <= k < |past| ==> past[k] == calls[k];
    assert FragmentsOf(past, i) + "" == FragmentsOf(past, i);
  }

  // ---------------------------------------------------------- the done record

  /** The data lines in front of the first end mark. */
  function BeforeDone(datas: seq<string>): seq<string> {
    if datas == [] || datas[0] == DONE then [] else [datas[0]] + BeforeDone(datas[1..])
  }

  lemma {:induction false} DoneSplits(datas: seq<string>)
    ensures var b := BeforeDone(datas);
            DONE !in b && (if DONE in datas then exists rest :: datas == b + [DONE] + rest else b == datas)
  {
    hide DONE;
    if datas != [] && datas[0] != DONE {
      var tail := datas[1..];
      DoneSplits(tail);
      assert datas == [datas[0]] + tail;
      if DONE in datas {
        assert DONE in tail;
        var rest :| tail == BeforeDone(tail) + [DONE] + rest;
        assert datas == BeforeDone(datas) + [DONE] + rest;
      }
    } else if datas != [] {
      assert datas == [] + [DONE] + datas[1..];
    }
  }

  /** What the done record of a stream has to be: all calls, the last reason and the last usage
      of the deltas in front of the end mark, or of all deltas if there is none. */
  function Owed(datas: seq<string>, decode: Decoder, generate: bool): Record {
    DoneRecord(OnDatas(START, BeforeDone(datas), decode, generate).st, generate)
  }

  ghost predicate OnlyDone(out: seq<Record>, r: Record) {
    forall x :: x in out && x.Done? ==> x == r
  }

  lemma {:induction false} DonesNone(out: seq<Record>)
    requires Dones(out) == 0
    ensures forall x :: x in out ==> !x.Done?
  {
    if out != [] {
      DonesNone(out[..|out| - 1]);
      assert out == out[..|out| - 1] + [out[|out| - 1]];
    }
  }

  lemma OnlyDoneAppend(a: seq<Record>, b: seq<Record>, r: Record)
    requires OnlyDone(a, r) && OnlyDone(b, r)
    ensures OnlyDone(a + b, r)
  {
  }

  /** Up to the end mark there is no done record. */
  lemma NoneBeforeDone(datas: seq<string>, decode: Decoder, generate: bool)
    requires DONE !in datas
    ensures var s := OnDatas(START, datas, decode, generate);
            !s.st.finished && OnlyDone(s.out, DoneRecord(s.st, generate))
            && OnlyDone(Last(s.st, generate), DoneRecord(s.st, generate))
  {
    NoDoneData(START, datas, decode, generate);
    DatasTallied(START, datas, decode, generate);
    hide DONE, OnDatas, Dones, DoneRecord;
    DonesNone(OnDatas(START, datas, decode, generate).out);
  }

  /** The end mark brings a done record and the end of the stream brings one that is missing;
      there is no other. */
  lemma DoneIsOwed(datas: seq<string>, decode: Decoder, generate: bool)
    ensures var s := OnDatas(START, datas, decode, generate);
            OnlyDone(s.out + Last(s.st, generate), Owed(datas, decode, generate))
  {
    DoneSplits(datas);
    var b := BeforeDone(datas);
    var s := OnDatas(START, b, decode, generate);
    var r := DoneRecord(s.st, generate);
    assert Owed(datas, decode, generate) == r;
    NoneBeforeDone(b, decode, generate);
    if DONE in datas {
      var rest :| datas == b + [DONE] + rest;
      hide DONE, OnDatas, DoneRecord, BeforeDone, OnlyDone, Owed;
      MarkAndRest(s.st, rest, decode, generate);
      Assoc(b, [DONE], rest);
      OnDatasAppend(START, b, [DONE] + rest, decode, generate);
      var next := OnDatas(s.st, [DONE] + rest, decode, generate);
      OnlyDoneAppend(s.out, next.out, r);
      assert s.out + next.out + [] == s.out + next.out;
    } else {
      hide *;
      OnlyDoneAppend(s.out, Last(s.st, generate), r);
    }
  }

  /** What the first end mark and the lines behind it add. */
  lemma MarkAndRest(st: State, rest: seq<string>, decode: Decoder, generate: bool)
    requires !st.finished
    ensures var s := OnDatas(st, [DONE] + rest, decode, generate);
            (s.st.finished || s.st.failed) && OnlyDone(s.out, DoneRecord(st, generate))
  {
    assert DONE != "" && ([DONE] + rest)[1..] == rest;
    FromFront(st, [DONE] + rest, decode, generate);
    var m := OnData(st, DONE, decode, generate);
    assert m == if st.failed then Step(st, []) else Step(st.(finished := true), [DoneRecord(st, generate)]);
    DatasTallied(m.st, rest, decode, generate);
    hide DONE, OnDatas, OnData, Dones, DoneRecord;
    DonesNone(OnDatas(m.st, rest, decode, generate).out);
  }

  /** A failure in front of the end mark leaves no done record. */
  lemma FailedHasNone(datas: seq<string>, decode: Decoder, generate: bool)
    requires OnDatas(START, BeforeDone(datas), decode, generate).st.failed
    ensures var s := OnDatas(START, datas, decode, generate);
            forall x :: x in s.out + Last(s.st, generate) ==> !x.Done?
  {
    hide *;
    var b := BeforeDone(datas);
    DoneSplits(datas);
    var more := MarkBehind(datas);
    FailedReadsOn(START, b, more, decode, generate);
    NoDoneTallied(b, decode, generate);
    DonesNone(OnDatas(START, b, decode, generate).out);
    NothingLast(OnDatas(START, b, decode, generate), generate);
  }

  lemma NothingLast(s: Step, generate: bool)
    requires s.st.failed
    ensures s.out + Last(s.st, generate) == s.out
  {
  }

  lemma NoDoneTallied(datas: seq<string>, decode: Decoder, generate: bool)
    requires DONE !in datas
    ensures Dones(OnDatas(START, datas, decode, generate).out) == 0
  {
    NoDoneData(START, datas, decode, generate);
    DatasTallied(START, datas, decode, generate);
    hide DONE, OnDatas, Dones, DoneRecord;
  }

  lemma MarkBehind(datas: seq<string>) returns (more: seq<string>)
    ensures datas == BeforeDone(datas) + more
  {
    DoneSplits(datas);
    hide DONE, BeforeDone;
    var b := BeforeDone(datas);
    more := [];
    if DONE in datas {
      var rest :| datas == b + [DONE] + rest;
      more := [DONE] + rest;
      Assoc(b, [DONE], rest);
    } else {
      assert b + [] == b;
    }
  }

  /** The last reason that a line gives; "stop" if none does. */
  function LastReason(datas: seq<string>, decode: Decoder): string {
    if datas == [] then "stop"
    else
      var n := |datas| - 1;
      match (if datas[n] == "" || datas[n] == DONE then Unreadable else decode(datas[n]))
      case Report(_, Some(c)) => if c.reason != "" then c.reason else LastReason(datas[..n], decode)
      case _ => LastReason(datas[..n], decode)
  }

  /** The last usage that a line reports. */
  function LastUsage(datas: seq<string>, decode: Decoder): Option<Usage> {
    if datas == [] then None
    else
      var n := |datas| - 1;
      match (if datas[n] == "" || datas[n] == DONE then Unreadable else decode(datas[n]))
      case Report(Some(u), _) => Some(u)
      case _ => LastUsage(datas[..n], decode)
  }

  lemma {:induction false} LastGiven(datas: seq<string>, decode: Decoder, generate: bool)
    requires !OnDatas(START, datas, decode, generate).st.failed
    ensures var st := OnDatas(START, datas, decode, generate).st;
            st.reason == LastReason(datas, decode) && st.usage == LastUsage(datas, decode)
  {
    if datas != [] {
      var n := |datas| - 1;
      var s := OnDatas(START, datas[..n], decode, generate);
      hide DONE, OnDatas, DoneRecord, MergedAll;
      OneMoreData(START, datas, decode, generate);
      LastGiven(datas[..n], decode, generate);
    }
  }

  lemma OneMoreData(st: State, datas: seq<string>, decode: Decoder, generate: bool)
    requires datas != []
    ensures var n := |datas| - 1;
            var s := OnDatas(st, datas[..n], decode, generate);
            var d := OnData(s.st, datas[n], decode, generate);
            OnDatas(st, datas, decode, generate).st == d.st && (s.st.failed ==> d.st == s.st)
  {
    hide OnFrame, DoneRecord;
  }

  // ------------------------------------------------------------ events as written

  /** A payload that can stand on one data line and is not trimmed there. */
  predicate OneLine(p: string) {
    && p != "" && p[0] !in BLANKS && p[|p| - 1] !in BLANKS
    && forall k :: 0 <= k < |p| ==> p[k] != '\n' && p[k] != '\r'
  }

  /** Each payload as an event of its own. */
  function EventsOf(payloads: seq<string>): seq<string> {
    seq(|payloads|, i requires 0 <= i < |payloads| => DATA + payloads[i])
  }

  /** A stream written event by event is read as its payloads, and nothing is left over. */
  lemma EventsReadBack(payloads: seq<string>)
    requires forall p :: p in payloads ==> OneLine(p)
    ensures var r := Events(Closed(EventsOf(payloads), EVENT_END));
            r.rest == "" && AllDatas(r.pieces) == payloads && r.pieces == EventsOf(payloads)
    ensures Clean(Closed(EventsOf(payloads), EVENT_END))
  {
    var es := EventsOf(payloads);
    forall e | e in es ensures Unbroken(e) {
      var i :| 0 <= i < |es| && es[i] == e;
      assert payloads[i] in payloads;
    }
    SplitEvents(es);
    NoReturns(es);
    hide EVENT_END, DATA, Datas, Unbroken, SplitOn, OneLine;
    DatasReadBack(payloads);
    UnixKeeps(Closed(es, EVENT_END));
  }

  predicate Unbroken(e: string) {
    forall k :: 0 <= k < |e| ==> e[k] != '\n' && e[k] != '\r'
  }

  lemma {:induction false} SplitEvents(es: seq<string>)
    requires forall e :: e in es ==> Unbroken(e)
    ensures SplitOn(Closed(es, EVENT_END), EVENT_END) == Split(es, "")
  {
    if es != [] {
      assert es[0] in es && forall e :: e in es[1..] ==> e in es;
      SplitEvents(es[1..]);
      var tail := Closed(es[1..], EVENT_END);
      var s := es[0] + EVENT_END + tail;
      FirstEnd(es[0], tail);
      hide EVENT_END, SplitOn;
      assert EVENT_END != "" by { EndShape(); }
      SplitStep(s, EVENT_END, es[0], tail);
      assert [es[0]] + es[1..] == es;
    }
  }

  lemma EndShape()
    ensures EVENT_END != ""
  {
  }

  lemma FirstEnd(e: string, tail: string)
    requires Unbroken(e)
    ensures Find(e + EVENT_END + tail, EVENT_END) == |e|
  {
    var s := e + EVENT_END + tail;
    assert s[|e|..|e| + 2] == EVENT_END;
    hide FindFrom;
    assert At(s, EVENT_END, |e|);
    var i := Find(s, EVENT_END);
    AtChar(s, EVENT_END, i, 0);
  }

  lemma {:induction false} NoReturns(es: seq<string>)
    requires forall e :: e in es ==> Unbroken(e)
    ensures var s := Closed(es, EVENT_END);
            (forall k :: 0 <= k < |s| ==> s[k] != '\r') && NoPair(s) && Clean(s)
  {
    if es != [] {
      assert es[0] in es && forall e :: e in es[1..] ==> e in es;
      NoReturns(es[1..]);
    }
  }

  lemma {:induction false} DatasReadBack(payloads: seq<string>)
    requires forall p :: p in payloads ==> OneLine(p)
    ensures AllDatas(EventsOf(payloads)) == payloads
  {
    hide *;
    if payloads == [] {
      NothingWritten();
    } else {
      var n := |payloads| - 1;
      LastIn(payloads);
      DatasReadBack(payloads[..n]);
      OneData(payloads[n]);
      MoreEvents(payloads);
    }
  }

  lemma NothingWritten()
    ensures AllDatas(EventsOf([])) == []
  {
  }

  lemma LastIn(ps: seq<string>)
    requires ps != []
    ensures var n := |ps| - 1;
            ps == ps[..n] + [ps[n]] && ps[n] in ps && forall p :: p in ps[..n] ==> p in ps
  {
  }

  lemma MoreEvents(payloads: seq<string>)
    requires payloads != []
    ensures var n := |payloads| - 1;
            AllDatas(EventsOf(payloads)) == AllDatas(EventsOf(payloads[..n])) + Datas(DATA + payloads[n])
  {
    hide DATA, Datas;
    var n := |payloads| - 1;
    assert EventsOf(payloads)[..n] == EventsOf(payloads[..n]);
  }

  /** The one data line of an event is its payload. */
  lemma OneData(p: string)
    requires OneLine(p)
    ensures Datas(DATA + p) == [p]
  {
    var line := DATA + p;
    WholeLine(p);
    BehindField(p);
    TrimOne(p);
    hide *;
    OneDataLine(line);
    DatasOf(line);
  }

  lemma DatasOf(event: string)
    requires SplitOn(event, NEWLINE) == Split([], event)
    ensures Datas(event) == DataLines([event])
  {
    hide DataLines, SplitOn;
    assert [] + [event] == [event];
  }

  lemma BehindField(p: string)
    ensures var line := DATA + p; StartsWith(line, FIELD) && line[|FIELD|..] == " " + p
  {
  }

  lemma WholeLine(p: string)
    requires OneLine(p)
    ensures SplitOn(DATA + p, NEWLINE) == Split([], DATA + p)
  {
    var line := DATA + p;
    assert forall k :: 0 <= k < |line| ==> line[k] != '\n';
    hide DATA, FindFrom;
    var i := Find(line, NEWLINE);
    if i != -1 { AtChar(line, NEWLINE, i, 0); }
  }

  lemma TrimOne(p: string)
    requires OneLine(p)
    ensures TrimBoth(" " + p, BLANKS) == p
  {
    var s := " " + p;
    var lo, hi := TrimBothCuts(s, BLANKS);
    assert s[|s| - 1] == p[|p| - 1] && s[1] == p[0];
    hide TrimBoth;
    assert lo == 1 && hi == |s|;
  }

  /** Whatever else an event has on its lines, its data lines are read in order. */
  lemma {:induction false} DataLinesAdd(a: seq<string>, b: seq<string>)
    ensures DataLines(a + b) == DataLines(a) + DataLines(b)
  {
    if a == [] {
      assert a + b == b && [] + DataLines(b) == DataLines(b);
    } else {
      assert (a + b)[1..] == a[1..] + b;
      DataLinesAdd(a[1..], b);
      hide StartsWith, TrimBoth;
      Assoc(if StartsWith(a[0], FIELD) then [TrimBoth(a[0][|FIELD|..], BLANKS)] else [],
            DataLines(a[1..]), DataLines(b));
    }
  }

  lemma OneDataLine(line: string)
    ensures DataLines([line]) == if StartsWith(line, FIELD) then [TrimBoth(line[|FIELD|..], BLANKS)] else []
  {
    assert [line][1..] == [];
  }

  /** The done record of a stream, however it is cut and whether or not it ends in the end
      mark: the calls gathered from all deltas in front of the mark, each index with its own
      argument fragments in order and its last name. */
  lemma StreamDone(chunks: seq<string>, decode: Decoder, generate: bool, r: Record)
    requires Clean(Concat(chunks)) && DoneLast(Events(Concat(chunks)).pieces)
    requires r in Output(chunks, decode, generate) && r.Done?
    ensures var datas := AllDatas(Events(Concat(chunks)).pieces);
            var calls := AllSaid(BeforeDone(datas), decode).calls;
            var tools := MergedAll(map[], calls);
            && r == Owed(datas, decode, generate)
            && r.reason == LastReason(BeforeDone(datas), decode) && r.usage == LastUsage(BeforeDone(datas), decode)
            && r.calls == (if generate then [] else Accumulated(tools))
            && (Indexed(calls) ==>
                  forall i :: i in tools ==> tools[i] == Item(NameOf(calls, i), FragmentsOf(calls, i)))
  {
    hide Clean, DoneLast, Events, AllDatas, OnEvents, OnDatas, AllSaid, Accumulated, MergedAll, BeforeDone,
      NameOf, FragmentsOf, Indexed, Output;
    StreamIsDeclared(chunks, decode, generate);
    var events := Events(Concat(chunks)).pieces;
    var datas := AllDatas(events);
    EventsAreDatas(START, events, decode, generate);
    DoneIsOwed(datas, decode, generate);
    if OnDatas(START, BeforeDone(datas), decode, generate).st.failed { FailedHasNone(datas, decode, generate); }
    LastGiven(BeforeDone(datas), decode, generate);
    DatasAdd(START, BeforeDone(datas), decode, generate);
    var calls := AllSaid(BeforeDone(datas), decode).calls;
    if Indexed(calls) {
      forall i ensures i in MergedAll(map[], calls) ==>
                         MergedAll(map[], calls)[i] == Item(NameOf(calls, i), FragmentsOf(calls, i)) {
        FragmentsGather(calls, i);
      }
    }
  }

  /** The generator returns after an error, or when the end mark has come and only blanks are
      left in the buffer, and not before. */
  lemma {:induction false} ClosedIff(chunks: seq<string>, decode: Decoder, generate: bool)
    ensures var r := Run(chunks, decode, generate).0;
            r.closed <==> r.st.failed || (r.st.finished && forall k :: 0 <= k < |r.buffer| ==> r.buffer[k] in BLANKS)
  {
    if chunks != [] {
      var n := |chunks| - 1;
      ClosedIff(chunks[..n], decode, generate);
      var r := Run(chunks[..n], decode, generate).0;
      hide Run, OnEvents, Unix, SplitOn;
      RunLast(chunks, decode, generate);
      var b := Fed(r, chunks[n], decode, generate).0.buffer;
      BlankIff(b);
    }
  }

  lemma RunLast(chunks: seq<string>, decode: Decoder, generate: bool)
    requires chunks != []
    ensures var n := |chunks| - 1;
            Run(chunks, decode, generate).0 == Fed(Run(chunks[..n], decode, generate).0, chunks[n], decode, generate).0
  {
    hide Fed;
  }

  lemma BlankIff(s: string)
    ensures TrimBoth(s, BLANKS) == "" <==> forall k :: 0 <= k < |s| ==> s[k] in BLANKS
  {
    var lo, hi := TrimBothCuts(s, BLANKS);
    hide TrimBoth;
  }

  /** What one delta yields: its content and then its reasoning, each if there is any. */
  lemma DeltaYields(st: State, data: string, decode: Decoder, generate: bool, usage: Option<Usage>, c: Choice)
    requires !st.failed && data != "" && data != DONE && decode(data) == Report(usage, Some(c))
    ensures OnData(st, data, decode, generate).out
         == (if c.content != "" then [Content(c.content)] else [])
            + (if c.thinking != "" then [Thought(c.thinking)] else [])
  {
    hide MergedAll;
  }

  /** Once the end mark has come and the buffer is blank, nothing that arrives is read. */
  lemma AfterDoneUnread(chunks: seq<string>, more: seq<string>, decode: Decoder, generate: bool)
    requires Run(chunks, decode, generate).0.closed
    ensures Output(chunks + more, decode, generate) == Output(chunks, decode, generate)
  {
    ClosedReadsOn(chunks, more, decode, generate);
    hide Run;
  }
}
