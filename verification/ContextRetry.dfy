/** The trim and the retry loop around it, as the proxy runs them, and what follows for every
    body the upstream is ever sent. */
module ContextRetry {
  import opened Text
  import opened Trim
  import opened TrimTheorems
  import M = TokenMeter

  const TRIM_ATTEMPTS := 4

  method TrimHistory(messages: Messages, prompt: int, ctx: int, margin: int) returns (r: Option<Trimmed>)
    ensures r == TrimMessages(messages, prompt, ctx, margin)
  {
    hide KeepFrom, Within, GroupsFrom, Cost, Marker;
    if messages == [] { return None; }
    var keepHead := 0;
    while keepHead < |messages| - 1 && IsSystem(messages[keepHead])
      invariant keepHead < |messages|
      invariant HeadFrom(messages, keepHead) == Head(messages)
    {
      keepHead := keepHead + 1;
    }
    hide HeadFrom;
    var groups := TurnGroups(messages);
    var droppable := Within(groups, keepHead, |messages| - 1);
    assert keepHead == Head(messages) && droppable == Droppable(messages);
    hide Head, Droppable;
    if droppable == [] { return None; }
    var needed := prompt - (ctx - margin);
    var total := Cost(messages) - (ctx - margin);
    if total > needed { needed := total; }
    if needed <= 0 { return None; }
    assert needed == Needed(messages, prompt, ctx, margin);
    DroppableChain(messages);
    hide Needed, Chain;
    var keepFrom := DropTurns(messages, droppable, needed);
    var count := keepFrom - keepHead;
    if count <= 0 { return None; }
    return Some(Trimmed(messages[..keepHead] + [Marker(count)] + messages[keepFrom..], count));
  }

  /** Drop turns from the front until enough is gone; returns where the kept part starts. */
  method DropTurns(messages: Messages, droppable: seq<Group>, needed: int) returns (keepFrom: nat)
    requires forall g :: g in droppable ==> g.first < g.next <= |messages|
    ensures keepFrom == KeepFrom(messages, droppable, needed, 0, |messages|) && keepFrom <= |messages|
  {
    hide Cost;
    var dropped: nat := 0;
    var i := 0;
    keepFrom := |messages|;
    assert droppable[0..] == droppable;
    while i < |droppable| && dropped < needed
      invariant i <= |droppable| && keepFrom <= |messages|
      invariant forall g :: g in droppable[i..] ==> g.first < g.next <= |messages|
      invariant KeepFrom(messages, droppable[i..], needed, dropped, keepFrom)
             == KeepFrom(messages, droppable, needed, 0, |messages|)
    {
      var g := droppable[i];
      assert droppable[i..][0] == g && droppable[i..][1..] == droppable[i + 1..];
      dropped := dropped + Cost(messages[g.first..g.next]);
      keepFrom := g.next;
      i := i + 1;
    }
  }

  // ------------------------------------------------------------------ retrying

  datatype Settings = Settings(contextTrim: bool, trimMargin: int)

  /** A request body: a JSON object with or without a list of messages, or anything else. */
  datatype Body = Request(messages: Option<Messages>, maxTokens: int, maxCompletionTokens: int) | Unusable

  /** What one upstream call comes back with; an answer is countable if it is a JSON object
      that answers a chat or completion body, and a refusal may name the prompt's and the
      context's token counts. */
  datatype Reply =
    | Answer(countable: bool)
    | Refusal(status: int, counts: Option<(int, int)>)
    | Failure(status: int)

  /** Any behaviour of the upstream, call by call. */
  type Upstream = (nat, Body) -> Reply

  function Margin(body: Body, settings: Settings): int
    requires body.Request?
  {
    var asked := if body.maxTokens != 0 then body.maxTokens
                 else if body.maxCompletionTokens != 0 then body.maxCompletionTokens
                 else settings.trimMargin;
    if asked < 256 then 256 else asked
  }

  function TrimmedBody(body: Body, counts: Option<(int, int)>, settings: Settings): Option<Body> {
    if !settings.contextTrim || counts.None? || body.Unusable? || body.messages.None? then None
    else
      var r := TrimMessages(body.messages.value, counts.value.0, counts.value.1, Margin(body, settings));
      if r.None? then None else Some(body.(messages := Some(r.value.messages)))
  }

  /** What is left for the answer: the tokens the request asks for, under either name, or what
      the settings say if it asks for none, and never less than 256. */
  lemma MarginIs(body: Body, settings: Settings)
    requires body.Request?
    ensures var m, asked := Margin(body, settings), [body.maxTokens, body.maxCompletionTokens, settings.trimMargin];
            m >= 256 && exists i :: 0 <= i <= 2 && IsFirstAsked(asked, i) && asked[i] <= m && (m == asked[i] || m == 256)
  {
    var asked := [body.maxTokens, body.maxCompletionTokens, settings.trimMargin];
    assert IsFirstAsked(asked, if body.maxTokens != 0 then 0 else if body.maxCompletionTokens != 0 then 1 else 2);
  }

  /** The first of the numbers that is not 0, or the last. */
  ghost predicate IsFirstAsked(asked: seq<int>, i: int) {
    && 0 <= i < |asked| && (i < |asked| - 1 ==> asked[i] != 0)
    && forall j :: 0 <= j < i ==> asked[j] == 0
  }

  /** A refused request is sent again exactly if trimming is on, the refusal names its counts,
      the body has messages of which some turn is droppable, and by the upstream's count or by
      the estimate they exceed what the context leaves beside the margin. Nothing but the
      messages changes. */
  lemma RetriedIff(body: Body, counts: Option<(int, int)>, settings: Settings)
    ensures TrimmedBody(body, counts, settings).Some?
       <==> && settings.contextTrim && counts.Some? && body.Request? && body.messages.Some?
            && body.messages.value != [] && Droppable(body.messages.value) != []
            && var limit := counts.value.1 - Margin(body, settings);
               counts.value.0 > limit || Cost(body.messages.value) > limit
    ensures var r := TrimmedBody(body, counts, settings);
            r.Some? ==> r.value.Request? && r.value.maxTokens == body.maxTokens
                        && r.value.maxCompletionTokens == body.maxCompletionTokens
  {
    hide TrimMessages, Droppable, Cost, Margin;
    if counts.Some? && body.Request? && body.messages.Some? {
      var m := Margin(body, settings);
      var j, k := TrimDropsEnough(body.messages.value, counts.value.0, counts.value.1, m);
    }
  }

  /** With trimming off, or a body that is no request with messages, there is one call. */
  lemma SentOnce(upstream: Upstream, settings: Settings, body: Body, sent: seq<Body>)
    requires IsRequest(upstream, settings, body, sent)
    requires !settings.contextTrim || body.Unusable? || body.messages.None?
    ensures sent == [body]
  {
    NotRetried(upstream, settings, sent);
  }

  lemma NotRetried(upstream: Upstream, settings: Settings, sent: seq<Body>)
    requires sent != [] && (!settings.contextTrim || sent[0].Unusable? || sent[0].messages.None?)
    ensures |sent| > 1 ==> !Retried(upstream, settings, sent, 0)
  {
  }

  /** The bodies sent, call by call, make up one request: each follows from its predecessor's
      refusal by a trim, and the last was answered, failed, or could not be trimmed again. */
  ghost predicate IsRequest(upstream: Upstream, settings: Settings, body: Body, sent: seq<Body>) {
    && 0 < |sent| <= TRIM_ATTEMPTS && sent[0] == body
    && (forall i :: 0 <= i < |sent| - 1 ==> Retried(upstream, settings, sent, i))
    && (var n, last := |sent| - 1, sent[|sent| - 1];
        upstream(n, last).Refusal? ==>
          |sent| == TRIM_ATTEMPTS || TrimmedBody(last, upstream(n, last).counts, settings).None?)
  }

  ghost predicate Retried(upstream: Upstream, settings: Settings, sent: seq<Body>, i: int)
    requires 0 <= i < |sent| - 1
  {
    var reply := upstream(i, sent[i]);
    reply.Refusal? && TrimmedBody(sent[i], reply.counts, settings) == Some(sent[i + 1])
  }

  /** At most four upstream calls; usage is recorded once when the last gets a countable
      answer, and otherwise never. */
  method ProxyJson(upstream: Upstream, settings: Settings, body: Body)
    returns (reply: Reply, sent: seq<Body>, recorded: nat)
    ensures IsRequest(upstream, settings, body, sent)
    ensures reply == upstream(|sent| - 1, sent[|sent| - 1])
    ensures recorded == if reply.Answer? && reply.countable then 1 else 0
  {
    hide TrimmedBody;
    var current, attempt := body, 0;
    recorded := 0;
    sent := [current];
    while true
      invariant attempt < TRIM_ATTEMPTS && |sent| == attempt + 1
      invariant sent[0] == body && sent[attempt] == current
      invariant forall i :: 0 <= i < attempt ==> Retried(upstream, settings, sent, i)
      decreases TRIM_ATTEMPTS - attempt
    {
      reply := upstream(attempt, current);
      if reply.Answer? {
        if reply.countable { recorded := recorded + 1; }
        return;
      }
      if reply.Failure? || attempt == TRIM_ATTEMPTS - 1 { return; }
      var trimmed := TrimmedBody(current, reply.counts, settings);
      if trimmed.None? { return; }
      current := trimmed.value;
      ghost var before := sent;
      sent := sent + [current];
      forall i | 0 <= i < attempt + 1 ensures Retried(upstream, settings, sent, i) {
        if i < attempt { assert Retried(upstream, settings, before, i); }
      }
      attempt := attempt + 1;
    }
  }

  /** What a streaming attempt brings besides its reply: the chunks that arrive before the
      answer ends or breaks off, and whether the body it answers is one whose tokens are
      counted. */
  datatype Attempt = Attempt(chunks: seq<string>, counted: bool, input: nat)

  /** What the client of a stream is sent: chunks of the answer, and the error event. */
  datatype Piece = Chunk(bytes: string) | Problem(status: int)

  function Passing(chunks: seq<string>): seq<Piece> {
    if chunks == [] then []
    else
      var n := |chunks| - 1;
      Passing(chunks[..n]) + if chunks[n] == "" then [] else [Chunk(chunks[n])]
  }

  /** The same loop for a stream. An attempt that answers gets a meter of its own, fed with its
      chunks and asked for its counts when they end. A refused last attempt is told as an error
      event; one that breaks off, as an error event behind the chunks that have gone out, and
      it is not counted. */
  method ProxyStream(upstream: Upstream, attempts: (nat, Body) -> Attempt, settings: Settings, body: Body,
                     decode: M.Decoder)
    returns (reply: Reply, sent: seq<Body>, yielded: seq<Piece>, recorded: seq<(nat, nat)>)
    ensures IsRequest(upstream, settings, body, sent)
    ensures var n, last := |sent| - 1, sent[|sent| - 1];
            var a := attempts(n, last);
            && reply == upstream(n, last)
            && yielded == (match reply
                           case Answer(_) => Passing(a.chunks)
                           case Refusal(status, _) => [Problem(status)]
                           case Failure(status) => Passing(a.chunks) + [Problem(status)])
            && recorded == (if reply.Answer? && a.counted then [M.Recorded(Concat(a.chunks), a.input, decode)]
                            else [])
  {
    hide TrimmedBody, M.Recorded, Passing;
    var current, attempt := body, 0;
    recorded, yielded := [], [];
    sent := [current];
    while true
      invariant attempt < TRIM_ATTEMPTS && |sent| == attempt + 1
      invariant sent[0] == body && sent[attempt] == current && recorded == [] && yielded == []
      invariant forall i :: 0 <= i < attempt ==> Retried(upstream, settings, sent, i)
      decreases TRIM_ATTEMPTS - attempt
    {
      reply := upstream(attempt, current);
      if !reply.Refusal? {
        yielded, recorded := Forward(attempts(attempt, current), reply.Answer?, decode);
        if reply.Failure? { yielded := yielded + [Problem(reply.status)]; }
        return;
      }
      var trimmed := if attempt < TRIM_ATTEMPTS - 1 then TrimmedBody(current, reply.counts, settings) else None;
      if trimmed.None? {
        yielded := [Problem(reply.status)];
        return;
      }
      current := trimmed.value;
      ghost var before := sent;
      sent := sent + [current];
      forall i | 0 <= i < attempt + 1 ensures Retried(upstream, settings, sent, i) {
        if i < attempt { assert Retried(upstream, settings, before, i); }
      }
      attempt := attempt + 1;
    }
  }

  /** One answer: its non-empty chunks are passed on and metered, and if it ends well the meter
      is asked for its counts. */
  method Forward(a: Attempt, ends: bool, decode: M.Decoder)
    returns (yielded: seq<Piece>, recorded: seq<(nat, nat)>)
    ensures yielded == Passing(a.chunks)
    ensures recorded == if ends && a.counted then [M.Recorded(Concat(a.chunks), a.input, decode)] else []
  {
    hide M.Recorded, Passing, Concat;
    NothingPassed(a.chunks);
    var meter := new M.StreamTokenMeter(a.input, decode);
    yielded, recorded := [], [];
    for i := 0 to |a.chunks|
      invariant meter.Valid() && fresh(meter) && meter.input == a.input && meter.decode == decode
      invariant meter.seen == (if a.counted then Concat(a.chunks[..i]) else "")
      invariant yielded == Passing(a.chunks[..i])
    {
      var chunk := a.chunks[i];
      OneMorePassed(a.chunks, i);
      if chunk != "" {
        if a.counted { meter.Feed(chunk); }
        yielded := yielded + [Chunk(chunk)];
      }
    }
    assert a.chunks[..|a.chunks|] == a.chunks;
    if ends && a.counted {
      var prompt, completion := meter.Finish();
      recorded := [(prompt, completion)];
    }
  }

  lemma NothingPassed(chunks: seq<string>)
    ensures Passing(chunks[..0]) == [] && Concat(chunks[..0]) == ""
  {
  }

  lemma OneMorePassed(chunks: seq<string>, i: nat)
    requires i < |chunks|
    ensures Concat(chunks[..i + 1]) == Concat(chunks[..i]) + chunks[i]
    ensures chunks[i] == "" ==> Concat(chunks[..i + 1]) == Concat(chunks[..i])
    ensures Passing(chunks[..i + 1]) == Passing(chunks[..i]) + if chunks[i] == "" then [] else [Chunk(chunks[i])]
    ensures chunks[i] == "" ==> Passing(chunks[..i + 1]) == Passing(chunks[..i])
  {
    assert chunks[..i + 1][..i] == chunks[..i];
  }

  /** Nothing is lost, added or moved on the way to the client: the pieces are chunks, none of
      them empty, and together they are the answer's bytes. */
  lemma {:induction false} PassingKeeps(chunks: seq<string>)
    ensures var pieces := Passing(chunks);
            (forall x :: x in pieces ==> x.Chunk? && x.bytes != "") && Bytes(pieces) == Concat(chunks)
  {
    if chunks != [] {
      var n := |chunks| - 1;
      PassingKeeps(chunks[..n]);
      if chunks[n] == "" {
        assert Passing(chunks[..n]) + [] == Passing(chunks[..n]);
      } else {
        assert Passing(chunks)[..|Passing(chunks)| - 1] == Passing(chunks[..n]);
      }
    }
  }

  function Bytes(pieces: seq<Piece>): string {
    if pieces == [] then ""
    else
      var n := |pieces| - 1;
      Bytes(pieces[..n]) + if pieces[n].Chunk? then pieces[n].bytes else ""
  }

  // ----------------------------------------------------------- all bodies sent

  function Refusals(upstream: Upstream, settings: Settings, sent: seq<Body>, n: nat): seq<Overflow>
    requires n < |sent|
    requires forall i :: 0 <= i < n ==> Retried(upstream, settings, sent, i)
  {
    seq(n, i requires 0 <= i < n =>
      assert Retried(upstream, settings, sent, i);
      RefusalOf(upstream, settings, sent, i))
  }

  lemma {:induction false} RoundsAppend(messages: Messages, past: seq<Overflow>, last: Overflow)
    requires Rounds(messages, past).Some?
    ensures var now := Rounds(messages, past).value;
            var r := TrimMessages(now, last.prompt, last.ctx, last.margin);
            Rounds(messages, past + [last]) == if r.None? then None else Some(r.value.messages)
    decreases |past|
  {
    hide TrimMessages;
    if past == [] {
      assert [] + [last] == [last] && [last][1..] == [];
    } else {
      var o := past[0];
      assert (past + [last])[1..] == past[1..] + [last];
      RoundsAppend(TrimMessages(messages, o.prompt, o.ctx, o.margin).value.messages, past[1..], last);
    }
  }

  /** The overflow the upstream reported to the i-th call. */
  function RefusalOf(upstream: Upstream, settings: Settings, sent: seq<Body>, i: nat): Overflow
    requires i < |sent| - 1 && Retried(upstream, settings, sent, i)
  {
    var counts := upstream(i, sent[i]).counts.value;
    Overflow(counts.0, counts.1, Margin(sent[i], settings))
  }

  lemma RetryTrims(upstream: Upstream, settings: Settings, sent: seq<Body>, i: nat)
    requires i < |sent| - 1 && Retried(upstream, settings, sent, i)
    ensures sent[i].Request? && sent[i].messages.Some? && sent[i + 1].Request?
    ensures var o := RefusalOf(upstream, settings, sent, i);
            var r := TrimMessages(sent[i].messages.value, o.prompt, o.ctx, o.margin);
            r.Some? && sent[i + 1].messages == Some(r.value.messages)
  {
    hide TrimMessages;
  }

  lemma OneMoreRefusal(upstream: Upstream, settings: Settings, sent: seq<Body>, n: nat)
    requires 0 < n < |sent| && forall i :: 0 <= i < n ==> Retried(upstream, settings, sent, i)
    ensures Retried(upstream, settings, sent, n - 1)
    ensures Refusals(upstream, settings, sent, n)
         == Refusals(upstream, settings, sent, n - 1) + [RefusalOf(upstream, settings, sent, n - 1)]
  {
    assert Retried(upstream, settings, sent, n - 1);
    hide Retried, RefusalOf;
  }

  /** The messages of the n-th body sent are the original's after the refusals in between. */
  lemma {:induction false} SentAfterRounds(upstream: Upstream, settings: Settings, sent: seq<Body>, n: nat)
    requires n < |sent| && sent[0].Request? && sent[0].messages.Some?
    requires forall i :: 0 <= i < n ==> Retried(upstream, settings, sent, i)
    ensures sent[n].Request? && sent[n].messages.Some?
    ensures Rounds(sent[0].messages.value, Refusals(upstream, settings, sent, n)) == sent[n].messages
  {
    if n > 0 {
      OneMoreRefusal(upstream, settings, sent, n);
      hide *;
      SentAfterRounds(upstream, settings, sent, n - 1);
      RetryTrims(upstream, settings, sent, n - 1);
      RoundsAppend(sent[0].messages.value, Refusals(upstream, settings, sent, n - 1),
                   RefusalOf(upstream, settings, sent, n - 1));
    } else {
      assert Refusals(upstream, settings, sent, 0) == [];
    }
  }

  /** Whatever the upstream answers, no body it is sent loses the leading system block or the
      last message, puts surviving messages out of order, or orphans a tool result of a history
      that had no orphans. */
  lemma SentBodiesAreSound(upstream: Upstream, settings: Settings, body: Body, sent: seq<Body>, n: nat)
    returns (origin: seq<Option<nat>>)
    requires IsRequest(upstream, settings, body, sent) && n < |sent|
    requires body.Request? && body.messages.Some? && body.messages.value != []
    ensures sent[n].Request? && sent[n].messages.Some?
    ensures var start, now := body.messages.value, sent[n].messages.value;
            && Traces(start, now, origin) && Keeps(start, now, n)
            && (NoOrphans(start) ==> NoOrphans(now))
  {
    hide TrimMessages, NoOrphans, Rounds;
    SentAfterRounds(upstream, settings, sent, n);
    var start := body.messages.value;
    origin := RoundsKeep(start, start, Refusals(upstream, settings, sent, n), seq(|start|, i => Some(i)));
  }
}
