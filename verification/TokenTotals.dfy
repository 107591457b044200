/** Token totals across restarts: a database of install totals, increments waiting for it,
    and the session counters that are rendered on top of what the database held at start. */
module TokenTotals {

  /** A (model, direction) pair. */
  datatype Key = Key(model: string, direction: string)

  type Totals = map<Key, nat>

  function Get(t: Totals, k: Key): nat {
    if k in t then t[k] else 0
  }

  /** The totals of two maps, key by key. */
  function Sum(a: Totals, b: Totals): (t: Totals)
    ensures forall k :: Get(t, k) == Get(a, k) + Get(b, k)
  {
    map k | k in a.Keys + b.Keys :: Get(a, k) + Get(b, k)
  }

  function Plus(t: Totals, k: Key, n: nat): (r: Totals)
    ensures forall j :: Get(r, j) == Get(t, j) + if j == k then n else 0
  {
    t[k := Get(t, k) + n]
  }

  lemma SameTotals(a: Totals, b: Totals)
    requires a.Keys == b.Keys && forall k :: Get(a, k) == Get(b, k)
    ensures a == b
  {
    assert forall k :: k in a ==> a[k] == Get(a, k) == Get(b, k) == b[k];
  }

  /** How opening the database goes: well, or it breaks after some rows were read. */
  datatype Opening = Opens | Breaks(read: set<Key>)

  function ReadAt(disk: Totals, o: Opening): Totals {
    match o
    case Opens => disk
    case Breaks(read) => disk - (disk.Keys - read)
  }

  // --------------------------------------------------------------- whole runs

  /** What happens to the accounts; `due` and `ok` are the clock's and the disk's choices. */
  datatype Event =
    | Counted(key: Key, tokens: int, due: bool, ok: bool)
    | Flushed(ok: bool)
    | Restarted(opening: Opening)

  /** The accounts of a process on its database, with what restarts have cost so far. */
  datatype Accounts = Accounts(disk: Totals, connected: bool, pending: Totals, baseline: Totals,
                               session: Totals, lost: Totals)

  function Fresh(o: Opening): Accounts {
    Accounts(map[], o.Opens?, map[], map[], map[], map[])
  }

  function AfterFlush(a: Accounts, ok: bool): Accounts {
    if a.pending == map[] || !a.connected || !ok then a
    else a.(disk := Sum(a.disk, a.pending), pending := map[])
  }

  function Step(a: Accounts, e: Event): Accounts {
    match e
    case Counted(key, tokens, due, ok) =>
      if tokens <= 0 then a
      else
        var b := a.(pending := Plus(a.pending, key, tokens), session := Plus(a.session, key, tokens));
        if due then AfterFlush(b, ok) else b
    case Flushed(ok) => AfterFlush(a, ok)
    case Restarted(o) =>
      Accounts(a.disk, o.Opens?, map[], ReadAt(a.disk, o), map[], Sum(a.lost, a.pending))
  }

  function Run(a: Accounts, events: seq<Event>): Accounts {
    if events == [] then a
    else Step(Run(a, events[..|events| - 1]), events[|events| - 1])
  }

  // ------------------------------------------------------------ the two objects

  class Database {
    var rows: Totals
    constructor ()
      ensures rows == map[]
    {
      rows := map[];
    }
  }

  class TokenStore {
    const db: Database
    var connected: bool
    var pending: Totals
    var baseline: Totals

    /** Opening reads what is on disk, as far as it comes; a database that does not open is
        never written. */
    constructor (db: Database, o: Opening)
      ensures this.db == db && connected == o.Opens? && pending == map[]
      ensures baseline == ReadAt(db.rows, o)
    {
      this.db, connected, pending := db, o.Opens?, map[];
      baseline := ReadAt(db.rows, o);
    }

    /** One batch of upserts; a failed batch changes nothing. */
    method Flush(succeeds: bool)
      modifies this`pending, db
      ensures var written := old(pending) != map[] && connected && succeeds;
              && pending == (if written then map[] else old(pending))
              && db.rows == (if written then Sum(old(db.rows), old(pending)) else old(db.rows))
    {
      if pending == map[] || !connected { return; }
      if !succeeds { return; }
      var rows, keys := db.rows, pending.Keys;
      while keys != {}
        invariant keys <= pending.Keys && rows.Keys == db.rows.Keys + (pending.Keys - keys)
        invariant forall k :: Get(rows, k) == Get(db.rows, k) + if k in keys then 0 else Get(pending, k)
        decreases keys
      {
        var k :| k in keys;
        rows := Plus(rows, k, pending[k]);
        keys := keys - {k};
      }
      SameTotals(rows, Sum(db.rows, pending));
      db.rows := rows;
      pending := map[];
    }

    method Add(k: Key, tokens: int, due: bool, succeeds: bool)
      modifies this`pending, db
      ensures var more := if tokens <= 0 then old(pending) else Plus(old(pending), k, tokens);
              var written := tokens > 0 && due && connected && succeeds;
              && pending == (if written then map[] else more)
              && db.rows == (if written then Sum(old(db.rows), more) else old(db.rows))
    {
      if tokens <= 0 { return; }
      pending := Plus(pending, k, tokens);
      if due { Flush(succeeds); }
    }
  }

  class Metrics {
    var tokens: Totals
    var tokenBaseline: Totals

    constructor ()
      ensures tokens == map[] && tokenBaseline == map[]
    {
      tokens, tokenBaseline := map[], map[];
    }

    method IncTokens(k: Key, n: int)
      modifies this`tokens
      ensures tokens == if n > 0 then Plus(old(tokens), k, n) else old(tokens)
    {
      if n > 0 { tokens := Plus(tokens, k, n); }
    }

    /** The install totals that are rendered: baseline and session added up. */
    method Combined() returns (combined: Totals)
      ensures combined == Sum(tokenBaseline, tokens)
    {
      combined := tokenBaseline;
      var keys := tokens.Keys;
      while keys != {}
        invariant keys <= tokens.Keys && combined.Keys == tokenBaseline.Keys + (tokens.Keys - keys)
        invariant forall k :: Get(combined, k) == Get(tokenBaseline, k) + if k in keys then 0 else Get(tokens, k)
        decreases keys
      {
        var k :| k in keys;
        combined := Plus(combined, k, tokens[k]);
        keys := keys - {k};
      }
      SameTotals(combined, Sum(tokenBaseline, tokens));
    }
  }

  /** The accounts of a running process. */
  ghost function Books(store: TokenStore, metrics: Metrics, lost: Totals): Accounts
    reads store, store.db, metrics
  {
    Accounts(store.db.rows, store.connected, store.pending, metrics.tokenBaseline, metrics.tokens, lost)
  }

  /** A process starts on what its predecessor left on disk. */
  method Start(db: Database, o: Opening, ghost before: Accounts) returns (store: TokenStore, metrics: Metrics)
    requires before.disk == db.rows
    ensures fresh(store) && fresh(metrics) && store.db == db
    ensures Books(store, metrics, Sum(before.lost, before.pending)) == Step(before, Restarted(o))
  {
    store := new TokenStore(db, o);
    metrics := new Metrics();
    metrics.tokenBaseline := store.baseline;
  }

  /** One direction of one answer is counted, for the session and for the install. */
  method RecordTokens(store: TokenStore, metrics: Metrics, k: Key, tokens: int, due: bool, ok: bool,
                      ghost lost: Totals)
    modifies store`pending, store.db, metrics`tokens
    ensures Books(store, metrics, lost) == Step(old(Books(store, metrics, lost)), Counted(k, tokens, due, ok))
  {
    assert tokens > 0 ==> Plus(store.pending, k, tokens) != map[];
    hide Sum, Plus;
    if tokens > 0 {
      metrics.IncTokens(k, tokens);
      store.Add(k, tokens, due, ok);
    }
  }

  /** The store is flushed by itself when the process ends. */
  method FlushTokens(store: TokenStore, metrics: Metrics, ok: bool, ghost lost: Totals)
    modifies store`pending, store.db
    ensures Books(store, metrics, lost) == Step(old(Books(store, metrics, lost)), Flushed(ok))
  {
    hide Sum, Plus;
    store.Flush(ok);
  }

  // ---------------------------------------------------------------- conservation

  /** All that was ever counted for a key. */
  function EverCounted(events: seq<Event>, k: Key): nat {
    if events == [] then 0
    else
      var e := events[|events| - 1];
      EverCounted(events[..|events| - 1], k) + if e.Counted? && e.key == k && e.tokens > 0 then e.tokens else 0
  }

  /** The install total as rendered: what was on disk at start plus this session. */
  function Rendered(a: Accounts, k: Key): nat {
    Get(a.baseline, k) + Get(a.session, k)
  }

  /** For one key: what is on disk, waiting or lost is all that was counted, and as long as
      the database is open the rendered install total is what is on disk plus what waits. */
  ghost predicate Balanced(a: Accounts, counted: nat, k: Key) {
    && Get(a.disk, k) + Get(a.pending, k) + Get(a.lost, k) == counted
    && (if a.connected then Rendered(a, k) == Get(a.disk, k) + Get(a.pending, k)
        else Get(a.session, k) == Get(a.pending, k) && (k in a.baseline ==> a.baseline[k] == Get(a.disk, k)))
  }

  lemma FlushBalances(a: Accounts, ok: bool, counted: nat, k: Key)
    requires Balanced(a, counted, k)
    ensures Balanced(AfterFlush(a, ok), counted, k)
  {
    hide Sum;
  }

  lemma CountBalances(a: Accounts, key: Key, tokens: nat, counted: nat, k: Key)
    requires Balanced(a, counted, k)
    ensures Balanced(a.(pending := Plus(a.pending, key, tokens), session := Plus(a.session, key, tokens)),
                     counted + (if key == k then tokens else 0), k)
  {
    hide Get, Plus;
  }

  lemma RestartBalances(a: Accounts, o: Opening, counted: nat, k: Key)
    requires Balanced(a, counted, k)
    ensures Balanced(Step(a, Restarted(o)), counted, k)
  {
    hide Sum;
  }

  lemma StepBalances(a: Accounts, e: Event, counted: nat, k: Key)
    requires Balanced(a, counted, k)
    ensures Balanced(Step(a, e), counted + (if e.Counted? && e.key == k && e.tokens > 0 then e.tokens else 0), k)
  {
    hide Sum, Plus, Get, Balanced, AfterFlush;
    match e
    case Counted(key, tokens, due, ok) =>
      if tokens > 0 {
        CountBalances(a, key, tokens, counted, k);
        var b := a.(pending := Plus(a.pending, key, tokens), session := Plus(a.session, key, tokens));
        FlushBalances(b, ok, counted + (if key == k then tokens else 0), k);
      }
    case Flushed(ok) =>
      FlushBalances(a, ok, counted, k);
    case Restarted(o) =>
      RestartBalances(a, o, counted, k);
  }

  /** Nothing is counted twice and nothing disappears except what a restart finds unflushed. */
  lemma {:induction false} TotalsConserved(o: Opening, events: seq<Event>, k: Key)
    ensures Balanced(Run(Fresh(o), events), EverCounted(events, k), k)
  {
    if events != [] {
      TotalsConserved(o, events[..|events| - 1], k);
      hide Balanced, Step;
      StepBalances(Run(Fresh(o), events[..|events| - 1]), events[|events| - 1],
                   EverCounted(events[..|events| - 1], k), k);
    }
  }

  /** With the database broken the rendered total misses exactly the rows that were not read
      before it broke. */
  lemma RenderedIff(o: Opening, events: seq<Event>, k: Key)
    ensures var a := Run(Fresh(o), events);
            Rendered(a, k) == Get(a.disk, k) + Get(a.pending, k)
            <==> a.connected || Get(a.disk, k) == 0 || k in a.baseline
  {
    TotalsConserved(o, events, k);
    hide Run;
  }

  /** One token written, then a restart that finds the database broken: the token is on disk
      and not in the rendered total. */
  lemma RenderedMisses(k: Key)
    ensures var a := Run(Fresh(Opens), [Counted(k, 1, false, true), Flushed(true), Restarted(Breaks({}))]);
            Get(a.disk, k) == 1 && Rendered(a, k) == 0 && Get(a.pending, k) == 0
  {
    var c, f, r := Counted(k, 1, false, true), Flushed(true), Restarted(Breaks({}));
    RunsOut(c, f, r);
    hide Run, Sum, Plus;
    var a := Step(Fresh(Opens), c);
    assert Get(a.pending, k) == 1 && Get(map[], k) == 0;
    var b := Step(a, f);
    assert Get(b.disk, k) == 1 && b.pending == map[];
    assert Step(b, r).baseline.Keys == {};
  }

  lemma RunsOut(x: Event, y: Event, z: Event)
    ensures Run(Fresh(Opens), [x, y, z]) == Step(Step(Step(Fresh(Opens), x), y), z)
  {
    hide Step;
    RunAppend(Fresh(Opens), [], x);
    RunAppend(Fresh(Opens), [x], y);
    RunAppend(Fresh(Opens), [x, y], z);
    assert [] + [x] == [x] && [x] + [y] == [x, y] && [x, y] + [z] == [x, y, z];
  }

  lemma {:induction false} RunAppend(a: Accounts, past: seq<Event>, e: Event)
    ensures Run(a, past + [e]) == Step(Run(a, past), e)
  {
    assert (past + [e])[..|past|] == past;
  }

  /** A restart loses exactly what was waiting; a flush that succeeds first makes it lose
      nothing. */
  lemma RestartLoses(o: Opening, events: seq<Event>, reopens: Opening, k: Key)
    ensures var a := Run(Fresh(o), events);
            var b := Run(Fresh(o), events + [Restarted(reopens)]);
            Get(b.lost, k) == Get(a.lost, k) + Get(a.pending, k) && b.disk == a.disk
    ensures var a := Run(Fresh(o), events);
            var b := Run(Fresh(o), (events + [Flushed(true)]) + [Restarted(reopens)]);
            a.connected ==> Get(b.lost, k) == Get(a.lost, k)
                            && Get(b.disk, k) == Get(a.disk, k) + Get(a.pending, k)
  {
    RunAppend(Fresh(o), events, Restarted(reopens));
    RunAppend(Fresh(o), events, Flushed(true));
    RunAppend(Fresh(o), events + [Flushed(true)], Restarted(reopens));
  }

  /** A count that comes when a flush is due, and can be written, is safe: a restart straight
      behind it loses nothing. */
  lemma DueIsKept(o: Opening, events: seq<Event>, key: Key, tokens: int, reopens: Opening, k: Key)
    requires tokens > 0 && Run(Fresh(o), events).connected
    ensures var a := Run(Fresh(o), events);
            var b := Run(Fresh(o), (events + [Counted(key, tokens, true, true)]) + [Restarted(reopens)]);
            && b.lost == Sum(a.lost, map[])
            && Get(b.disk, k) == Get(a.disk, k) + Get(a.pending, k) + (if k == key then tokens else 0)
  {
    var e := Counted(key, tokens, true, true);
    RunAppend(Fresh(o), events, e);
    RunAppend(Fresh(o), events + [e], Restarted(reopens));
    hide Run, Sum, Plus;
    var a := Run(Fresh(o), events);
    assert key in Plus(a.pending, key, tokens) by { PlusHas(a.pending, key, tokens); }
  }

  lemma PlusHas(t: Totals, k: Key, n: nat)
    ensures k in Plus(t, k, n)
  {
  }

  /** The baseline of a process is what was on disk when it started, as far as it was read. */
  lemma BaselineIs(a: Accounts, o: Opening, k: Key)
    ensures var b := Step(a, Restarted(o)).baseline;
            && (k in b <==> k in a.disk && (o.Opens? || k in o.read)) && (k in b ==> b[k] == a.disk[k])
  {
    hide Sum;
  }
}
