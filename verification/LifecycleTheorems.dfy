/** What every interleaving of manager steps, crashes and requests keeps. */
module LifecycleTheorems {
  import opened Text
  import opened Lifecycle

  // ---------------------------------------------------------------- invariant

  /** The one process that may be alive for a manager. */
  function Occupant(m: Manager): Option<Server> {
    if m.current.Some? then m.current else if m.pc.Stopping? then Some(m.pc.server) else None
  }

  /** How the lock holder's position and the current server fit together. */
  predicate Fits(m: Manager) {
    match m.pc
    case Free => m.current.Some? ==> m.current.value.state != Loading
    case Settling(_) => false
    case Stopping(_, _) => m.current.None?
    case Spawning(_) => m.current.None?
    case Probing(s) => m.current == Some(s) && s.state == Loading
  }

  /** Targets of pending launches belong to the role. */
  predicate OwnRole(registry: set<Config>, m: Manager, r: Role) {
    match m.pc
    case Spawning(cfg) => cfg.role == r && cfg in registry
    case Stopping(_, Launch(cfg)) => cfg.role == r && cfg in registry
    case _ => true
  }

  ghost predicate Occupied(w: World, r: Role) {
    var o := Occupant(Of(w, r));
    && (o.Some? ==> o.value.pid < |w.procs| && w.procs[o.value.pid].cfg == o.value.cfg && o.value.cfg.role == r)
    && (forall p :: 0 <= p < |w.procs| && w.procs[p].alive && w.procs[p].cfg.role == r ==>
          o.Some? && o.value.pid == p)
  }

  ghost predicate RoleSafe(registry: set<Config>, w: World, r: Role) {
    Fits(Of(w, r)) && OwnRole(registry, Of(w, r), r) && Occupied(w, r)
  }

  ghost predicate Safe(registry: set<Config>, w: World) {
    && (forall p :: 0 <= p < |w.procs| ==> w.procs[p].cfg in registry && (w.procs[p].alive ==> !w.procs[p].noticed))
    && (forall r :: RoleSafe(registry, w, r))
  }

  // -------------------------------------------------------------- preservation

  /** A step that changes one manager and no process need only be checked for its own role. */
  lemma OneManagerSafe(registry: set<Config>, w: World, w': World, r: Role)
    requires Safe(registry, w) && w'.procs == w.procs && RoleSafe(registry, w', r)
    requires forall q :: q != r ==> Of(w', q) == Of(w, q)
    ensures Safe(registry, w')
  {
    hide Fits, OwnRole;
    forall q ensures RoleSafe(registry, w', q) {
      assert RoleSafe(registry, w, q);
    }
  }

  /** The occupant stays, or leaves when it is no longer alive. */
  lemma OccupantLeaves(w: World, w': World, r: Role)
    requires Occupied(w, r) && w'.procs == w.procs
    requires var before, after := Occupant(Of(w, r)), Occupant(Of(w', r));
             after == before || (after == None && (before.Some? ==> !Alive(w, before.value.pid)))
    ensures Occupied(w', r)
  {
    hide Of, Occupant;
  }

  lemma BeginStopSafe(registry: set<Config>, w: World, r: Role, next: Next)
    requires Safe(registry, w) && (Of(w, r).pc == Free || Of(w, r).pc.Probing?)
    requires next.Launch? ==> next.cfg.role == r && next.cfg in registry
    ensures Safe(registry, BeginStop(w, r, next))
  {
    var w' := BeginStop(w, r, next);
    assert RoleSafe(registry, w, r);
    assert forall pid :: ExitNoticed(w, pid) ==> !Alive(w, pid);
    hide Safe, Occupied;
    Stopped(registry, w, r, next);
    hide BeginStop;
    OccupantLeaves(w, w', r);
    OneManagerSafe(registry, w, w', r);
  }

  /** What a stop does to the manager it stops. */
  lemma Stopped(registry: set<Config>, w: World, r: Role, next: Next)
    requires Fits(Of(w, r)) && (Of(w, r).pc == Free || Of(w, r).pc.Probing?)
    requires next.Launch? ==> next.cfg.role == r && next.cfg in registry
    ensures var w' := BeginStop(w, r, next);
            var m, before := Of(w', r), Occupant(Of(w, r));
            && w'.procs == w.procs && Fits(m) && OwnRole(registry, m, r)
            && (Occupant(m) == before
                || (Occupant(m) == None && (before.Some? ==> ExitNoticed(w, before.value.pid))))
    ensures forall q :: q != r ==> Of(BeginStop(w, r, next), q) == Of(w, q)
  {
  }

  lemma EnsureSafe(registry: set<Config>, w: World, cfg: Config)
    requires Safe(registry, w) && cfg in registry && Of(w, cfg.role).pc == Free
    ensures Safe(registry, DoEnsure(w, cfg))
  {
    assert RoleSafe(registry, w, cfg.role);
    hide Safe, BeginStop;
    BeginStopSafe(registry, w, cfg.role, Launch(cfg));
  }

  lemma SpawnSafe(registry: set<Config>, w: World, r: Role, succeeds: bool)
    requires Safe(registry, w) && Of(w, r).pc.Spawning?
    ensures Safe(registry, DoSpawn(w, r, Of(w, r).pc.cfg, succeeds))
  {
    var w' := DoSpawn(w, r, Of(w, r).pc.cfg, succeeds);
    assert RoleSafe(registry, w, r);
    assert RoleSafe(registry, w', r);
    hide Fits, OwnRole;
    forall q | q != r ensures RoleSafe(registry, w', q) {
      assert RoleSafe(registry, w, q) && Of(w', q) == Of(w, q);
    }
  }

  lemma StopDoneSafe(registry: set<Config>, w: World, r: Role)
    requires Safe(registry, w)
    ensures Safe(registry, Apply(registry, w, StopDone(r)))
  {
    assert RoleSafe(registry, w, r);
    OneManagerSafe(registry, w, Apply(registry, w, StopDone(r)), r);
  }

  lemma HealthySafe(registry: set<Config>, w: World, r: Role)
    requires Safe(registry, w)
    ensures Safe(registry, Apply(registry, w, Healthy(r)))
  {
    assert RoleSafe(registry, w, r);
    OneManagerSafe(registry, w, Apply(registry, w, Healthy(r)), r);
  }

  lemma ExitSafe(registry: set<Config>, w: World, pid: nat)
    requires Safe(registry, w)
    ensures Safe(registry, Apply(registry, w, Exit(pid)))
  {
    var w' := Apply(registry, w, Exit(pid));
    hide Fits, OwnRole;
    forall q ensures RoleSafe(registry, w', q) {
      assert RoleSafe(registry, w, q);
    }
  }

  lemma NoticeSafe(registry: set<Config>, w: World, pid: nat)
    requires Safe(registry, w)
    ensures Safe(registry, Apply(registry, w, NoticeExit(pid)))
  {
    var w' := Apply(registry, w, NoticeExit(pid));
    hide Fits, OwnRole;
    forall q ensures RoleSafe(registry, w', q) {
      assert RoleSafe(registry, w, q);
    }
  }

  lemma MarkFailedSafe(registry: set<Config>, w: World, r: Role)
    requires Safe(registry, w)
    ensures Safe(registry, Apply(registry, w, MarkFailed(r)))
  {
    assert RoleSafe(registry, w, r);
    OneManagerSafe(registry, w, Apply(registry, w, MarkFailed(r)), r);
  }

  lemma StepSafe(registry: set<Config>, w: World, a: Action)
    requires Safe(registry, w)
    ensures Safe(registry, Apply(registry, w, a))
  {
    match a
    case Ensure(cfg) =>
      if cfg in registry && Of(w, cfg.role).pc == Free { EnsureSafe(registry, w, cfg); }
    case Unload(r) =>
      if Of(w, r).pc == Free { BeginStopSafe(registry, w, r, Release); }
    case IdleUnload(r) =>
      if Of(w, r).pc == Free { BeginStopSafe(registry, w, r, Release); }
    case StopDone(r) => StopDoneSafe(registry, w, r);
    case Spawn(r, succeeds) =>
      if Of(w, r).pc.Spawning? { SpawnSafe(registry, w, r, succeeds); }
    case Healthy(r) => HealthySafe(registry, w, r);
    case Unhealthy(r) =>
      if Of(w, r).pc.Probing? { BeginStopSafe(registry, w, r, Release); }
    case Settled(r) => assert RoleSafe(registry, w, r);
    case Exit(pid) => ExitSafe(registry, w, pid);
    case NoticeExit(pid) => NoticeSafe(registry, w, pid);
    case MarkFailed(r) => MarkFailedSafe(registry, w, r);
  }

  lemma {:induction false} RunSafe(registry: set<Config>, actions: seq<Action>)
    ensures Safe(registry, Run(registry, actions))
  {
    if actions == [] {
      assert forall r :: Of(START, r) == Manager(None, Free);
    } else {
      RunSafe(registry, actions[..|actions| - 1]);
      hide Safe, Apply;
      StepSafe(registry, Run(registry, actions[..|actions| - 1]), actions[|actions| - 1]);
    }
  }

  // ------------------------------------------------------------------ theorems

  /** A registry that passed the check. */
  ghost predicate AddressesApart(registry: set<Config>) {
    forall a, b :: a in registry && b in registry && SameAddress(a, b) ==> a.role == b.role
  }

  lemma AcceptedApart(configs: seq<Config>)
    requires Acceptable(configs)
    ensures AddressesApart(set c | c in configs)
  {
    forall a, b | a in configs && b in configs && SameAddress(a, b) ensures a.role == b.role {
      var i :| 0 <= i < |configs| && configs[i] == a;
      var j :| 0 <= j < |configs| && configs[j] == b;
      if i > j { assert SameAddress(configs[j], configs[i]); }
    }
  }

  /** In every interleaving, a role never has two live processes, and no two live processes
      share a listen address. */
  lemma SingleOccupancy(registry: set<Config>, actions: seq<Action>, p: nat, q: nat)
    requires AddressesApart(registry)
    requires Alive(Run(registry, actions), p) && Alive(Run(registry, actions), q) && p != q
    ensures var procs := Run(registry, actions).procs;
            procs[p].cfg.role != procs[q].cfg.role && !SameAddress(procs[p].cfg, procs[q].cfg)
  {
    RunSafe(registry, actions);
    hide Run;
    var w := Run(registry, actions);
    assert RoleSafe(registry, w, w.procs[p].cfg.role);
  }

  /** While the lock is free no server is loading: the branches that wait for another coroutine's
      load are never taken. */
  lemma NeverLoadingWhenFree(registry: set<Config>, actions: seq<Action>, r: Role)
    ensures var m := Of(Run(registry, actions), r);
            && !m.pc.Settling?
            && (m.pc == Free && m.current.Some? ==> m.current.value.state != Loading)
  {
    RunSafe(registry, actions);
    assert RoleSafe(registry, Run(registry, actions), r);
  }

  // ------------------------------------------------------------------- events

  /** The last load or unload event of a role. */
  function LastChange(log: seq<Event>, r: Role): Option<Event> {
    if log == [] then None
    else
      var e := log[|log| - 1];
      if e.role == r && !e.Died? then Some(e) else LastChange(log[..|log| - 1], r)
  }

  /** Loads of live servers, less unloads and deaths of ready ones. */
  function Balance(log: seq<Event>, r: Role): int {
    if log == [] then 0
    else
      var e := log[|log| - 1];
      Balance(log[..|log| - 1], r)
      + (if e.role != r then 0 else match e case Loaded(_, _, live) => if live then 1 else 0 case _ => -1)
  }

  /** Every unload event follows the load of the same model, with no other load or unload of
      that role between them. */
  ghost predicate Paired(log: seq<Event>) {
    forall i :: 0 <= i < |log| && log[i].Unloaded? ==>
      LastChange(log[..i], log[i].role) == Some(Loaded(log[i].role, log[i].model, true))
  }

  /** A ready server the log should know about: current and not known to have exited, or just
      being stopped. */
  function ReadyServer(w: World, r: Role): Option<Server> {
    var m := Of(w, r);
    if m.current.Some? && m.current.value.state == Ready && !ExitNoticed(w, m.current.value.pid) then m.current
    else if m.pc.Stopping? && m.pc.server.state == Ready then Some(m.pc.server)
    else None
  }

  ghost predicate Told(w: World, r: Role) {
    var s := ReadyServer(w, r);
    && Balance(w.log, r) == (if s.Some? then 1 else 0)
    && (s.Some? ==> LastChange(w.log, r) == Some(Loaded(r, s.value.cfg.name, true)))
  }

  ghost predicate AllTold(w: World) {
    Paired(w.log) && forall r :: Told(w, r)
  }

  lemma LogStep(log: seq<Event>, e: Event)
    ensures forall r :: LastChange(log + [e], r) == if e.role == r && !e.Died? then Some(e) else LastChange(log, r)
    ensures forall r :: Balance(log + [e], r)
              == Balance(log, r) + (if e.role != r then 0 else if e.Loaded? then (if e.live then 1 else 0) else -1)
    ensures Paired(log) && (e.Unloaded? ==> LastChange(log, e.role) == Some(Loaded(e.role, e.model, true)))
            ==> Paired(log + [e])
  {
    var more := log + [e];
    assert more[..|log|] == log;
    forall i | 0 <= i < |log| ensures more[..i] == log[..i] {
    }
  }

  lemma BeginStopTold(registry: set<Config>, w: World, r: Role, next: Next)
    requires Safe(registry, w) && AllTold(w) && (Of(w, r).pc == Free || Of(w, r).pc.Probing?)
    ensures AllTold(BeginStop(w, r, next))
  {
    assert Fits(Of(w, r)) by { assert RoleSafe(registry, w, r); }
    hide *;
    StillReady(w, r, next);
    NothingLogged(w, BeginStop(w, r, next));
  }

  /** A server that is being stopped is ready until it is gone. */
  lemma StillReady(w: World, r: Role, next: Next)
    requires Fits(Of(w, r)) && (Of(w, r).pc == Free || Of(w, r).pc.Probing?)
    ensures var w' := BeginStop(w, r, next);
            w'.log == w.log && forall q :: ReadyServer(w', q) == ReadyServer(w, q)
  {
    var w' := BeginStop(w, r, next);
    assert ReadyServer(w', r) == ReadyServer(w, r);
    assert forall q :: q != r ==> Of(w', q) == Of(w, q);
  }

  lemma NothingLogged(w: World, w': World)
    requires AllTold(w) && w'.log == w.log && forall q :: ReadyServer(w', q) == ReadyServer(w, q)
    ensures AllTold(w')
  {
    hide Paired, LastChange, Balance, ReadyServer;
    forall q ensures Told(w', q) {
      assert Told(w, q);
    }
  }

  /** A logged event concerns its own role only. */
  lemma LoggedTold(w: World, w': World, e: Event)
    requires AllTold(w) && w'.log == w.log + [e]
    requires e.Unloaded? ==> LastChange(w.log, e.role) == Some(Loaded(e.role, e.model, true))
    requires forall q :: q != e.role ==> ReadyServer(w', q) == ReadyServer(w, q)
    requires var s := ReadyServer(w', e.role);
             && Balance(w.log + [e], e.role) == (if s.Some? then 1 else 0)
             && (s.Some? ==> LastChange(w.log + [e], e.role) == Some(Loaded(e.role, s.value.cfg.name, true)))
    ensures AllTold(w')
  {
    LogStep(w.log, e);
    hide Paired, LastChange, Balance, ReadyServer;
    forall q ensures Told(w', q) {
      assert Told(w, q);
    }
  }

  lemma OthersReady(w: World, w': World, r: Role)
    requires w'.procs == w.procs && forall q :: q != r ==> Of(w', q) == Of(w, q)
    ensures forall q :: q != r ==> ReadyServer(w', q) == ReadyServer(w, q)
  {
  }

  lemma StopDoneTold(registry: set<Config>, w: World, r: Role)
    requires Safe(registry, w) && AllTold(w)
    ensures AllTold(Apply(registry, w, StopDone(r)))
  {
    assert Told(w, r) && Fits(Of(w, r)) by { assert RoleSafe(registry, w, r); }
    hide Safe, RoleSafe, Paired, LastChange, Balance;
    var m, w' := Of(w, r), Apply(registry, w, StopDone(r));
    if m.pc.Stopping? && !Alive(w, m.pc.server.pid) {
      var s := m.pc.server;
      OthersReady(w, w', r);
      assert ReadyServer(w', r) == None;
      hide With, Of, Alive;
      if s.state == Ready {
        LogStep(w.log, Unloaded(r, s.cfg.name));
        LoggedTold(w, w', Unloaded(r, s.cfg.name));
      } else {
        QuietTold(w, w');
      }
    }
  }

  lemma HealthyTold(registry: set<Config>, w: World, r: Role)
    requires Safe(registry, w) && AllTold(w)
    ensures AllTold(Apply(registry, w, Healthy(r)))
  {
    assert Told(w, r) && Fits(Of(w, r)) by { assert RoleSafe(registry, w, r); }
    hide Safe, RoleSafe, Paired, LastChange, Balance;
    var m := Of(w, r);
    if m.pc.Probing? {
      var e := Loaded(r, m.pc.server.cfg.name, !ExitNoticed(w, m.pc.server.pid));
      var w' := Apply(registry, w, Healthy(r));
      OthersReady(w, w', r);
      assert ReadyServer(w, r) == None;
      assert ReadyServer(w', r) == if e.live then Some(m.pc.server.(state := Ready)) else None;
      hide ReadyServer;
      LogStep(w.log, e);
      LoggedTold(w, w', e);
    }
  }

  lemma NoticeTold(registry: set<Config>, w: World, pid: nat)
    requires Safe(registry, w) && AllTold(w)
    ensures AllTold(Apply(registry, w, NoticeExit(pid)))
  {
    var w' := Apply(registry, w, NoticeExit(pid));
    if pid < |w.procs| && !w.procs[pid].alive && !w.procs[pid].noticed {
      NoticeApart(registry, w, pid);
      var r := w.procs[pid].cfg.role;
      assert RoleSafe(registry, w, r) && Told(w, r);
      hide Safe, RoleSafe, Paired, LastChange, Balance;
      if w'.log == w.log {
        QuietTold(w, w');
      } else {
        var e := Died(r, w.procs[pid].cfg.name);
        LogStep(w.log, e);
        LoggedTold(w, w', e);
      }
    }
  }

  /** An exit that becomes known matters to the role's own ready server only. */
  lemma NoticeApart(registry: set<Config>, w: World, pid: nat)
    requires Safe(registry, w) && pid < |w.procs|
    ensures var w' := DoNotice(w, pid);
            var r := w.procs[pid].cfg.role;
            && (forall q :: q != r ==> ReadyServer(w', q) == ReadyServer(w, q))
            && (w'.log == w.log ==> ReadyServer(w', r) == ReadyServer(w, r))
            && (w'.log != w.log ==> w'.log == w.log + [Died(r, w.procs[pid].cfg.name)] && ReadyServer(w', r) == None)
            && (w'.log != w.log && !w.procs[pid].noticed ==> ReadyServer(w, r).Some?)
  {
    var w' := DoNotice(w, pid);
    forall q ensures q != w.procs[pid].cfg.role || w'.log == w.log ==> ReadyServer(w', q) == ReadyServer(w, q) {
      assert RoleSafe(registry, w, q);
    }
    assert RoleSafe(registry, w, w.procs[pid].cfg.role);
  }

  /** Steps that neither log anything nor change which ready servers there are. */
  lemma QuietTold(w: World, w': World)
    requires AllTold(w) && w'.log == w.log && forall r :: ReadyServer(w', r) == ReadyServer(w, r)
    ensures AllTold(w')
  {
    hide Paired, LastChange, Balance;
    forall q ensures Told(w', q) {
      assert Told(w, q);
    }
  }

  lemma QuietSteps(registry: set<Config>, w: World, a: Action)
    requires Safe(registry, w) && (a.Spawn? || a.Exit? || a.MarkFailed?)
    ensures var w' := Apply(registry, w, a);
            w'.log == w.log && forall r :: ReadyServer(w', r) == ReadyServer(w, r)
  {
    var w' := Apply(registry, w, a);
    forall r ensures ReadyServer(w', r) == ReadyServer(w, r) {
      assert RoleSafe(registry, w, r);
    }
  }

  lemma StepTold(registry: set<Config>, w: World, a: Action)
    requires Safe(registry, w) && AllTold(w)
    ensures AllTold(Apply(registry, w, a))
  {
    match a
    case Ensure(cfg) =>
      if cfg in registry && Of(w, cfg.role).pc == Free {
        assert RoleSafe(registry, w, cfg.role);
        BeginStopTold(registry, w, cfg.role, Launch(cfg));
      }
    case Unload(r) =>
      if Of(w, r).pc == Free { BeginStopTold(registry, w, r, Release); }
    case IdleUnload(r) =>
      if Of(w, r).pc == Free { BeginStopTold(registry, w, r, Release); }
    case StopDone(r) => StopDoneTold(registry, w, r);
    case Healthy(r) => HealthyTold(registry, w, r);
    case Unhealthy(r) =>
      if Of(w, r).pc.Probing? { BeginStopTold(registry, w, r, Release); }
    case Settled(r) => assert RoleSafe(registry, w, r);
    case NoticeExit(pid) => NoticeTold(registry, w, pid);
    case _ =>
      QuietSteps(registry, w, a);
      QuietTold(w, Apply(registry, w, a));
  }

  lemma {:induction false} RunTold(registry: set<Config>, actions: seq<Action>)
    ensures AllTold(Run(registry, actions))
  {
    if actions == [] {
      assert forall r :: Of(START, r) == Manager(None, Free);
    } else {
      var past := actions[..|actions| - 1];
      RunTold(registry, past);
      RunSafe(registry, past);
      hide Safe, AllTold, Apply;
      StepTold(registry, Run(registry, past), actions[|actions| - 1]);
    }
  }

  /** A live server that is ready is current. */
  predicate LiveReady(w: World, r: Role) {
    var c := Of(w, r).current;
    c.Some? && c.value.state == Ready && Alive(w, c.value.pid)
  }

  /** A ready server is current that has exited without anyone having noticed yet. */
  predicate ExitUnnoticed(w: World, r: Role) {
    var c := Of(w, r).current;
    c.Some? && c.value.state == Ready && !Alive(w, c.value.pid) && !ExitNoticed(w, c.value.pid)
  }

  /** The event stream never lies: every unload pairs with the load before it, and at a
      lock-free point the loads of live servers exceed unloads and deaths by one exactly when
      a ready server is current whose exit is not known. So they say whether a live ready
      server is current exactly when no exit waits to be noticed. */
  lemma EventsTellTheTruth(registry: set<Config>, actions: seq<Action>, r: Role)
    ensures var w := Run(registry, actions);
            var m := Of(w, r);
            && Paired(w.log)
            && (m.pc == Free ==>
                  Balance(w.log, r)
                  == if m.current.Some? && m.current.value.state == Ready
                        && !ExitNoticed(w, m.current.value.pid) then 1 else 0)
            && (m.pc == Free ==>
                  (Balance(w.log, r) == (if LiveReady(w, r) then 1 else 0) <==> !ExitUnnoticed(w, r)))
  {
    RunTold(registry, actions);
    RunSafe(registry, actions);
    hide Paired, Balance, Run;
    var w := Run(registry, actions);
    assert Told(w, r);
    assert forall pid :: ExitNoticed(w, pid) ==> !Alive(w, pid);
  }

  /** A ready server's exit that has not been noticed: the events still count it. */
  lemma ExitGoesUnnoticed(registry: set<Config>, cfg: Config)
    requires cfg in registry
    ensures var r := cfg.role;
            var w := Run(registry, [Ensure(cfg), Spawn(r, true), Healthy(r), Exit(0)]);
            Of(w, r).pc == Free && ExitUnnoticed(w, r) && Balance(w.log, r) == 1
  {
    var r := cfg.role;
    var past := [Ensure(cfg), Spawn(r, true), Healthy(r)];
    FirstLoad(registry, cfg);
    RunOne(registry, past, Exit(0));
    var log := [Loaded(r, cfg.name, true)];
    assert Balance(log, r) == 1 by { assert log[..0] == []; }
    hide Run, Balance;
    assert Of(Run(registry, past), r) == Manager(Some(Server(0, cfg, Ready)), Free);
  }

  /** A model is loaded for the first time. */
  lemma FirstLoad(registry: set<Config>, cfg: Config)
    requires cfg in registry
    ensures var r := cfg.role;
            Run(registry, [Ensure(cfg), Spawn(r, true), Healthy(r)])
            == World([Proc(cfg, true, false)], map[r := Manager(Some(Server(0, cfg, Ready)), Free)],
                     [Loaded(r, cfg.name, true)])
  {
    var r := cfg.role;
    RunOne(registry, [], Ensure(cfg));
    RunOne(registry, [Ensure(cfg)], Spawn(r, true));
    RunOne(registry, [Ensure(cfg), Spawn(r, true)], Healthy(r));
    hide Run;
    Launching(registry, cfg);
    hide Apply;
    Probed(registry, cfg);
  }

  lemma Launching(registry: set<Config>, cfg: Config)
    requires cfg in registry
    ensures Apply(registry, START, Ensure(cfg)) == World([], map[cfg.role := Manager(None, Spawning(cfg))], [])
  {
  }

  lemma Probed(registry: set<Config>, cfg: Config)
    ensures var r, s := cfg.role, Server(0, cfg, Loading);
            var w := World([], map[r := Manager(None, Spawning(cfg))], []);
            var w' := World([Proc(cfg, true, false)], map[r := Manager(Some(s), Probing(s))], []);
            && Apply(registry, w, Spawn(r, true)) == w'
            && Apply(registry, w', Healthy(r))
               == World(w'.procs, map[r := Manager(Some(s.(state := Ready)), Free)], [Loaded(r, cfg.name, true)])
  {
    hide BeginStop, DoEnsure, DoNotice;
  }

  lemma RunOne(registry: set<Config>, past: seq<Action>, a: Action)
    ensures Run(registry, past + [a]) == Apply(registry, Run(registry, past), a)
    ensures past == [] ==> past + [a] == [a] && Run(registry, past) == START
    ensures |past| == 1 ==> past + [a] == [past[0], a]
    ensures |past| == 2 ==> past + [a] == [past[0], past[1], a]
    ensures |past| == 3 ==> past + [a] == [past[0], past[1], past[2], a]
  {
    hide Apply;
    assert (past + [a])[..|past|] == past;
  }

  // ------------------------------------------------- the model that was asked for

  /** The current server will do for the request: it is ready and has the model's name, or for
      embeddings it is ready and its exit is not known. */
  predicate WillDo(w: World, cfg: Config) {
    var c := Of(w, cfg.role).current;
    && c.Some? && c.value.state == Ready
    && (if cfg.role == Embedding then !ExitNoticed(w, c.value.pid) else c.value.cfg.name == cfg.name)
  }

  /** Where a manager stands that is working for a request: on the way to a server with that
      configuration, or to none because a launch or a probe failed. */
  predicate Serves(m: Manager, cfg: Config) {
    match m.pc
    case Free => m.current.None? || (m.current.value.cfg == cfg && m.current.value.state == Ready)
    case Settling(_) => false
    case Stopping(_, Launch(c)) => c == cfg
    case Stopping(_, Release) => true
    case Spawning(c) => c == cfg
    case Probing(s) => s.cfg == cfg
  }

  /** A request leaves everything as it is exactly if the current server will do. */
  lemma EnsureServes(registry: set<Config>, w: World, cfg: Config)
    requires Safe(registry, w) && cfg in registry && Of(w, cfg.role).pc == Free
    ensures var w' := Apply(registry, w, Ensure(cfg));
            && (w' == w <==> WillDo(w, cfg))
            && (w' != w ==> Of(w', cfg.role).pc != Free && Serves(Of(w', cfg.role), cfg))
  {
    assert RoleSafe(registry, w, cfg.role);
    var m := Of(w, cfg.role);
    assert m.current.Some? ==> m.current.value.state != Loading;
    assert Apply(registry, w, Ensure(cfg)) == DoEnsure(w, cfg);
    hide Safe, RoleSafe, Apply;
    StopStarts(w, cfg.role, Launch(cfg));
    hide BeginStop;
  }

  lemma StopStarts(w: World, r: Role, next: Next)
    requires next.Launch?
    ensures var m := Of(BeginStop(w, r, next), r);
            m.pc != Free && (m.pc == Spawning(next.cfg) || (m.pc.Stopping? && m.pc.next == next))
  {
  }

  /** Other roles' steps leave a manager alone, and its own steps go on with the request. */
  lemma StepServes(registry: set<Config>, w: World, a: Action, r: Role, cfg: Config)
    requires Safe(registry, w) && Of(w, r).pc != Free && Serves(Of(w, r), cfg)
    ensures Serves(Of(Apply(registry, w, a), r), cfg)
  {
    assert RoleSafe(registry, w, r);
    if a.Settled? { assert RoleSafe(registry, w, a.role); }
    assert a.Settled? ==> !Of(w, a.role).pc.Settling?;
    assert Fits(Of(w, r));
    hide Safe, RoleSafe, OwnRole, Occupied;
    hide DoEnsure, DoNotice, BeginStop;
    match a
    case Ensure(c) => EnsureElsewhere(w, c, r);
    case Unload(q) => StopServes(w, q, r, cfg);
    case IdleUnload(q) => StopServes(w, q, r, cfg);
    case Unhealthy(q) => StopServes(w, q, r, cfg);
    case NoticeExit(pid) => if pid < |w.procs| { NoticeElsewhere(w, pid, r); }
    case _ =>
  }

  lemma StopServes(w: World, q: Role, r: Role, cfg: Config)
    ensures var m := Of(BeginStop(w, q, Release), r);
            if q == r then Serves(m, cfg) else m == Of(w, r)
  {
  }

  lemma NoticeElsewhere(w: World, pid: nat, r: Role)
    requires pid < |w.procs|
    ensures Of(DoNotice(w, pid), r) == Of(w, r)
  {
  }

  lemma EnsureElsewhere(w: World, c: Config, r: Role)
    ensures c.role != r ==> Of(DoEnsure(w, c), r) == Of(w, r)
  {
  }

  /** From a request that the current server will not do for, until the lock is free again: the
      manager works for this request, and in the end the current server is none or a ready one
      with the configuration asked for. */
  lemma {:induction false} RequestServed(registry: set<Config>, past: seq<Action>, cfg: Config, more: seq<Action>)
    requires cfg in registry && Of(Run(registry, past), cfg.role).pc == Free && !WillDo(Run(registry, past), cfg)
    requires forall i :: 0 <= i < |more| ==> Of(Run(registry, past + [Ensure(cfg)] + more[..i]), cfg.role).pc != Free
    ensures Serves(Of(Run(registry, past + [Ensure(cfg)] + more), cfg.role), cfg)
    decreases |more|
  {
    hide *;
    var asked := past + [Ensure(cfg)];
    if more == [] {
      FirstServes(registry, past, cfg);
      assert asked + [] == asked;
    } else {
      var n := |more| - 1;
      Shorter(more, n);
      RequestServed(registry, past, cfg, more[..n]);
      RunSafe(registry, asked + more[..n]);
      RunMore(registry, asked + more[..n], more[n]);
      Assoc(asked, more[..n], [more[n]]);
      StepServes(registry, Run(registry, asked + more[..n]), more[n], cfg.role, cfg);
    }
  }

  lemma Shorter(more: seq<Action>, n: nat)
    requires n + 1 == |more|
    ensures more == more[..n] + [more[n]] && forall i :: 0 <= i < n ==> more[..n][..i] == more[..i]
  {
  }

  lemma FirstServes(registry: set<Config>, past: seq<Action>, cfg: Config)
    requires cfg in registry && Of(Run(registry, past), cfg.role).pc == Free && !WillDo(Run(registry, past), cfg)
    ensures Serves(Of(Run(registry, past + [Ensure(cfg)]), cfg.role), cfg)
  {
    hide *;
    RunSafe(registry, past);
    RunMore(registry, past, Ensure(cfg));
    EnsureServes(registry, Run(registry, past), cfg);
  }

  lemma RunMore(registry: set<Config>, past: seq<Action>, a: Action)
    ensures Run(registry, past + [a]) == Apply(registry, Run(registry, past), a)
  {
    hide Apply;
    assert (past + [a])[..|past|] == past;
  }

  /** What happens between a request and its end: the old server, if there is one, exits when it
      is signalled. */
  function OldPid(w: World, r: Role): nat {
    if Of(w, r).current.Some? then Of(w, r).current.value.pid else |w.procs|
  }

  /** If the old server stops, the launch succeeds and the new one answers, the new one is
      current, alive and ready, with the configuration asked for. */
  lemma SwapHappens(registry: set<Config>, w: World, cfg: Config)
    requires Safe(registry, w) && cfg in registry && Of(w, cfg.role).pc == Free && !WillDo(w, cfg)
    ensures var r := cfg.role;
            var stopped := Apply(registry, Apply(registry, Apply(registry, w, Ensure(cfg)), Exit(OldPid(w, r))), StopDone(r));
            var w' := Apply(registry, Apply(registry, stopped, Spawn(r, true)), Healthy(r));
            var m := Of(w', r);
            && m.pc == Free && m.current == Some(Server(|w.procs|, cfg, Ready)) && Alive(w', |w.procs|)
            && Of(stopped, r) == Manager(None, Spawning(cfg)) && !Alive(stopped, OldPid(w, r))
  {
    var r := cfg.role;
    var asked := Apply(registry, w, Ensure(cfg));
    StopsOld(registry, w, cfg);
    var stopped := Apply(registry, Apply(registry, asked, Exit(OldPid(w, r))), StopDone(r));
    hide Safe, WillDo, OldPid;
    Launches(registry, stopped, cfg);
  }

  lemma StopsOld(registry: set<Config>, w: World, cfg: Config)
    requires Safe(registry, w) && cfg in registry && Of(w, cfg.role).pc == Free && !WillDo(w, cfg)
    ensures var r := cfg.role;
            var stopped := Apply(registry, Apply(registry, Apply(registry, w, Ensure(cfg)), Exit(OldPid(w, r))), StopDone(r));
            && Of(stopped, r) == Manager(None, Spawning(cfg)) && |stopped.procs| == |w.procs|
            && !Alive(stopped, OldPid(w, r))
  {
    assert RoleSafe(registry, w, cfg.role);
    assert forall pid :: ExitNoticed(w, pid) ==> !Alive(w, pid);
    hide Safe, OwnRole, Occupied;
  }

  lemma Launches(registry: set<Config>, w: World, cfg: Config)
    requires Of(w, cfg.role) == Manager(None, Spawning(cfg))
    ensures var r := cfg.role;
            var w' := Apply(registry, Apply(registry, w, Spawn(r, true)), Healthy(r));
            && Of(w', r) == Manager(Some(Server(|w.procs|, cfg, Ready)), Free) && Alive(w', |w.procs|)
  {
    hide BeginStop, DoEnsure, DoNotice;
  }

  /** An unload, asked for or for idleness, ends with no server: nothing is left running that
      the manager knew. An idle one concerns only a ready server. */
  lemma UnloadEnds(registry: set<Config>, w: World, r: Role)
    requires Safe(registry, w) && Of(w, r).pc == Free
    ensures var w' := Apply(registry, Apply(registry, Apply(registry, w, Unload(r)), Exit(OldPid(w, r))), StopDone(r));
            Of(w', r) == Manager(None, Free) && !Alive(w', OldPid(w, r))
    ensures var c := Of(w, r).current;
            Apply(registry, w, IdleUnload(r))
            == if c.Some? && c.value.state == Ready then Apply(registry, w, Unload(r)) else w
  {
    assert RoleSafe(registry, w, r);
    assert forall pid :: ExitNoticed(w, pid) ==> !Alive(w, pid);
    hide Safe, OwnRole, Occupied;
  }

  /** A probe that fails ends without a server, like an unload. */
  lemma ProbeFails(registry: set<Config>, w: World, r: Role)
    requires Safe(registry, w) && Of(w, r).pc.Probing?
    ensures var w' := Apply(registry, Apply(registry, Apply(registry, w, Unhealthy(r)), Exit(OldPid(w, r))), StopDone(r));
            Of(w', r) == Manager(None, Free) && !Alive(w', OldPid(w, r))
  {
    assert RoleSafe(registry, w, r);
    assert forall pid :: ExitNoticed(w, pid) ==> !Alive(w, pid);
    hide Safe, OwnRole, Occupied;
  }

  /** A server that exits is told of once that is noticed; once it is marked as failed, no request
      is answered by it any more. */
  lemma CrashIsReplaced(registry: set<Config>, w: World, r: Role, cfg: Config)
    requires Safe(registry, w) && Of(w, r).current.Some? && Of(w, r).current.value.state == Ready && cfg.role == r
    requires Alive(w, Of(w, r).current.value.pid)
    ensures var s := Of(w, r).current.value;
            var seen := Apply(registry, Apply(registry, w, Exit(s.pid)), NoticeExit(s.pid));
            var w' := Apply(registry, seen, MarkFailed(r));
            && seen.log == w.log + [Died(r, s.cfg.name)] && ExitNoticed(seen, s.pid) && !Alive(w', s.pid)
            && Of(w', r).current == Some(s.(state := Failed)) && !WillDo(w', cfg)
  {
    assert RoleSafe(registry, w, r);
    hide Safe, OwnRole, BeginStop, DoEnsure;
  }

  /** A launch that fails leaves no server and gives the lock back. */
  lemma LaunchFails(registry: set<Config>, w: World, r: Role)
    requires Of(w, r).pc.Spawning?
    ensures var w' := Apply(registry, w, Spawn(r, false));
            Of(w', r) == Manager(None, Free) && w'.procs == w.procs && w'.log == w.log
  {
    hide BeginStop, DoEnsure, DoNotice;
  }
}
