/** Backend processes and the managers that start, watch and stop them, one per role, as a
    step system: between two awaits a manager does one step, and requests, idle unloads,
    health answers, failures and crashes interleave in any order. */
module Lifecycle {
  import opened Text

  datatype Role = Chat | Tts | Asr | Image | Music | Embedding

  datatype Config = Config(name: string, role: Role, host: string, port: int)

  predicate SameAddress(a: Config, b: Config) {
    a.host == b.host && a.port == b.port
  }

  // ----------------------------------------------------------------- registry

  /** Names are unique, and a listen address may repeat only inside one role. */
  ghost predicate Acceptable(configs: seq<Config>) {
    forall i, j :: 0 <= i < j < |configs| ==>
      && configs[i].name != configs[j].name
      && (SameAddress(configs[i], configs[j]) ==> configs[i].role == configs[j].role)
  }

  /** The registry's check, config by config; the role last seen at an address stands for all
      of them. */
  method Reload(configs: seq<Config>) returns (accepted: bool)
    ensures accepted <==> Acceptable(configs)
  {
    hide Address;
    assert Acceptable(configs[..0]);
    hide Acceptable;
    var names: set<string> := {};
    var roles: map<(string, int), Role> := map[];
    for i := 0 to |configs|
      invariant Acceptable(configs[..i])
      invariant names == set k | 0 <= k < i :: configs[k].name
      invariant roles.Keys == set k | 0 <= k < i :: Address(configs[k])
      invariant forall k :: 0 <= k < i ==> roles[Address(configs[k])] == configs[k].role
    {
      var c := configs[i];
      if c.name in names || (Address(c) in roles && roles[Address(c)] != c.role) {
        Clash(configs, i);
        return false;
      }
      AcceptOne(configs, i);
      names := names + {c.name};
      roles := roles[Address(c) := c.role];
    }
    assert configs[..|configs|] == configs;
    return true;
  }

  function Address(c: Config): (string, int) {
    (c.host, c.port)
  }

  lemma Clash(configs: seq<Config>, i: nat)
    requires i < |configs|
    requires exists k :: 0 <= k < i && (configs[k].name == configs[i].name
               || (Address(configs[k]) == Address(configs[i]) && configs[k].role != configs[i].role))
    ensures !Acceptable(configs)
  {
  }

  lemma AcceptOne(configs: seq<Config>, i: nat)
    requires i < |configs| && Acceptable(configs[..i])
    requires forall k :: 0 <= k < i ==> configs[k].name != configs[i].name
    requires forall k :: 0 <= k < i && Address(configs[k]) == Address(configs[i]) ==> configs[k].role == configs[i].role
    ensures Acceptable(configs[..i + 1])
  {
    var more := configs[..i + 1];
    assert forall k :: 0 <= k < i ==> more[k] == configs[..i][k];
  }

  // -------------------------------------------------------------------- state

  /** A backend process; its exit is noticed (its return code known) some time after it. */
  datatype Proc = Proc(cfg: Config, alive: bool, noticed: bool)

  datatype ServerState = Loading | Ready | Failed

  datatype Server = Server(pid: nat, cfg: Config, state: ServerState)

  /** What follows once the current server is out of the way. */
  datatype Next = Release | Launch(cfg: Config)

  /** Where the coroutine that holds the manager's lock stands. */
  datatype Pc =
    | Free
    | Settling(target: Config)
    | Stopping(server: Server, next: Next)
    | Spawning(cfg: Config)
    | Probing(server: Server)

  datatype Manager = Manager(current: Option<Server>, pc: Pc)

  datatype Event =
    | Loaded(role: Role, model: string, live: bool)
    | Unloaded(role: Role, model: string)
    | Died(role: Role, model: string)

  datatype World = World(procs: seq<Proc>, managers: map<Role, Manager>, log: seq<Event>)

  const START := World([], map[], [])

  function Of(w: World, r: Role): Manager {
    if r in w.managers then w.managers[r] else Manager(None, Free)
  }

  function With(w: World, r: Role, m: Manager): World {
    w.(managers := w.managers[r := m])
  }

  predicate ExitNoticed(w: World, pid: nat) {
    pid < |w.procs| && w.procs[pid].noticed
  }

  predicate Alive(w: World, pid: nat) {
    pid < |w.procs| && w.procs[pid].alive
  }

  // -------------------------------------------------------------------- steps

  datatype Action =
    | Ensure(cfg: Config)
    | Unload(role: Role)
    | IdleUnload(role: Role)
    | StopDone(role: Role)
    | Spawn(role: Role, succeeds: bool)
    | Healthy(role: Role)
    | Unhealthy(role: Role)
    | Settled(role: Role)
    | Exit(pid: nat)
    | NoticeExit(pid: nat)
    | MarkFailed(role: Role)

  function Proceed(next: Next): Pc {
    match next
    case Release => Free
    case Launch(cfg) => Spawning(cfg)
  }

  /** Forget the current server and, unless its exit is already known, signal it and wait. */
  function BeginStop(w: World, r: Role, next: Next): World {
    var m := Of(w, r);
    if m.current.None? || ExitNoticed(w, m.current.value.pid) then With(w, r, Manager(None, Proceed(next)))
    else With(w, r, Manager(None, Stopping(m.current.value, next)))
  }

  /** A request for a model, once it has the lock. */
  function DoEnsure(w: World, cfg: Config): World {
    var m := Of(w, cfg.role);
    if m.current.None? then BeginStop(w, cfg.role, Launch(cfg))
    else
      var s := m.current.value;
      if cfg.role == Embedding then
        if s.state == Ready && !ExitNoticed(w, s.pid) then w else BeginStop(w, cfg.role, Launch(cfg))
      else if s.cfg.name == cfg.name && s.state == Ready then w
      else if cfg.role != Chat && s.state == Loading then With(w, cfg.role, m.(pc := Settling(cfg)))
      else BeginStop(w, cfg.role, Launch(cfg))
  }

  function DoSpawn(w: World, r: Role, cfg: Config, succeeds: bool): World {
    if !succeeds then With(w, r, Manager(None, Free))
    else
      var s := Server(|w.procs|, cfg, Loading);
      With(w, r, Manager(Some(s), Probing(s))).(procs := w.procs + [Proc(cfg, true, false)])
  }

  function Log(w: World, e: Event): World {
    w.(log := w.log + [e])
  }

  function DoNotice(w: World, pid: nat): World
    requires pid < |w.procs|
  {
    var p := w.procs[pid];
    var m := Of(w, p.cfg.role);
    var w' := w.(procs := w.procs[pid := p.(noticed := true)]);
    if m.current.Some? && m.current.value.pid == pid && m.current.value.state == Ready
    then Log(w', Died(p.cfg.role, p.cfg.name)) else w'
  }

  /** One step; an action that is not enabled leaves the world as it is. */
  function Apply(registry: set<Config>, w: World, a: Action): World {
    match a
    case Ensure(cfg) =>
      if cfg in registry && Of(w, cfg.role).pc == Free then DoEnsure(w, cfg) else w
    case Unload(r) =>
      if Of(w, r).pc == Free then BeginStop(w, r, Release) else w
    case IdleUnload(r) =>
      var m := Of(w, r);
      if m.pc == Free && m.current.Some? && m.current.value.state == Ready
      then BeginStop(w, r, Release) else w
    case StopDone(r) =>
      var m := Of(w, r);
      if m.pc.Stopping? && !Alive(w, m.pc.server.pid) then
        var s := m.pc.server;
        var w' := With(w, r, Manager(None, Proceed(m.pc.next)));
        if s.state == Ready then Log(w', Unloaded(r, s.cfg.name)) else w'
      else w
    case Spawn(r, succeeds) =>
      if Of(w, r).pc.Spawning? then DoSpawn(w, r, Of(w, r).pc.cfg, succeeds) else w
    case Healthy(r) =>
      var m := Of(w, r);
      if m.pc.Probing? then
        var s := m.pc.server.(state := Ready);
        Log(With(w, r, Manager(Some(s), Free)), Loaded(r, s.cfg.name, !ExitNoticed(w, s.pid)))
      else w
    case Unhealthy(r) =>
      if Of(w, r).pc.Probing? then BeginStop(w, r, Release) else w
    case Settled(r) =>
      if Of(w, r).pc.Settling? then DoEnsure(With(w, r, Of(w, r).(pc := Free)), Of(w, r).pc.target) else w
    case Exit(pid) =>
      if Alive(w, pid) then w.(procs := w.procs[pid := w.procs[pid].(alive := false)]) else w
    case NoticeExit(pid) =>
      if pid < |w.procs| && !w.procs[pid].alive && !w.procs[pid].noticed then DoNotice(w, pid) else w
    case MarkFailed(r) =>
      var m := Of(w, r);
      if m.current.Some? && m.current.value.state == Ready && ExitNoticed(w, m.current.value.pid)
      then With(w, r, m.(current := Some(m.current.value.(state := Failed)))) else w
  }

  function Run(registry: set<Config>, actions: seq<Action>): World {
    if actions == [] then START
    else Apply(registry, Run(registry, actions[..|actions| - 1]), actions[|actions| - 1])
  }
}
