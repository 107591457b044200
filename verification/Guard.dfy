/** Which servers the gateway lets share the GPU: every route first unloads or refuses, then
    loads. Requests are handled one after another here; what is true of every run depends on
    the toggles, and for each rule exactly which of them it needs is proved. */
module Guard {
  import opened Text

  /** The roles whose servers compete; the embedding server is kept apart. */
  datatype Slot = Chat | Tts | Asr | Image | Music

  datatype Settings = Settings(
    unloadAudioOnBigLlm: bool, unloadOnMusic: bool, unloadImageOnLlm: bool, unloadMusicOnLlm: bool,
    audioVramGuard: bool, blockAudioOnBigLlm: bool, unloadImageOnAudio: bool, unloadMusicOnAudio: bool,
    unloadOnImage: bool, unloadImageOnMusic: bool, embeddingAutoStart: bool)

  datatype Registry = Registry(roles: map<string, Slot>, smallest: Option<string>, hasEmbedding: bool)

  /** The live servers, by role, and whether the embedding server runs. */
  datatype Host = Host(live: map<Slot, string>, embedding: bool)

  const IDLE := Host(map[], false)

  /** A chat model known to be larger than the smallest. */
  predicate Big(r: Registry, model: string) {
    r.smallest.Some? && model != r.smallest.value
  }

  predicate Audio(slot: Slot) {
    slot == Tts || slot == Asr
  }

  // -------------------------------------------------------- what a request does

  function Only(condition: bool, slots: set<Slot>): set<Slot> {
    if condition then slots else {}
  }

  /** The servers a request unloads before it loads its own. */
  function Evicted(s: Settings, r: Registry, slot: Slot, model: string): set<Slot> {
    match slot
    case Chat =>
      Only(s.unloadAudioOnBigLlm && Big(r, model), {Tts, Asr} + Only(s.unloadOnMusic, {Music}))
      + Only(s.unloadImageOnLlm, {Image}) + Only(s.unloadMusicOnLlm, {Music})
    case Image => Only(s.unloadOnImage, {Chat, Tts, Asr} + Only(s.unloadOnMusic, {Music}))
    case Music => Only(s.unloadOnMusic, {Chat, Tts, Asr} + Only(s.unloadImageOnMusic, {Image}))
    case _ => Only(s.unloadImageOnAudio, {Image}) + Only(s.unloadMusicOnAudio, {Music})
  }

  predicate Refused(s: Settings, r: Registry, h: Host, slot: Slot, model: string) {
    || model !in r.roles || r.roles[model] != slot
    || (Audio(slot) && s.blockAudioOnBigLlm && Chat in h.live && Big(r, h.live[Chat]))
  }

  /** After the guards: nothing has been loaded yet. */
  function Clear(s: Settings, r: Registry, h: Host, slot: Slot, model: string): Host {
    Host(h.live - Evicted(s, r, slot, model),
         h.embedding && !(slot == Image && s.unloadOnImage) && !(slot == Music && s.unloadOnMusic))
  }

  /** The model a request is served with: beside both audio servers, the smallest. */
  function Served(s: Settings, r: Registry, h: Host, slot: Slot, model: string): string {
    if slot == Chat && s.audioVramGuard && Tts in h.live && Asr in h.live && Big(r, model) then r.smallest.value
    else model
  }

  /** How the launches a request makes turn out. */
  datatype Outcome = Outcome(first: bool, retry: bool, embedding: bool)

  /** A manager asked for a model: a ready one is kept, another is stopped first. */
  function Ensured(live: map<Slot, string>, slot: Slot, model: string, succeeds: bool): map<Slot, string> {
    if slot in live && live[slot] == model then live
    else if succeeds then live[slot := model]
    else live - {slot}
  }

  /** Loading, with the one retry a chat model gets once the embedding server is stopped. */
  function Load(s: Settings, r: Registry, h: Host, slot: Slot, model: string, o: Outcome): Host {
    var once := Ensured(h.live, slot, model, o.first);
    if slot != Chat then Host(once, h.embedding)
    else if slot in once then Host(once, h.embedding || Restarts(s, r, o))
    else if !h.embedding then Host(once, false)
    else
      var twice := Ensured(once, slot, model, o.retry);
      Host(twice, slot in twice && Restarts(s, r, o))
  }

  predicate Restarts(s: Settings, r: Registry, o: Outcome) {
    s.embeddingAutoStart && r.hasEmbedding && o.embedding
  }

  datatype Action =
    | Request(slot: Slot, model: string, outcome: Outcome)
    | Unload(slot: Slot)
    | Lost(slot: Slot)
    | Reset
    | Embedding(running: bool)

  /** One request from start to end, or one server stopped, idle or crashed. */
  function Apply(s: Settings, r: Registry, h: Host, a: Action): Host {
    match a
    case Request(slot, model, o) =>
      if Refused(s, r, h, slot, model) then h
      else
        var cleared := Clear(s, r, h, slot, model);
        Load(s, r, cleared, slot, Served(s, r, cleared, slot, model), o)
    case Unload(slot) => h.(live := h.live - {slot})
    case Lost(slot) => h.(live := h.live - {slot})
    case Reset => IDLE
    case Embedding(running) => h.(embedding := running && r.hasEmbedding)
  }

  function Run(s: Settings, r: Registry, actions: seq<Action>): Host {
    if actions == [] then IDLE
    else Apply(s, r, Run(s, r, actions[..|actions| - 1]), actions[|actions| - 1])
  }

  // ---------------------------------------------------------------- the routes

  class Gateway {
    const settings: Settings
    const registry: Registry
    var live: map<Slot, string>
    var embedding: bool

    ghost function Snapshot(): Host
      reads this
    {
      Host(live, embedding)
    }

    constructor (settings: Settings, registry: Registry)
      ensures this.settings == settings && this.registry == registry && Snapshot() == IDLE
    {
      this.settings, this.registry := settings, registry;
      live, embedding := map[], false;
    }

    method Unload(slot: Slot)
      modifies this`live
      ensures live == old(live) - {slot}
    {
      live := live - {slot};
    }

    /** Both audio servers, in any order. */
    method UnloadAudio()
      modifies this`live
      ensures live == old(live) - {Tts, Asr}
    {
      Unload(Tts);
      Unload(Asr);
    }

    method EnsureModel(slot: Slot, model: string, succeeds: bool) returns (loaded: bool)
      modifies this`live
      ensures live == Ensured(old(live), slot, model, succeeds)
      ensures loaded <==> slot in live && live[slot] == model
    {
      if slot in live && live[slot] == model { return true; }
      Unload(slot);
      if succeeds { live := live[slot := model]; }
      loaded := succeeds;
    }

    method ResolveChatModel(model: string, o: Outcome) returns (served: Option<string>)
      modifies this
      ensures Snapshot() == Apply(settings, registry, old(Snapshot()), Request(Chat, model, o))
      ensures served.Some? ==> Chat in live && live[Chat] == served.value
      ensures served.None? && Has(registry, model, Chat) ==> Chat !in live && !embedding
    {
      if model !in registry.roles || registry.roles[model] != Chat { return None; }
      hide Evicted, Clear, Served, Load;
      var target := ClearForChat(model);
      var loaded := LoadChat(target, o);
      served := if loaded then Some(target) else None;
    }

    /** The guards in front of a chat model; the model that may be loaded behind them. */
    method ClearForChat(requested: string) returns (model: string)
      modifies this`live
      ensures Snapshot() == Clear(settings, registry, old(Snapshot()), Chat, requested)
      ensures model == Served(settings, registry, Snapshot(), Chat, requested)
    {
      model := requested;
      var smallest := registry.smallest;
      ghost var before, gone := live, {};
      MinusNothing(before);
      if settings.unloadAudioOnBigLlm && smallest.Some? && model != smallest.value {
        UnloadAudio();
        gone := {Tts, Asr};
        if settings.unloadOnMusic {
          MinusTwice(before, gone, {Music});
          Unload(Music);
          gone := gone + {Music};
        }
      }
      if settings.unloadImageOnLlm {
        MinusTwice(before, gone, {Image});
        Unload(Image);
        gone := gone + {Image};
      }
      if settings.unloadMusicOnLlm {
        MinusTwice(before, gone, {Music});
        Unload(Music);
        gone := gone + {Music};
      }
      assert gone == Evicted(settings, registry, Chat, requested);
      assert live == before - gone;
      hide Evicted;
      if settings.audioVramGuard && Tts in live && Asr in live {
        if smallest.Some? && smallest.value != model { model := smallest.value; }
      }
    }

    /** Loading a chat model; a failure stops the embedding server and is retried once. */
    method LoadChat(model: string, o: Outcome) returns (loaded: bool)
      modifies this
      ensures Snapshot() == Load(settings, registry, old(Snapshot()), Chat, model, o)
      ensures loaded ==> Chat in live && live[Chat] == model
      ensures !loaded ==> Chat !in live && !embedding
    {
      loaded := EnsureModel(Chat, model, o.first);
      if !loaded {
        if !embedding { return; }
        embedding := false;
        loaded := EnsureModel(Chat, model, o.retry);
        if !loaded { return; }
      }
      if settings.embeddingAutoStart && registry.hasEmbedding && !embedding { embedding := o.embedding; }
    }

    method RouteAudio(role: Slot, model: string, o: Outcome) returns (loaded: bool)
      requires Audio(role)
      modifies this`live
      ensures Snapshot() == Apply(settings, registry, old(Snapshot()), Request(role, model, o))
      ensures loaded ==> role in live && live[role] == model
    {
      if model !in registry.roles || registry.roles[model] != role { return false; }
      if settings.blockAudioOnBigLlm && registry.smallest.Some? && Chat in live
         && live[Chat] != registry.smallest.value { return false; }
      if settings.unloadImageOnAudio { Unload(Image); }
      if settings.unloadMusicOnAudio { Unload(Music); }
      assert live == old(live) - Evicted(settings, registry, role, model);
      loaded := EnsureModel(role, model, o.first);
    }

    method RouteImage(model: string, o: Outcome) returns (loaded: bool)
      modifies this
      ensures Snapshot() == Apply(settings, registry, old(Snapshot()), Request(Image, model, o))
      ensures loaded ==> Image in live && live[Image] == model
    {
      if model !in registry.roles || registry.roles[model] != Image { return false; }
      if settings.unloadOnImage {
        Unload(Chat);
        UnloadAudio();
        embedding := false;
        if settings.unloadOnMusic { Unload(Music); }
      }
      assert live == old(live) - Evicted(settings, registry, Image, model);
      loaded := EnsureModel(Image, model, o.first);
    }

    method RouteMusic(model: string, o: Outcome) returns (loaded: bool)
      modifies this
      ensures Snapshot() == Apply(settings, registry, old(Snapshot()), Request(Music, model, o))
      ensures loaded ==> Music in live && live[Music] == model
    {
      if model !in registry.roles || registry.roles[model] != Music { return false; }
      if settings.unloadOnMusic {
        Unload(Chat);
        UnloadAudio();
        if settings.unloadImageOnMusic { Unload(Image); }
        embedding := false;
      }
      assert live == old(live) - Evicted(settings, registry, Music, model);
      loaded := EnsureModel(Music, model, o.first);
    }

    method ResetAll()
      modifies this
      ensures Snapshot() == IDLE
    {
      Unload(Chat);
      UnloadAudio();
      Unload(Image);
      Unload(Music);
      embedding := false;
      assert forall slot <- live.Keys :: slot.Chat? || slot.Tts? || slot.Asr? || slot.Image? || slot.Music?;
    }
  }

  lemma MinusTwice(live: map<Slot, string>, a: set<Slot>, b: set<Slot>)
    ensures live - a - b == live - (a + b)
  {
  }

  lemma MinusNothing(live: map<Slot, string>)
    ensures live - {} == live
  {
  }

  // ----------------------------------------------- which rules a run can break

  /** What must not be live together. */
  datatype Rule =
    | ImageAndMusic
    | ImageAndChat
    | MusicAndChat
    | ImageAnd(role: Slot)
    | MusicAnd(role: Slot)
    | BigAnd(role: Slot)
    | BigAndBoth

  predicate BigLive(r: Registry, h: Host) {
    Chat in h.live && Big(r, h.live[Chat])
  }

  predicate Broken(r: Registry, h: Host, rule: Rule) {
    match rule
    case ImageAndMusic => Image in h.live && Music in h.live
    case ImageAndChat => Image in h.live && Chat in h.live
    case MusicAndChat => Music in h.live && Chat in h.live
    case ImageAnd(role) => Image in h.live && role in h.live
    case MusicAnd(role) => Music in h.live && role in h.live
    case BigAnd(role) => BigLive(r, h) && role in h.live
    case BigAndBoth => BigLive(r, h) && Tts in h.live && Asr in h.live
  }

  /** The toggles a rule depends on. */
  predicate Enforced(s: Settings, rule: Rule) {
    match rule
    case ImageAndMusic => s.unloadOnImage && s.unloadOnMusic && s.unloadImageOnMusic
    case ImageAndChat => s.unloadOnImage && s.unloadImageOnLlm
    case MusicAndChat => s.unloadOnMusic && s.unloadMusicOnLlm
    case ImageAnd(_) => s.unloadOnImage && s.unloadImageOnAudio
    case MusicAnd(_) => s.unloadOnMusic && s.unloadMusicOnAudio
    case BigAnd(_) => s.unloadAudioOnBigLlm && s.blockAudioOnBigLlm
    case BigAndBoth => s.blockAudioOnBigLlm && (s.unloadAudioOnBigLlm || s.audioVramGuard)
  }

  predicate AboutAudio(rule: Rule) {
    rule.ImageAnd? || rule.MusicAnd? || rule.BigAnd? ==> Audio(rule.role)
  }

  /** What a request that is not refused leaves: nothing evicted, everything else untouched,
      and in its own slot the model served or nothing. */
  lemma RequestLeaves(s: Settings, r: Registry, h: Host, slot: Slot, model: string, o: Outcome)
    requires !Refused(s, r, h, slot, model)
    ensures var left := h.live - Evicted(s, r, slot, model);
            var after := Apply(s, r, h, Request(slot, model, o)).live;
            var served := Served(s, r, h.(live := left), slot, model);
            && (forall q :: q != slot ==> (q in after <==> q in left) && (q in after ==> after[q] == h.live[q]))
            && (slot in after ==> after[slot] == served)
            && (o.first ==> slot in after)
  {
    hide Evicted, Refused;
  }

  /** Whether a live server outlasts a request for another role, server by server: the big
      tenants go when their toggle for that kind of request is on, chat and audio when an image
      or music request clears the GPU, audio also for a big chat model. Music that stands in the
      way of a request that clears everything goes with it only if music clears the GPU too. */
  predicate Outlasts(s: Settings, r: Registry, q: Slot, slot: Slot, model: string) {
    match (q, slot)
    case (Image, Chat) => !s.unloadImageOnLlm
    case (Image, Music) => !(s.unloadOnMusic && s.unloadImageOnMusic)
    case (Image, _) => !s.unloadImageOnAudio
    case (Music, Chat) => !s.unloadMusicOnLlm && !(s.unloadAudioOnBigLlm && Big(r, model) && s.unloadOnMusic)
    case (Music, Image) => !(s.unloadOnImage && s.unloadOnMusic)
    case (Music, _) => !s.unloadMusicOnAudio
    case (_, Image) => !s.unloadOnImage
    case (_, Music) => !s.unloadOnMusic
    case (Chat, _) => true
    case (_, Chat) => !(s.unloadAudioOnBigLlm && Big(r, model))
    case _ => true
  }

  lemma OutlastsIff(s: Settings, r: Registry, q: Slot, slot: Slot, model: string)
    requires q != slot
    ensures Outlasts(s, r, q, slot, model) <==> q !in Evicted(s, r, slot, model)
  {
  }

  /** The role's own server is not unloaded by the guards. */
  lemma OwnStays(s: Settings, r: Registry, slot: Slot, model: string)
    ensures slot !in Evicted(s, r, slot, model)
  {
  }

  /** A request for a model of another role or of none, or for audio while a big chat model is
      live and blocks it, changes nothing. */
  lemma RequestRefused(s: Settings, r: Registry, h: Host, slot: Slot, model: string, o: Outcome)
    requires !Has(r, model, slot)
          || ((slot == Tts || slot == Asr) && s.blockAudioOnBigLlm && BigLive(r, h))
    ensures Apply(s, r, h, Request(slot, model, o)) == h
  {
  }

  /** Any other request leaves of the other servers exactly those that outlast it. */
  lemma OthersLast(s: Settings, r: Registry, h: Host, slot: Slot, model: string, o: Outcome, q: Slot)
    requires Has(r, model, slot)
    requires !((slot == Tts || slot == Asr) && s.blockAudioOnBigLlm && BigLive(r, h))
    requires q != slot
    ensures var after := Apply(s, r, h, Request(slot, model, o)).live;
            && (q in after <==> q in h.live && Outlasts(s, r, q, slot, model))
            && (q in after ==> after[q] == h.live[q])
  {
    RequestLeaves(s, r, h, slot, model, o);
    OutlastsIff(s, r, q, slot, model);
    hide Apply, Evicted, Outlasts;
  }

  /** A chat request ends with a chat model exactly if the one it is served with was live, or
      the launch succeeds, or the embedding server ran and the second launch without it
      succeeds; and it is the one asked for, except beside both audio servers. The embedding
      server runs afterwards if it was not in the way, or is started again. */
  lemma ChatServed(s: Settings, r: Registry, h: Host, model: string, o: Outcome)
    requires Has(r, model, Chat)
    ensures var after := Apply(s, r, h, Request(Chat, model, o));
            var beside := Tts in h.live && Asr in h.live && !(s.unloadAudioOnBigLlm && Big(r, model));
            var served := if s.audioVramGuard && beside && Big(r, model) then r.smallest.value else model;
            var soon := (Chat in h.live && h.live[Chat] == served) || o.first;
            var restarts := s.embeddingAutoStart && r.hasEmbedding && o.embedding;
            && (Chat in after.live <==> soon || (h.embedding && o.retry))
            && (Chat in after.live ==> after.live[Chat] == served)
            && (after.embedding <==> if soon then h.embedding || restarts else h.embedding && o.retry && restarts)
  {
    OwnStays(s, r, Chat, model);
    OutlastsIff(s, r, Tts, Chat, model);
    OutlastsIff(s, r, Asr, Chat, model);
    hide Evicted;
  }

  /** A request for another role ends with its model exactly if that was live or the launch
      succeeds; the embedding server goes if the request clears the GPU. */
  lemma OtherServed(s: Settings, r: Registry, h: Host, slot: Slot, model: string, o: Outcome)
    requires slot != Chat && Has(r, model, slot)
    requires !((slot == Tts || slot == Asr) && s.blockAudioOnBigLlm && BigLive(r, h))
    ensures var after := Apply(s, r, h, Request(slot, model, o));
            && (slot in after.live <==> (slot in h.live && h.live[slot] == model) || o.first)
            && (slot in after.live ==> after.live[slot] == model)
            && (after.embedding <==>
                  h.embedding && !(slot == Image && s.unloadOnImage) && !(slot == Music && s.unloadOnMusic))
  {
    OwnStays(s, r, slot, model);
    hide Evicted;
  }

  /** No request breaks an enforced rule. */
  lemma StepKeepsRule(s: Settings, r: Registry, h: Host, a: Action, rule: Rule)
    requires AboutAudio(rule) && Enforced(s, rule) && !Broken(r, h, rule)
    ensures !Broken(r, Apply(s, r, h, a), rule)
  {
    if a.Request? && !Refused(s, r, h, a.slot, a.model) {
      RequestLeaves(s, r, h, a.slot, a.model, a.outcome);
      hide Apply;
    }
  }

  lemma {:induction false} RunKeepsRule(s: Settings, r: Registry, actions: seq<Action>, rule: Rule)
    requires AboutAudio(rule) && Enforced(s, rule)
    ensures !Broken(r, Run(s, r, actions), rule)
  {
    if actions != [] {
      RunKeepsRule(s, r, actions[..|actions| - 1], rule);
      hide Broken, Enforced, Apply;
      StepKeepsRule(s, r, Run(s, r, actions[..|actions| - 1]), actions[|actions| - 1], rule);
    }
  }

  /** One model for every role, and a chat model larger than the smallest. */
  datatype Stock = Stock(small: string, big: string, tts: string, asr: string, image: string, music: string) {
    function Audio(role: Slot): string {
      if role == Tts then tts else asr
    }
  }

  predicate Has(r: Registry, model: string, slot: Slot) {
    model in r.roles && r.roles[model] == slot
  }

  predicate Stocked(r: Registry, st: Stock) {
    && Has(r, st.small, Chat) && Has(r, st.big, Chat) && Has(r, st.tts, Tts) && Has(r, st.asr, Asr)
    && Has(r, st.image, Image) && Has(r, st.music, Music)
    && !Big(r, st.small) && Big(r, st.big)
  }

  function Ask(slot: Slot, model: string): Action {
    Request(slot, model, Outcome(true, true, true))
  }

  /** Requests that break a rule whose toggles are not all on. */
  function Breaking(s: Settings, st: Stock, rule: Rule): seq<Action>
  {
    match rule
    case ImageAndMusic =>
      if s.unloadOnImage && s.unloadOnMusic then [Ask(Image, st.image), Ask(Music, st.music)]
      else [Ask(Music, st.music), Ask(Image, st.image)]
    case ImageAndChat =>
      if s.unloadOnImage then [Ask(Image, st.image), Ask(Chat, st.small)]
      else [Ask(Chat, st.small), Ask(Image, st.image)]
    case MusicAndChat =>
      if s.unloadOnMusic then [Ask(Music, st.music), Ask(Chat, st.small)]
      else [Ask(Chat, st.small), Ask(Music, st.music)]
    case ImageAnd(role) =>
      if s.unloadOnImage then [Ask(Image, st.image), Ask(role, st.Audio(role))]
      else [Ask(role, st.Audio(role)), Ask(Image, st.image)]
    case MusicAnd(role) =>
      if s.unloadOnMusic then [Ask(Music, st.music), Ask(role, st.Audio(role))]
      else [Ask(role, st.Audio(role)), Ask(Music, st.music)]
    case BigAnd(role) =>
      if s.unloadAudioOnBigLlm then [Ask(Chat, st.big), Ask(role, st.Audio(role))]
      else [Ask(role, st.Audio(role)), Ask(Chat, st.big)]
    case BigAndBoth =>
      if s.blockAudioOnBigLlm then [Ask(Tts, st.tts), Ask(Asr, st.asr), Ask(Chat, st.big)]
      else [Ask(Chat, st.big), Ask(Tts, st.tts), Ask(Asr, st.asr)]
  }

  lemma RunsOut(s: Settings, r: Registry, a: Action, b: Action, c: Action)
    ensures Run(s, r, [a, b]) == Apply(s, r, Apply(s, r, IDLE, a), b)
    ensures Run(s, r, [a, b, c]) == Apply(s, r, Apply(s, r, Apply(s, r, IDLE, a), b), c)
  {
    hide Apply;
    RunMore(s, r, [], a);
    RunMore(s, r, [a], b);
    RunMore(s, r, [a, b], c);
    assert [] + [a] == [a] && [a] + [b] == [a, b] && [a, b] + [c] == [a, b, c];
  }

  lemma RunMore(s: Settings, r: Registry, past: seq<Action>, a: Action)
    ensures Run(s, r, past + [a]) == Apply(s, r, Run(s, r, past), a)
  {
    assert (past + [a])[..|past|] == past;
  }

  /** Two requests for different roles, the second of which neither evicts nor is refused
      because of the first. */
  lemma TwoAsked(s: Settings, r: Registry, a: Action, b: Action)
    requires a.Request? && b.Request? && a.outcome.first && b.outcome.first && a.slot != b.slot
    requires Has(r, a.model, a.slot) && Has(r, b.model, b.slot)
    requires a.slot !in Evicted(s, r, b.slot, b.model)
    requires !(Audio(b.slot) && s.blockAudioOnBigLlm && a.slot == Chat && Big(r, a.model))
    ensures var h := Run(s, r, [a, b]);
            h.live == map[a.slot := a.model, b.slot := b.model] && h == Apply(s, r, Apply(s, r, IDLE, a), b)
  {
    RunsOut(s, r, a, b, b);
    hide Run, Evicted;
    var once := Apply(s, r, IDLE, a);
    RequestLeaves(s, r, IDLE, a.slot, a.model, a.outcome);
    assert once.live == map[a.slot := a.model];
    RequestLeaves(s, r, once, b.slot, b.model, b.outcome);
    hide Apply;
  }

  /** A third request that neither evicts the two nor is refused because of them. */
  lemma ThirdJoins(s: Settings, r: Registry, a: Action, b: Action, c: Action)
    requires a.Request? && b.Request? && c.Request? && c.outcome.first
    requires c.slot != a.slot && c.slot != b.slot && a.slot != b.slot
    requires var h := Run(s, r, [a, b]);
             && h.live == map[a.slot := a.model, b.slot := b.model]
             && h == Apply(s, r, Apply(s, r, IDLE, a), b) && !Refused(s, r, h, c.slot, c.model)
    requires a.slot !in Evicted(s, r, c.slot, c.model) && b.slot !in Evicted(s, r, c.slot, c.model)
    requires c.slot == Chat ==> !s.audioVramGuard
    ensures Run(s, r, [a, b, c]).live == map[a.slot := a.model, b.slot := b.model, c.slot := c.model]
  {
    RunsOut(s, r, a, b, c);
    hide Run, Evicted, Refused;
    var h := Apply(s, r, Apply(s, r, IDLE, a), b);
    RequestLeaves(s, r, h, c.slot, c.model, c.outcome);
    hide Apply;
  }

  /** Nothing stops audio beside a big chat model. */
  lemma Unblocked(s: Settings, r: Registry, st: Stock)
    requires Stocked(r, st) && !s.blockAudioOnBigLlm
    ensures Broken(r, Run(s, r, [Ask(Chat, st.big), Ask(Tts, st.tts), Ask(Asr, st.asr)]), BigAndBoth)
  {
    var evicted := Evicted(s, r, Asr, st.asr);
    assert Chat !in evicted && Tts !in evicted;
    hide Run, Apply, Stocked, Evicted, Refused;
    BigAndSpeech(s, r, st);
    ThirdJoins(s, r, Ask(Chat, st.big), Ask(Tts, st.tts), Ask(Asr, st.asr));
  }

  lemma BigAndSpeech(s: Settings, r: Registry, st: Stock)
    requires Stocked(r, st) && !s.blockAudioOnBigLlm
    ensures var a, b := Ask(Chat, st.big), Ask(Tts, st.tts);
            var h := Run(s, r, [a, b]);
            && h.live == map[Chat := st.big, Tts := st.tts] && h == Apply(s, r, Apply(s, r, IDLE, a), b)
            && !Refused(s, r, h, Asr, st.asr) && Big(r, st.big)
  {
    hide Run, Apply;
    TwoAsked(s, r, Ask(Chat, st.big), Ask(Tts, st.tts));
  }

  /** Nothing unloads audio for a big chat model or serves a smaller one. */
  lemma Unremedied(s: Settings, r: Registry, st: Stock)
    requires Stocked(r, st) && !s.unloadAudioOnBigLlm && !s.audioVramGuard
    ensures Broken(r, Run(s, r, [Ask(Tts, st.tts), Ask(Asr, st.asr), Ask(Chat, st.big)]), BigAndBoth)
  {
    var evicted := Evicted(s, r, Chat, st.big);
    assert Tts !in evicted && Asr !in evicted;
    hide Run, Apply, Stocked, Evicted, Refused;
    AudioPair(s, r, st);
    ThirdJoins(s, r, Ask(Tts, st.tts), Ask(Asr, st.asr), Ask(Chat, st.big));
  }

  lemma AudioPair(s: Settings, r: Registry, st: Stock)
    requires Stocked(r, st)
    ensures var a, b := Ask(Tts, st.tts), Ask(Asr, st.asr);
            var h := Run(s, r, [a, b]);
            && h.live == map[Tts := st.tts, Asr := st.asr] && h == Apply(s, r, Apply(s, r, IDLE, a), b)
            && !Refused(s, r, h, Chat, st.big) && Big(r, st.big)
  {
    hide Run, Apply;
    TwoAsked(s, r, Ask(Tts, st.tts), Ask(Asr, st.asr));
  }

  lemma TwoBreak(s: Settings, r: Registry, st: Stock, rule: Rule)
    requires AboutAudio(rule) && Stocked(r, st) && !Enforced(s, rule) && rule != BigAndBoth
    ensures Broken(r, Run(s, r, Breaking(s, st, rule)), rule)
  {
    var actions := Breaking(s, st, rule);
    LiesOpen(s, r, st, rule);
    BothLive(s, r, st, rule, Run(s, r, actions));
    hide *;
    TwoAsked(s, r, actions[0], actions[1]);
  }

  /** The second request neither evicts the first server nor is refused because of it. */
  lemma LiesOpen(s: Settings, r: Registry, st: Stock, rule: Rule)
    requires AboutAudio(rule) && Stocked(r, st) && !Enforced(s, rule) && rule != BigAndBoth
    ensures var actions := Breaking(s, st, rule);
            && |actions| == 2 && actions == [actions[0], actions[1]]
            && var a, b := actions[0], actions[1];
            && a.Request? && b.Request? && a.outcome.first && b.outcome.first && a.slot != b.slot
            && Has(r, a.model, a.slot) && Has(r, b.model, b.slot)
            && a.slot !in Evicted(s, r, b.slot, b.model)
            && !(Audio(b.slot) && s.blockAudioOnBigLlm && a.slot == Chat && Big(r, a.model))
  {
  }

  lemma BothLive(s: Settings, r: Registry, st: Stock, rule: Rule, h: Host)
    requires AboutAudio(rule) && Stocked(r, st) && rule != BigAndBoth
    ensures var actions := Breaking(s, st, rule);
            && |actions| == 2
            && var a, b := actions[0], actions[1];
            && a.Request? && b.Request?
            && (h.live == map[a.slot := a.model, b.slot := b.model] ==> Broken(r, h, rule))
  {
  }

  lemma BreakingBreaks(s: Settings, r: Registry, st: Stock, rule: Rule)
    requires AboutAudio(rule) && Stocked(r, st) && !Enforced(s, rule)
    ensures Broken(r, Run(s, r, Breaking(s, st, rule)), rule)
  {
    if rule == BigAndBoth {
      if s.blockAudioOnBigLlm { Unremedied(s, r, st); } else { Unblocked(s, r, st); }
      hide Run;
    } else {
      TwoBreak(s, r, st, rule);
    }
  }

  /** No run of the gateway breaks the rule. */
  ghost predicate Kept(s: Settings, r: Registry, rule: Rule) {
    forall actions :: !Broken(r, Run(s, r, actions), rule)
  }

  /** Each rule holds over every run of requests, unloads, crashes and resets exactly when its
      toggles are on. */
  lemma RuleIff(s: Settings, r: Registry, st: Stock, rule: Rule)
    requires AboutAudio(rule) && Stocked(r, st)
    ensures Kept(s, r, rule) <==> Enforced(s, rule)
  {
    if Enforced(s, rule) {
      forall actions ensures !Broken(r, Run(s, r, actions), rule) {
        RunKeepsRule(s, r, actions, rule);
      }
    } else {
      BreakingBreaks(s, r, st, rule);
    }
  }

  /** All rules at once: a live image or music server stands alone, and a big chat model never
      shares with audio, exactly when every toggle is on that is not an alternative to another. */
  lemma AllRulesIff(s: Settings, r: Registry, st: Stock)
    requires Stocked(r, st)
    ensures (forall rule :: AboutAudio(rule) ==> Kept(s, r, rule))
       <==> && s.unloadAudioOnBigLlm && s.blockAudioOnBigLlm
            && s.unloadOnImage && s.unloadImageOnLlm && s.unloadImageOnAudio && s.unloadImageOnMusic
            && s.unloadOnMusic && s.unloadMusicOnLlm && s.unloadMusicOnAudio
  {
    forall rule | AboutAudio(rule)
      ensures Kept(s, r, rule) <==> Enforced(s, rule)
    {
      RuleIff(s, r, st, rule);
    }
    hide Kept;
    assert Enforced(s, ImageAndMusic) && Enforced(s, ImageAndChat) && Enforced(s, MusicAndChat)
           && Enforced(s, ImageAnd(Tts)) && Enforced(s, MusicAnd(Tts)) && Enforced(s, BigAnd(Tts))
        <==> forall rule :: AboutAudio(rule) ==> Enforced(s, rule);
  }

  /** With audio unloaded for every big model, no request is ever served by another model
      than the one it names. */
  lemma NeverSubstituted(s: Settings, r: Registry, h: Host, model: string)
    requires s.unloadAudioOnBigLlm
    ensures Served(s, r, Clear(s, r, h, Chat, model), Chat, model) == model
  {
  }

  /** The guards are separate from the loads they protect: whatever the toggles, a chat request
      that is handled while an image request stands between the two leaves both live. */
  lemma GuardsAreNotAtomic(s: Settings, r: Registry, st: Stock, h: Host)
    requires Stocked(r, st)
    ensures var o := Outcome(true, true, true);
            var cleared := Clear(s, r, h, Image, st.image);
            var between := Apply(s, r, cleared, Request(Chat, st.small, o));
            Broken(r, Load(s, r, between, Image, st.image, o), ImageAndChat)
  {
    var o, cleared := Outcome(true, true, true), Clear(s, r, h, Image, st.image);
    RequestLeaves(s, r, cleared, Chat, st.small, o);
    var between := Apply(s, r, cleared, Request(Chat, st.small, o));
    hide Apply, Clear;
    assert Chat in between.live;
    assert Load(s, r, between, Image, st.image, o).live == Ensured(between.live, Image, st.image, true);
  }
}
