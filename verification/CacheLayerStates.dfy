/** Layered cache lookup, promotion and storage, with decoding outside the lock. */
module CacheLayerStates {
  import opened Options

  type Address = string
  type ETag = Option<string>

  /** `kind` is the runtime type of the value; a lookup for another type does not see it. */
  datatype CacheEntry = CacheEntry(kind: nat, etag: ETag, value: string)

  type Contents = map<Address, CacheEntry>

  datatype MemoryMode = NoMemory | Plain | WithGc(maxUnused: nat)

  datatype Remembered = Remembered(entry: CacheEntry, lastUsed: nat)

  /** One published pack is one `packId`; `generation` counts every change of readers. */
  datatype PackStore = PackStore(
    writable: bool, pending: Contents, active: bool, packId: nat, pack: Contents, generation: nat)

  datatype Layers = Layers(mode: MemoryMode, memory: map<Address, Remembered>, completed: nat, store: Option<PackStore>)

  /** A read of one pack that is still to be done. */
  datatype Restore = Restore(packId: nat, generation: nat, pack: Contents)

  datatype Lookup = Hit(entry: CacheEntry) | Deferred(restore: Restore) | Miss

  datatype Get = Ready(value: Option<string>) | Pending(restore: Restore)

  datatype Got = Got(layers: Layers, get: Get)

  // ---- the memory layer ----

  function Recall(l: Layers, address: Address, etag: ETag): Option<CacheEntry> {
    if !l.mode.NoMemory? && address in l.memory && l.memory[address].entry.etag == etag
    then Some(l.memory[address].entry) else None
  }

  /** A hit under generations renews the entry. */
  function Touched(l: Layers, address: Address, etag: ETag): Layers {
    if l.mode.WithGc? && Recall(l, address, etag).Some?
    then l.(memory := l.memory[address := l.memory[address].(lastUsed := l.completed + 1)]) else l
  }

  function Remember(l: Layers, address: Address, entry: CacheEntry): Layers {
    if l.mode.NoMemory? then l else l.(memory := l.memory[address := Remembered(entry, l.completed + 1)])
  }

  /** Generations since an entry was used, at generation `completed`. */
  function Unused(completed: nat, lastUsed: nat): nat {
    if completed < lastUsed then 0 else completed - lastUsed
  }

  predicate Retained(l: Layers, address: Address)
    requires address in l.memory && l.mode.WithGc?
  {
    Unused(l.completed + 1, l.memory[address].lastUsed) < l.mode.maxUnused
  }

  function CompilationCompleted(l: Layers): Layers {
    if l.mode.WithGc?
    then l.(completed := l.completed + 1, memory := map a | a in l.memory && Retained(l, a) :: l.memory[a]) else l
  }

  // ---- the persistent layer ----

  function Find(store: PackStore, address: Address, etag: ETag): Lookup {
    if address in store.pending && store.pending[address].etag == etag then Hit(store.pending[address])
    else if !store.active then Miss
    else Deferred(Restore(store.packId, store.generation, store.pack))
  }

  predicate ReadsFrom(current: Restore, planned: Restore) {
    current.generation == planned.generation && current.packId == planned.packId
  }

  /** What decoding may give: the packed entry under that etag, or nothing. */
  predicate Decodes(restore: Restore, address: Address, etag: ETag, restored: Option<CacheEntry>) {
    restored.Some? ==> address in restore.pack && restore.pack[address] == restored.value && restored.value.etag == etag
  }

  // ---- gets and stores ----

  function BeginGet(l: Layers, kind: nat, address: Address, etag: ETag): Got {
    var remembered := Recall(l, address, etag);
    var touched := Touched(l, address, etag);
    if remembered.Some? && remembered.value.kind == kind then Got(touched, Ready(Some(remembered.value.value)))
    else if touched.store.None? then Got(touched, Ready(None))
    else match Find(touched.store.value, address, etag)
         case Hit(entry) =>
           if entry.kind == kind then Got(Remember(touched, address, entry), Ready(Some(entry.value)))
           else Got(touched, Ready(None))
         case Deferred(restore) => Got(touched, Pending(restore))
         case Miss => Got(touched, Ready(None))
  }

  function FinishRestore(l: Layers, kind: nat, address: Address, etag: ETag,
                         planned: Restore, restored: Option<CacheEntry>): Got
    requires l.store.Some?
  {
    var remembered := Recall(l, address, etag);
    var touched := Touched(l, address, etag);
    if remembered.Some? && remembered.value.kind == kind then Got(touched, Ready(Some(remembered.value.value)))
    else FinishPersistent(touched, kind, address, etag, planned, restored)
  }

  /** The persistent half of a restore: what was decoded counts only while the same pack is read. */
  function FinishPersistent(l: Layers, kind: nat, address: Address, etag: ETag,
                            planned: Restore, restored: Option<CacheEntry>): Got
    requires l.store.Some?
  {
    match Find(l.store.value, address, etag)
    case Hit(entry) =>
      if entry.kind == kind then Got(Remember(l, address, entry), Ready(Some(entry.value))) else Got(l, Ready(None))
    case Deferred(current) =>
      if !ReadsFrom(current, planned) then Got(l, Pending(current))
      else if restored.Some? && restored.value.kind == kind
      then Got(Remember(l, address, restored.value), Ready(Some(restored.value.value)))
      else Got(l, Ready(None))
    case Miss => Got(l, Ready(None))
  }

  function Store(l: Layers, address: Address, entry: CacheEntry): Layers {
    var remembered := Remember(l, address, entry);
    if l.store.Some? && l.store.value.writable
    then remembered.(store := Some(l.store.value.(pending := l.store.value.pending[address := entry])))
    else remembered
  }

  /**
   * A publication merges what is pending into a new pack, which is read from then on. A pack that
   * was not readable is replaced; retention, or a base that is not preserved, may drop entries.
   */
  function Publish(l: Layers, dropped: set<Address>): Layers {
    if l.store.None? then l
    else
      var s := l.store.value;
      var kept := if s.active then s.pack else map[];
      l.(store := Some(PackStore(s.writable, map[], true, s.packId + 1, (kept + s.pending) - dropped, s.generation + 1)))
  }

  predicate ReadOnly(l: Layers) {
    l.store.Some? && !l.store.value.writable
  }

  function Clear(l: Layers): Layers {
    l.(memory := map[],
       store := if l.store.None? then None
                else Some(l.store.value.(pending := map[], active := false, generation := l.store.value.generation + 1)))
  }

  /** Preparation decides whether the open pack may be read at all. */
  function Prepare(l: Layers, active: bool): Layers {
    if l.store.None? then l
    else l.(store := Some(l.store.value.(active := active, generation := l.store.value.generation + 1)))
  }

  // ---- interleavings ----

  /** A get that is decoding outside the lock, or has decoded. */
  datatype Getter =
    | Decoding(kind: nat, address: Address, etag: ETag, restore: Restore)
    | Decoded(kind: nat, address: Address, etag: ETag, restore: Restore, restored: Option<CacheEntry>)

  /** `latest` is the logical cache: the last entry stored at each address. */
  datatype System = System(layers: Layers, latest: Contents, getters: map<nat, Getter>)

  datatype Act =
    | StoreAct(address: Address, entry: CacheEntry)
    | BeginAct(p: nat, kind: nat, address: Address, etag: ETag)
    | DecodeAct(p: nat, restored: Option<CacheEntry>)
    | FinishAct(p: nat)
    | CompleteAct
    | PublishAct(dropped: set<Address>)
    | ClearAct
    | PrepareAct(active: bool)

  datatype Answer = Answer(kind: nat, address: Address, etag: ETag, value: Option<string>)

  /** The system after a step and, when a get returns, its answer. */
  datatype Stepped = Stepped(system: System, answer: Option<Answer>)

  function Returns(s: System, p: nat, kind: nat, address: Address, etag: ETag, got: Got): Stepped {
    match got.get
    case Ready(value) => Stepped(s.(layers := got.layers, getters := s.getters - {p}), Some(Answer(kind, address, etag, value)))
    case Pending(restore) =>
      Stepped(s.(layers := got.layers, getters := s.getters[p := Decoding(kind, address, etag, restore)]), None)
  }

  function Apply(s: System, act: Act): Option<Stepped> {
    match act
    case StoreAct(address, entry) =>
      Some(Stepped(s.(layers := Store(s.layers, address, entry), latest := s.latest[address := entry]), None))
    case BeginAct(p, kind, address, etag) =>
      if p in s.getters then None
      else Some(Returns(s, p, kind, address, etag, BeginGet(s.layers, kind, address, etag)))
    case DecodeAct(p, restored) =>
      if !(p in s.getters && s.getters[p].Decoding?) then None
      else
        var g := s.getters[p];
        if !Decodes(g.restore, g.address, g.etag, restored) then None
        else Some(Stepped(s.(getters := s.getters[p := Decoded(g.kind, g.address, g.etag, g.restore, restored)]), None))
    case FinishAct(p) =>
      if !(p in s.getters && s.getters[p].Decoded? && s.layers.store.Some?) then None
      else
        var g := s.getters[p];
        Some(Returns(s, p, g.kind, g.address, g.etag,
                     FinishRestore(s.layers, g.kind, g.address, g.etag, g.restore, g.restored)))
    case CompleteAct => Some(Stepped(s.(layers := CompilationCompleted(s.layers)), None))
    case PublishAct(dropped) =>
      // a read-only layer is never published to
      Some(Stepped(if ReadOnly(s.layers) then s else s.(layers := Publish(s.layers, dropped)), None))
    case ClearAct => Some(Stepped(s.(layers := Clear(s.layers), latest := map[]), None))
    case PrepareAct(active) =>
      var layers := Prepare(s.layers, active);
      // a pack that becomes readable contributes what was not stored since
      var exposed := if layers.store.Some? && active then layers.store.value.pack else map[];
      Some(Stepped(s.(layers := layers, latest := exposed + s.latest), None))
  }

  /** A cache as it is initial: nothing in memory, possibly a readable pack. */
  ghost predicate Opened(s: System) {
    && s.layers.memory == map[]
    && s.getters == map[]
    && (s.layers.store.None? ==> s.latest == map[])
    && (s.layers.store.Some? ==>
          && s.layers.store.value.pending == map[]
          && s.layers.store.value.active
          && s.latest == s.layers.store.value.pack)
  }

  // ---- refinement of one map ----

  /** The entry is the latest one at its address, or one under another etag. */
  predicate Sound(latest: Contents, address: Address, entry: CacheEntry) {
    address in latest && (entry == latest[address] || entry.etag != latest[address].etag)
  }

  ghost predicate MemorySound(latest: Contents, memory: map<Address, Remembered>) {
    forall a | a in memory :: Sound(latest, a, memory[a].entry)
  }

  /** Without a persistent layer nothing older is ever read back. */
  ghost predicate MemoryExact(latest: Contents, l: Layers) {
    && (l.mode.NoMemory? ==> l.memory == map[])
    && (l.store.None? ==> forall a | a in l.memory :: a in latest && l.memory[a].entry == latest[a])
  }

  ghost predicate PendingSound(latest: Contents, store: PackStore) {
    && store.writable
    && (forall a | a in store.pending :: a in latest && store.pending[a] == latest[a])
  }

  ghost predicate PackSound(latest: Contents, store: PackStore) {
    && (forall a | a in store.pack && a !in store.pending && a in latest :: Sound(latest, a, store.pack[a]))
    && (store.active ==> store.pack.Keys <= latest.Keys)
  }

  ghost predicate StoreSound(latest: Contents, l: Layers) {
    l.store.Some? ==> PendingSound(latest, l.store.value) && PackSound(latest, l.store.value)
  }

  /** A pack never changes, so a plan made on the current pack has its contents. */
  predicate PlanSound(store: PackStore, restore: Restore) {
    restore.packId <= store.packId && (restore.packId == store.packId ==> restore.pack == store.pack)
  }

  predicate GetterSound(l: Layers, g: Getter) {
    && l.store.Some?
    && PlanSound(l.store.value, g.restore)
    && (g.Decoded? ==> Decodes(g.restore, g.address, g.etag, g.restored))
  }

  ghost predicate GettersSound(l: Layers, getters: map<nat, Getter>) {
    forall p: nat | p in getters :: GetterSound(l, getters[p])
  }

  ghost predicate LayersSound(latest: Contents, l: Layers) {
    MemorySound(latest, l.memory) && MemoryExact(latest, l) && StoreSound(latest, l)
  }

  ghost predicate Inv(s: System) {
    LayersSound(s.latest, s.layers) && GettersSound(s.layers, s.getters)
  }

  /** What a get may answer: never another value under the latest etag, never an address not stored. */
  predicate AnswerSound(latest: Contents, memoryOnly: bool, answer: Answer) {
    answer.value.Some? ==>
      && answer.address in latest
      && (memoryOnly || latest[answer.address].etag == answer.etag ==>
            latest[answer.address] == CacheEntry(answer.kind, answer.etag, answer.value.value))
  }

  ghost predicate GetSound(latest: Contents, l: Layers, kind: nat, address: Address, etag: ETag, got: Got) {
    && got.layers.store == l.store
    && MemorySound(latest, got.layers.memory)
    && MemoryExact(latest, got.layers)
    && (got.get.Ready? ==> AnswerSound(latest, l.store.None?, Answer(kind, address, etag, got.get.value)))
    && (got.get.Pending? ==> l.store.Some? && PlanSound(l.store.value, got.get.restore))
  }

  lemma RememberSound(latest: Contents, l: Layers, address: Address, entry: CacheEntry)
    requires MemorySound(latest, l.memory) && Sound(latest, address, entry)
    requires MemoryExact(latest, l) && (l.store.None? ==> entry == latest[address])
    ensures MemorySound(latest, Remember(l, address, entry).memory)
    ensures MemoryExact(latest, Remember(l, address, entry))
  {
  }

  lemma TouchedSound(latest: Contents, l: Layers, address: Address, etag: ETag)
    requires MemorySound(latest, l.memory) && MemoryExact(latest, l)
    ensures MemorySound(latest, Touched(l, address, etag).memory)
    ensures MemoryExact(latest, Touched(l, address, etag))
  {
  }

  lemma BeginGetSound(latest: Contents, l: Layers, kind: nat, address: Address, etag: ETag)
    requires LayersSound(latest, l)
    ensures GetSound(latest, l, kind, address, etag, BeginGet(l, kind, address, etag))
  {
    TouchedSound(latest, l, address, etag);
    var touched := Touched(l, address, etag);
    if l.store.Some? && Find(l.store.value, address, etag).Hit? {
      RememberSound(latest, touched, address, Find(l.store.value, address, etag).entry);
    }
  }

  /** A packed entry, read back while the plan's pack is still current, is sound. */
  lemma RestoredSound(latest: Contents, store: PackStore, address: Address, etag: ETag,
                      planned: Restore, restored: Option<CacheEntry>)
    requires PendingSound(latest, store) && PackSound(latest, store) && PlanSound(store, planned)
    requires Decodes(planned, address, etag, restored) && restored.Some?
    requires Find(store, address, etag).Deferred? && ReadsFrom(Find(store, address, etag).restore, planned)
    ensures Sound(latest, address, restored.value) && restored.value.etag == etag
  {
    assert store.pack[address] == restored.value;
    if address in store.pending {
      assert store.pending[address].etag != etag;
    }
  }

  lemma FinishPersistentSound(latest: Contents, l: Layers, kind: nat, address: Address, etag: ETag,
                              planned: Restore, restored: Option<CacheEntry>)
    requires LayersSound(latest, l) && l.store.Some? && PlanSound(l.store.value, planned)
    requires Decodes(planned, address, etag, restored)
    ensures GetSound(latest, l, kind, address, etag, FinishPersistent(l, kind, address, etag, planned, restored))
  {
    match Find(l.store.value, address, etag)
    case Hit(entry) => RememberSound(latest, l, address, entry);
    case Deferred(current) =>
      if ReadsFrom(current, planned) && restored.Some? {
        RestoredSound(latest, l.store.value, address, etag, planned, restored);
        RememberSound(latest, l, address, restored.value);
      }
    case Miss =>
  }

  lemma FinishRestoreSound(latest: Contents, l: Layers, kind: nat, address: Address, etag: ETag,
                           planned: Restore, restored: Option<CacheEntry>)
    requires LayersSound(latest, l) && l.store.Some? && PlanSound(l.store.value, planned)
    requires Decodes(planned, address, etag, restored)
    ensures GetSound(latest, l, kind, address, etag, FinishRestore(l, kind, address, etag, planned, restored))
  {
    TouchedSound(latest, l, address, etag);
    FinishPersistentSound(latest, Touched(l, address, etag), kind, address, etag, planned, restored);
  }

  lemma StoreKeepsSound(latest: Contents, l: Layers, address: Address, entry: CacheEntry)
    requires LayersSound(latest, l)
    ensures LayersSound(latest[address := entry], Store(l, address, entry))
  {
  }

  lemma PublishKeepsSound(latest: Contents, l: Layers, dropped: set<Address>)
    requires LayersSound(latest, l)
    ensures LayersSound(latest, Publish(l, dropped))
  {
  }

  lemma ClearKeepsSound(latest: Contents, l: Layers)
    requires LayersSound(latest, l)
    ensures LayersSound(map[], Clear(l))
  {
  }

  lemma PrepareKeepsSound(latest: Contents, l: Layers, active: bool, exposed: Contents)
    requires LayersSound(latest, l)
    requires exposed == if l.store.Some? && active then l.store.value.pack else map[]
    ensures LayersSound(exposed + latest, Prepare(l, active))
  {
  }

  lemma CompilationCompletedSound(latest: Contents, l: Layers)
    requires LayersSound(latest, l)
    ensures LayersSound(latest, CompilationCompleted(l))
  {
  }

  /** Whatever happens to the layers, plans made before stay plans on an older or the same pack. */
  lemma GettersStaySound(l: Layers, next: Layers, getters: map<nat, Getter>)
    requires GettersSound(l, getters)
    requires l.store.Some? ==> next.store.Some?
    requires l.store.Some? ==>
               || next.store.value.packId > l.store.value.packId
               || (next.store.value.packId == l.store.value.packId && next.store.value.pack == l.store.value.pack)
    ensures GettersSound(next, getters)
  {
  }

  lemma ReturnsKeepsInv(s: System, p: nat, kind: nat, address: Address, etag: ETag, got: Got)
    requires Inv(s) && GetSound(s.latest, s.layers, kind, address, etag, got)
    ensures Inv(Returns(s, p, kind, address, etag, got).system)
    ensures var answer := Returns(s, p, kind, address, etag, got).answer;
            answer.Some? ==> AnswerSound(s.latest, s.layers.store.None?, answer.value)
  {
  }

  ghost predicate StepSound(s: System, stepped: Stepped) {
    && Inv(stepped.system)
    && (stepped.system.layers.store.None? == s.layers.store.None?)
    && (stepped.answer.Some? ==> AnswerSound(s.latest, s.layers.store.None?, stepped.answer.value))
  }

  lemma StepInv(s: System, act: Act)
    requires Inv(s) && Apply(s, act).Some?
    ensures StepSound(s, Apply(s, act).value)
  {
    match act
    case StoreAct(address, entry) =>
      StoreKeepsSound(s.latest, s.layers, address, entry);
      GettersStaySound(s.layers, Store(s.layers, address, entry), s.getters);
    case BeginAct(p, kind, address, etag) =>
      BeginGetSound(s.latest, s.layers, kind, address, etag);
      ReturnsKeepsInv(s, p, kind, address, etag, BeginGet(s.layers, kind, address, etag));
    case DecodeAct(p, restored) =>
    case FinishAct(p) =>
      var g := s.getters[p];
      FinishRestoreSound(s.latest, s.layers, g.kind, g.address, g.etag, g.restore, g.restored);
      ReturnsKeepsInv(s, p, g.kind, g.address, g.etag,
                      FinishRestore(s.layers, g.kind, g.address, g.etag, g.restore, g.restored));
    case CompleteAct =>
      CompilationCompletedSound(s.latest, s.layers);
      GettersStaySound(s.layers, CompilationCompleted(s.layers), s.getters);
    case PublishAct(dropped) =>
      PublishKeepsSound(s.latest, s.layers, dropped);
      GettersStaySound(s.layers, Publish(s.layers, dropped), s.getters);
    case ClearAct =>
      ClearKeepsSound(s.latest, s.layers);
      GettersStaySound(s.layers, Clear(s.layers), s.getters);
    case PrepareAct(active) =>
      PrepareKeepsSound(s.latest, s.layers, active,
                        if s.layers.store.Some? && active then s.layers.store.value.pack else map[]);
      GettersStaySound(s.layers, Prepare(s.layers, active), s.getters);
  }

  // ---- every run ----

  function Run(s: System, acts: seq<Act>): Option<System>
    decreases |acts|
  {
    if acts == [] then Some(s)
    else
      var stepped := Apply(s, acts[0]);
      if stepped.None? then None else Run(stepped.value.system, acts[1..])
  }

  /** Opened with a persistent layer that is writable, or with none. */
  ghost predicate OpenedWritable(s: System) {
    Opened(s) && (s.layers.store.Some? ==> s.layers.store.value.writable)
  }

  lemma OpenedInv(s: System)
    requires OpenedWritable(s)
    ensures Inv(s)
  {
  }

  lemma {:induction false} RunInv(s: System, acts: seq<Act>)
    requires Inv(s) && Run(s, acts).Some?
    ensures Inv(Run(s, acts).value) && (Run(s, acts).value.layers.store.None? == s.layers.store.None?)
    decreases |acts|
  {
    if acts != [] {
      StepInv(s, acts[0]);
      RunInv(Apply(s, acts[0]).value.system, acts[1..]);
    }
  }

  /**
   * Over every interleaving, a get that answers with a value answers with the current entry exactly
   * when it asked for the current entry's etag.
   */
  lemma GetAnswersLatestIff(initial: System, acts: seq<Act>, act: Act)
    requires OpenedWritable(initial) && Run(initial, acts).Some?
    requires Apply(Run(initial, acts).value, act).Some?
    ensures var s := Run(initial, acts).value;
            var answer := Apply(s, act).value.answer;
            answer.Some? && answer.value.value.Some? ==>
              && answer.value.address in s.latest
              && (s.latest[answer.value.address].etag == answer.value.etag <==>
                  s.latest[answer.value.address] ==
                  CacheEntry(answer.value.kind, answer.value.etag, answer.value.value.value))
  {
    OpenedInv(initial);
    RunInv(initial, acts);
    StepInv(Run(initial, acts).value, act);
  }

  /** No get, however long it decoded outside the lock, leaves a stale value in memory or in a pack. */
  lemma NothingStaleIsKept(initial: System, acts: seq<Act>, address: Address)
    requires OpenedWritable(initial) && Run(initial, acts).Some?
    ensures var s := Run(initial, acts).value;
            && (address in s.layers.memory ==> Sound(s.latest, address, s.layers.memory[address].entry))
            && (s.layers.store.Some? && address in s.layers.store.value.pending ==>
                  address in s.latest && s.layers.store.value.pending[address] == s.latest[address])
            && (s.layers.store.Some? && s.layers.store.value.active && address in s.layers.store.value.pack ==>
                  || address in s.layers.store.value.pending
                  || Sound(s.latest, address, s.layers.store.value.pack[address]))
  {
    OpenedInv(initial);
    RunInv(initial, acts);
  }

  /** Memory without generations loses nothing. */
  ghost predicate PlainExact(s: System) {
    && s.layers.mode.Plain? && s.layers.store.None?
    && s.layers.memory.Keys == s.latest.Keys
    && (forall a | a in s.latest :: s.layers.memory[a].entry == s.latest[a])
    && s.getters == map[]
  }

  function LatestAnswer(latest: Contents, kind: nat, address: Address, etag: ETag): Option<string> {
    if address in latest && latest[address].etag == etag && latest[address].kind == kind
    then Some(latest[address].value) else None
  }

  lemma PlainStep(s: System, act: Act)
    requires PlainExact(s) && Apply(s, act).Some?
    ensures PlainExact(Apply(s, act).value.system)
    ensures var answer := Apply(s, act).value.answer;
            act.BeginAct? ==>
              answer == Some(Answer(act.kind, act.address, act.etag,
                                    LatestAnswer(s.latest, act.kind, act.address, act.etag)))
  {
  }

  lemma {:induction false} PlainRun(s: System, acts: seq<Act>)
    requires PlainExact(s) && Run(s, acts).Some?
    ensures PlainExact(Run(s, acts).value)
    decreases |acts|
  {
    if acts != [] {
      PlainStep(s, acts[0]);
      PlainRun(Apply(s, acts[0]).value.system, acts[1..]);
    }
  }

  /** With memory only and no generations, a get is a lookup in the logical map: hits and misses. */
  lemma PlainMemoryIsOneMap(initial: System, acts: seq<Act>, p: nat, kind: nat, address: Address, etag: ETag)
    requires Opened(initial) && initial.layers.mode.Plain? && initial.layers.store.None?
    requires Run(initial, acts).Some?
    ensures var s := Run(initial, acts).value;
            && Apply(s, BeginAct(p, kind, address, etag)).Some?
            && Apply(s, BeginAct(p, kind, address, etag)).value.answer ==
               Some(Answer(kind, address, etag, LatestAnswer(s.latest, kind, address, etag)))
  {
    PlainRun(initial, acts);
    PlainStep(Run(initial, acts).value, BeginAct(p, kind, address, etag));
  }

  // ---- generations ----

  /** What a get finds once memory has nothing for it. */
  function BelowMemory(l: Layers, kind: nat, address: Address, etag: ETag): Get {
    BeginGet(l.(memory := map[]), kind, address, etag).get
  }

  /** Eviction turns a memory hit into what the layer below answers, and changes nothing else. */
  lemma EvictionOnlyDescends(l: Layers, kind: nat, address: Address, etag: ETag)
    ensures var before := BeginGet(l, kind, address, etag).get;
            var after := BeginGet(CompilationCompleted(l), kind, address, etag).get;
            || after == before
            || (&& address in l.memory && address !in CompilationCompleted(l).memory
                && before == Ready(Some(l.memory[address].entry.value))
                && after == BelowMemory(l, kind, address, etag))
  {
  }

  function CompletedTimes(l: Layers, k: nat): Layers
    decreases k
  {
    if k == 0 then l else CompletedTimes(CompilationCompleted(l), k - 1)
  }

  /** An unused entry survives exactly as long as it has been unused for fewer generations than allowed. */
  lemma {:induction false} SurvivesIff(l: Layers, address: Address, k: nat)
    requires l.mode.WithGc? && address in l.memory && k > 0
    ensures var survivors := CompletedTimes(l, k).memory;
            && (address in survivors <==> Unused(l.completed + k, l.memory[address].lastUsed) < l.mode.maxUnused)
            && (address in survivors ==> survivors[address] == l.memory[address])
    decreases k
  {
    var next := CompilationCompleted(l);
    if k > 1 {
      if address in next.memory {
        SurvivesIff(next, address, k - 1);
      } else {
        EvictedStays(next, address, k - 1);
      }
    }
  }

  lemma {:induction false} EvictedStays(l: Layers, address: Address, k: nat)
    requires l.mode.WithGc? && address !in l.memory
    ensures address !in CompletedTimes(l, k).memory
    decreases k
  {
    if k > 0 {
      EvictedStays(CompilationCompleted(l), address, k - 1);
    }
  }

  /** An entry used now is found for exactly `maxUnused` more completed compilations. */
  lemma UsedEntrySurvives(l: Layers, kind: nat, address: Address, etag: ETag, k: nat)
    requires l.mode.WithGc? && address in l.memory && l.memory[address].entry.etag == etag
    ensures address in CompletedTimes(BeginGet(l, kind, address, etag).layers, k).memory <==> k <= l.mode.maxUnused
  {
    if k > 0 {
      SurvivesIff(BeginGet(l, kind, address, etag).layers, address, k);
    }
  }

  // ---- where the answer is not the current entry ----

  /** A pending entry under another etag does not hide the packed one: an older value is answered. */
  lemma OlderEtagAnswers()
    ensures exists initial: System, acts: seq<Act> ::
              && OpenedWritable(initial) && Run(initial, acts).Some?
              && var s := Run(initial, acts).value;
                 && "a" in s.latest && s.latest["a"].value == "new"
                 && Apply(s, FinishAct(0)).Some?
                 && Apply(s, FinishAct(0)).value.answer == Some(Answer(0, "a", Some("e1"), Some("old")))
  {
    var older := CacheEntry(0, Some("e1"), "old");
    var newer := CacheEntry(0, Some("e2"), "new");
    var store := PackStore(true, map[], true, 0, map["a" := older], 0);
    var initial := System(Layers(NoMemory, map[], 0, Some(store)), map["a" := older], map[]);
    var plan := Restore(0, 0, map["a" := older]);
    var s1 := Apply(initial, StoreAct("a", newer)).value.system;
    var begin := BeginAct(0, 0, "a", Some("e1"));
    var s2 := Apply(s1, begin).value.system;
    assert s2.getters[0] == Decoding(0, "a", Some("e1"), plan);
    var decode := DecodeAct(0, Some(older));
    var s3 := Apply(s2, decode).value.system;
    var acts := [StoreAct("a", newer), begin, decode];
    assert Run(s3, []) == Some(s3);
    assert Run(s2, [decode]) == Some(s3);
    assert acts[1..] == [begin, decode] && acts[1..][1..] == [decode];
    assert Run(s1, [begin, decode]) == Some(s3);
    assert Run(initial, acts) == Some(s3);
    assert OpenedWritable(initial);
  }

  lemma {:induction false} RunThen(s: System, acts: seq<Act>, act: Act)
    requires Run(s, acts).Some?
    ensures var stepped := Apply(Run(s, acts).value, act);
            Run(s, acts + [act]) == if stepped.None? then None else Some(stepped.value.system)
    decreases |acts|
  {
    if acts == [] {
      assert acts + [act] == [act];
      if Apply(s, act).Some? {
        assert Run(Apply(s, act).value.system, []) == Some(Apply(s, act).value.system);
      }
    } else {
      assert (acts + [act])[1..] == acts[1..] + [act];
      RunThen(Apply(s, acts[0]).value.system, acts[1..], act);
    }
  }
}
