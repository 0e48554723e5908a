/** Which configurations of the cache behave as one map: exactly those that cannot lose what they stored. */
module CacheConfigurations {
  import opened Options
  import opened CacheLayerStates

  // ---- one type of value at an address ----

  /** The type that values at an address have, by its namespace. */
  function KindAt(kinds: map<Address, nat>, address: Address): nat {
    if address in kinds then kinds[address] else 0
  }

  predicate TypedContents(kinds: map<Address, nat>, contents: Contents) {
    forall a | a in contents :: contents[a].kind == KindAt(kinds, a)
  }

  predicate TypedAct(kinds: map<Address, nat>, act: Act) {
    match act
    case StoreAct(address, entry) => entry.kind == KindAt(kinds, address)
    case BeginAct(_, kind, address, _) => kind == KindAt(kinds, address)
    case _ => true
  }

  predicate TypedActs(kinds: map<Address, nat>, acts: seq<Act>) {
    forall act | act in acts :: TypedAct(kinds, act)
  }

  // ---- configurations ----

  datatype Access = MemoryOnly | ReadOnlyPack | WritablePack

  function AccessOf(l: Layers): Access {
    if l.store.None? then MemoryOnly else if l.store.value.writable then WritablePack else ReadOnlyPack
  }

  /** A cache as it is initial, with this memory mode and this access to a persistent layer. */
  ghost predicate OpenedAs(kinds: map<Address, nat>, mode: MemoryMode, access: Access, s: System) {
    Opened(s) && s.layers.mode == mode && AccessOf(s.layers) == access && TypedContents(kinds, s.latest)
  }

  /** A value answers a get exactly as the logical map does where the etags agree. */
  predicate AnswersLatest(latest: Contents, answer: Answer) {
    answer.value.Some? ==>
      && answer.address in latest
      && (latest[answer.address].etag == answer.etag <==>
          latest[answer.address] == CacheEntry(answer.kind, answer.etag, answer.value.value))
  }

  ghost predicate LatestAnswered(initial: System, acts: seq<Act>, act: Act) {
    Run(initial, acts).Some? && Apply(Run(initial, acts).value, act).Some? ==>
      var stepped := Apply(Run(initial, acts).value, act).value;
      stepped.answer.Some? ==> AnswersLatest(Run(initial, acts).value.latest, stepped.answer.value)
  }

  ghost predicate RefinesOneMap(kinds: map<Address, nat>, mode: MemoryMode, access: Access) {
    forall initial: System, acts: seq<Act>, act: Act |
      OpenedAs(kinds, mode, access, initial) && TypedActs(kinds, acts) && TypedAct(kinds, act) ::
      LatestAnswered(initial, acts, act)
  }

  // ---- memory without generations over a read-only pack ----

  /** An entry packed under the latest etag but not the latest one lies hidden under the latest in memory. */
  predicate Hidden(latest: Contents, memory: map<Address, Remembered>, pack: Contents) {
    forall a | a in pack && a in latest && pack[a].etag == latest[a].etag && pack[a] != latest[a] ::
      a in memory && memory[a].entry == latest[a]
  }

  predicate MemoryTyped(kinds: map<Address, nat>, memory: map<Address, Remembered>) {
    forall a | a in memory :: memory[a].entry.kind == KindAt(kinds, a)
  }

  ghost predicate PackReadable(kinds: map<Address, nat>, latest: Contents, store: PackStore) {
    && !store.writable && store.pending == map[]
    && TypedContents(kinds, store.pack)
    && (store.active ==> store.pack.Keys <= latest.Keys)
  }

  predicate GettersTyped(kinds: map<Address, nat>, getters: map<nat, Getter>) {
    forall p: nat | p in getters :: getters[p].kind == KindAt(kinds, getters[p].address)
  }

  ghost predicate PlainMemory(kinds: map<Address, nat>, latest: Contents, l: Layers) {
    && l.mode.Plain? && l.store.Some?
    && MemorySound(latest, l.memory) && MemoryTyped(kinds, l.memory) && Hidden(latest, l.memory, l.store.value.pack)
  }

  ghost predicate PlainOverPack(kinds: map<Address, nat>, s: System) {
    && PlainMemory(kinds, s.latest, s.layers)
    && PackReadable(kinds, s.latest, s.layers.store.value)
    && GettersSound(s.layers, s.getters) && GettersTyped(kinds, s.getters)
  }

  /** A packed entry read back where memory has none under its etag is not older than the latest. */
  lemma ReadBackSound(kinds: map<Address, nat>, s: System, address: Address, etag: ETag)
    requires PlainOverPack(kinds, s) && s.layers.store.value.active
    requires address in s.layers.store.value.pack && s.layers.store.value.pack[address].etag == etag
    requires Recall(s.layers, address, etag).None?
    ensures Sound(s.latest, address, s.layers.store.value.pack[address])
    ensures PlainMemory(kinds, s.latest, Remember(s.layers, address, s.layers.store.value.pack[address]))
  {
  }

  lemma StorePlain(kinds: map<Address, nat>, s: System, address: Address, entry: CacheEntry)
    requires PlainOverPack(kinds, s) && TypedAct(kinds, StoreAct(address, entry))
    ensures PlainOverPack(kinds, Apply(s, StoreAct(address, entry)).value.system)
  {
  }

  /** What a get leaves and answers. */
  ghost predicate GotPlain(kinds: map<Address, nat>, s: System, kind: nat, address: Address, etag: ETag, got: Got) {
    && PlainMemory(kinds, s.latest, got.layers) && got.layers.store == s.layers.store
    && (got.get.Ready? ==> AnswersLatest(s.latest, Answer(kind, address, etag, got.get.value)))
    && (got.get.Pending? ==> PlanSound(s.layers.store.value, got.get.restore))
  }

  lemma ReturnsPlain(kinds: map<Address, nat>, s: System, p: nat, kind: nat, address: Address, etag: ETag, got: Got)
    requires PlainOverPack(kinds, s) && kind == KindAt(kinds, address) && GotPlain(kinds, s, kind, address, etag, got)
    ensures PlainOverPack(kinds, Returns(s, p, kind, address, etag, got).system)
    ensures var answer := Returns(s, p, kind, address, etag, got).answer;
            answer.Some? ==> AnswersLatest(s.latest, answer.value)
  {
  }

  lemma BeginPlain(kinds: map<Address, nat>, s: System, kind: nat, address: Address, etag: ETag)
    requires PlainOverPack(kinds, s) && kind == KindAt(kinds, address)
    ensures GotPlain(kinds, s, kind, address, etag, BeginGet(s.layers, kind, address, etag))
  {
  }

  lemma FinishPlain(kinds: map<Address, nat>, s: System, g: Getter)
    requires PlainOverPack(kinds, s) && g.Decoded? && GetterSound(s.layers, g) && g.kind == KindAt(kinds, g.address)
    ensures GotPlain(kinds, s, g.kind, g.address, g.etag,
                     FinishRestore(s.layers, g.kind, g.address, g.etag, g.restore, g.restored))
  {
    if Recall(s.layers, g.address, g.etag).None? && g.restored.Some? && s.layers.store.value.active
       && g.restore.packId == s.layers.store.value.packId {
      ReadBackSound(kinds, s, g.address, g.etag);
    }
  }

  lemma PreparePlain(kinds: map<Address, nat>, s: System, active: bool)
    requires PlainOverPack(kinds, s)
    ensures PlainOverPack(kinds, Apply(s, PrepareAct(active)).value.system)
  {
  }

  lemma PlainOverPackStep(kinds: map<Address, nat>, s: System, act: Act)
    requires PlainOverPack(kinds, s) && TypedAct(kinds, act) && Apply(s, act).Some?
    ensures PlainOverPack(kinds, Apply(s, act).value.system)
    ensures var answer := Apply(s, act).value.answer;
            answer.Some? ==> AnswersLatest(s.latest, answer.value)
  {
    match act
    case StoreAct(address, entry) => StorePlain(kinds, s, address, entry);
    case BeginAct(p, kind, address, etag) =>
      BeginPlain(kinds, s, kind, address, etag);
      ReturnsPlain(kinds, s, p, kind, address, etag, BeginGet(s.layers, kind, address, etag));
    case DecodeAct(p, restored) =>
    case FinishAct(p) =>
      var g := s.getters[p];
      FinishPlain(kinds, s, g);
      ReturnsPlain(kinds, s, p, g.kind, g.address, g.etag,
                   FinishRestore(s.layers, g.kind, g.address, g.etag, g.restore, g.restored));
    case CompleteAct =>
    case PublishAct(_) =>
    case ClearAct =>
    case PrepareAct(active) => PreparePlain(kinds, s, active);
  }

  lemma {:induction false} PlainOverPackRun(kinds: map<Address, nat>, s: System, acts: seq<Act>)
    requires PlainOverPack(kinds, s) && TypedActs(kinds, acts) && Run(s, acts).Some?
    ensures PlainOverPack(kinds, Run(s, acts).value)
    decreases |acts|
  {
    if acts != [] {
      PlainOverPackStep(kinds, s, acts[0]);
      PlainOverPackRun(kinds, Apply(s, acts[0]).value.system, acts[1..]);
    }
  }

  // ---- configurations that lose what they stored ----

  /** The latest entry is in no layer, and the pack has another under its etag. */
  ghost predicate Lost(s: System, kind: nat) {
    && s.layers.store.Some? && s.layers.store.value == PackStore(false, map[], true, 0, map["a" := CacheEntry(kind, None, "old")], 0)
    && s.layers.memory == map[] && s.getters == map[]
    && s.latest == map["a" := CacheEntry(kind, None, "new")]
  }

  /** Then a get answers with the packed entry under the latest etag. */
  lemma LostAnswersOlder(initial: System, acts: seq<Act>, kind: nat)
    requires Run(initial, acts).Some? && Lost(Run(initial, acts).value, kind)
    ensures !LatestAnswered(initial, acts + [BeginAct(0, kind, "a", None)] + [DecodeAct(0, Some(CacheEntry(kind, None, "old")))],
                            FinishAct(0))
  {
    var s := Run(initial, acts).value;
    var begin, decode := BeginAct(0, kind, "a", None), DecodeAct(0, Some(CacheEntry(kind, None, "old")));
    var begun := Apply(s, begin).value.system;
    assert begun.getters[0] == Decoding(kind, "a", None, Restore(0, 0, s.layers.store.value.pack));
    var decoded := Apply(begun, decode).value.system;
    RunThen(initial, acts, begin);
    RunThen(initial, acts + [begin], decode);
    assert Run(initial, acts + [begin] + [decode]) == Some(decoded);
    assert Apply(decoded, FinishAct(0)).value.answer == Some(Answer(kind, "a", None, Some("old")));
  }

  /** Completing compilations, one after another. */
  function Completions(k: nat): seq<Act> {
    if k == 0 then [] else Completions(k - 1) + [CompleteAct]
  }

  lemma {:induction false} RunCompletions(s: System, acts: seq<Act>, k: nat)
    requires Run(s, acts).Some?
    ensures var middle := Run(s, acts).value;
            Run(s, acts + Completions(k)) == Some(middle.(layers := CompletedTimes(middle.layers, k)))
  {
    if k == 0 {
      assert acts + Completions(0) == acts;
    } else {
      RunCompletions(s, acts, k - 1);
      RunThen(s, acts + Completions(k - 1), CompleteAct);
      assert acts + Completions(k) == acts + Completions(k - 1) + [CompleteAct];
      CompletedLast(Run(s, acts).value.layers, k - 1);
    }
  }

  lemma {:induction false} CompletedLast(l: Layers, k: nat)
    ensures CompilationCompleted(CompletedTimes(l, k)) == CompletedTimes(l, k + 1)
    decreases k
  {
    if k > 0 { CompletedLast(CompilationCompleted(l), k - 1); }
  }

  lemma {:induction false} CompletedKeeps(l: Layers, k: nat)
    ensures CompletedTimes(l, k).store == l.store && CompletedTimes(l, k).mode == l.mode
    ensures CompletedTimes(l, k).memory.Keys <= l.memory.Keys
    decreases k
  {
    if k > 0 { CompletedKeeps(CompilationCompleted(l), k - 1); }
  }

  /** A store and then enough completed compilations. */
  function LosingActs(mode: MemoryMode, kind: nat): seq<Act> {
    [StoreAct("a", CacheEntry(kind, None, "new"))] + Completions(if mode.WithGc? then mode.maxUnused + 1 else 0)
  }

  lemma ReadOnlyLoses(mode: MemoryMode, kind: nat, initial: System)
    requires !mode.Plain?
    requires initial == System(Layers(mode, map[], 0, Some(PackStore(false, map[], true, 0, map["a" := CacheEntry(kind, None, "old")], 0))),
                               map["a" := CacheEntry(kind, None, "old")], map[])
    ensures Run(initial, LosingActs(mode, kind)).Some? && Lost(Run(initial, LosingActs(mode, kind)).value, kind)
  {
    var store := StoreAct("a", CacheEntry(kind, None, "new"));
    var stored := Apply(initial, store).value.system;
    var k := if mode.WithGc? then mode.maxUnused + 1 else 0;
    assert [store][1..] == [];
    assert Run(initial, [store]) == Some(stored);
    RunCompletions(initial, [store], k);
    CompletedKeeps(stored.layers, k);
    assert stored.latest == map["a" := CacheEntry(kind, None, "new")];
    if mode.WithGc? {
      SurvivesIff(stored.layers, "a", k);
      assert CompletedTimes(stored.layers, k).memory.Keys <= {"a"};
    }
    assert CompletedTimes(stored.layers, k).memory == map[];
  }

  lemma {:induction false} LosingActsTyped(kinds: map<Address, nat>, k: nat)
    ensures TypedActs(kinds, Completions(k))
  {
    if k > 0 { LosingActsTyped(kinds, k - 1); }
  }

  /** Over a read-only pack, no memory and every memory with generations answers an older value some time. */
  lemma ReadOnlyCanAnswerOlder(kinds: map<Address, nat>, mode: MemoryMode)
    requires !mode.Plain?
    ensures !RefinesOneMap(kinds, mode, ReadOnlyPack)
  {
    var kind := KindAt(kinds, "a");
    var older := CacheEntry(kind, None, "old");
    var initial := System(Layers(mode, map[], 0, Some(PackStore(false, map[], true, 0, map["a" := older], 0))),
                          map["a" := older], map[]);
    var acts := LosingActs(mode, kind);
    ReadOnlyLoses(mode, kind, initial);
    LostAnswersOlder(initial, acts, kind);
    LosingActsTyped(kinds, if mode.WithGc? then mode.maxUnused + 1 else 0);
    var longer := acts + [BeginAct(0, kind, "a", None)] + [DecodeAct(0, Some(older))];
    assert TypedActs(kinds, longer);
    assert OpenedAs(kinds, mode, ReadOnlyPack, initial);
  }

  // ---- exactly which ----

  /**
   * Over every interleaving a get answers as one map would, if and only if the cache is not opened
   * over a read-only pack, or is with memory that never evicts.
   */
  lemma OneMapIff(kinds: map<Address, nat>, mode: MemoryMode, access: Access)
    ensures RefinesOneMap(kinds, mode, access) <==> !access.ReadOnlyPack? || mode.Plain?
  {
    if access.ReadOnlyPack? && !mode.Plain? {
      ReadOnlyCanAnswerOlder(kinds, mode);
    } else {
      forall initial: System, acts: seq<Act>, act: Act |
        OpenedAs(kinds, mode, access, initial) && TypedActs(kinds, acts) && TypedAct(kinds, act)
        ensures LatestAnswered(initial, acts, act)
      {
        if Run(initial, acts).Some? && Apply(Run(initial, acts).value, act).Some? {
          SafeAnswersLatest(kinds, mode, access, initial, acts, act);
        }
      }
    }
  }

  lemma SafeAnswersLatest(kinds: map<Address, nat>, mode: MemoryMode, access: Access, initial: System, acts: seq<Act>, act: Act)
    requires !access.ReadOnlyPack? || mode.Plain?
    requires OpenedAs(kinds, mode, access, initial) && TypedActs(kinds, acts) && TypedAct(kinds, act)
    requires Run(initial, acts).Some? && Apply(Run(initial, acts).value, act).Some?
    ensures LatestAnswered(initial, acts, act)
  {
    if access.ReadOnlyPack? {
      assert PlainOverPack(kinds, initial);
      PlainOverPackRun(kinds, initial, acts);
      PlainOverPackStep(kinds, Run(initial, acts).value, act);
    } else {
      GetAnswersLatestIff(initial, acts, act);
    }
  }

  /** Over a read-only pack, memory that never evicts is never stale, and hides what the pack has that is. */
  lemma PlainHidesStale(kinds: map<Address, nat>, initial: System, acts: seq<Act>, address: Address)
    requires OpenedAs(kinds, Plain, ReadOnlyPack, initial) && TypedActs(kinds, acts) && Run(initial, acts).Some?
    ensures var s := Run(initial, acts).value;
            && s.layers.store.Some? && s.layers.store.value.pack == initial.layers.store.value.pack
            && (address in s.layers.memory ==> Sound(s.latest, address, s.layers.memory[address].entry))
            && (s.layers.store.value.active && address in s.layers.store.value.pack ==>
                  || Sound(s.latest, address, s.layers.store.value.pack[address])
                  || (address in s.layers.memory && s.layers.memory[address].entry == s.latest[address]))
  {
    PlainOverPackRun(kinds, initial, acts);
    PackStays(initial, acts);
  }

  lemma PackStaysOnce(s: System, act: Act)
    requires ReadOnly(s.layers) && Apply(s, act).Some?
    ensures var next := Apply(s, act).value.system.layers;
            next.store.Some? && next.store.value.pack == s.layers.store.value.pack && ReadOnly(next)
  {
  }

  lemma {:induction false} PackStays(s: System, acts: seq<Act>)
    requires ReadOnly(s.layers) && Run(s, acts).Some?
    ensures var next := Run(s, acts).value.layers;
            next.store.Some? && next.store.value.pack == s.layers.store.value.pack
    decreases |acts|
  {
    if acts != [] {
      PackStaysOnce(s, acts[0]);
      PackStays(Apply(s, acts[0]).value.system, acts[1..]);
    }
  }
}
