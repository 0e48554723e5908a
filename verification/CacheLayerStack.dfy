/** The ordered layer stack that is updated under the cache's lock. */
module CacheLayerStack {
  import opened Options
  import Spec = CacheLayerStates

  type Address = Spec.Address
  type ETag = Spec.ETag
  type CacheEntry = Spec.CacheEntry

  datatype Slot =
    | Memory(entries: map<Address, CacheEntry>)
    | MemoryWithGc(remembered: map<Address, Spec.Remembered>, maxUnused: nat, completed: nat)
    | Persistent(store: Spec.PackStore)
  {
    predicate Writable() { Persistent? ==> store.writable }

    /** A lookup under generations renews the entry it hits. */
    function Lookup(address: Address, etag: ETag): (r: (Spec.Lookup, Slot)) {
      match this
      case Memory(entries) =>
        if address in entries && entries[address].etag == etag then (Spec.Hit(entries[address]), this) else (Spec.Miss, this)
      case MemoryWithGc(remembered, maxUnused, completed) =>
        if address in remembered && remembered[address].entry.etag == etag then
          (Spec.Hit(remembered[address].entry),
           this.(remembered := remembered[address := remembered[address].(lastUsed := completed + 1)]))
        else (Spec.Miss, this)
      case Persistent(store) => (Spec.Find(store, address, etag), this)
    }

    function Store(address: Address, entry: CacheEntry): Slot {
      match this
      case Memory(entries) => Memory(entries[address := entry])
      case MemoryWithGc(remembered, maxUnused, completed) =>
        this.(remembered := remembered[address := Spec.Remembered(entry, completed + 1)])
      case Persistent(store) => Persistent(store.(pending := store.pending[address := entry]))
    }

    function Cleared(): Slot {
      match this
      case Memory(_) => Memory(map[])
      case MemoryWithGc(_, maxUnused, completed) => MemoryWithGc(map[], maxUnused, completed)
      case Persistent(store) => Persistent(store.(pending := map[], active := false, generation := store.generation + 1))
    }
  }

  /** Layers over a list of slots, at most one in memory before at most one persistent. */
  ghost function Mode(slots: seq<Slot>): Spec.MemoryMode {
    if slots == [] || slots[0].Persistent? then Spec.NoMemory
    else if slots[0].Memory? then Spec.Plain else Spec.WithGc(slots[0].maxUnused)
  }

  ghost function Remembering(slots: seq<Slot>): map<Address, Spec.Remembered> {
    if slots == [] || slots[0].Persistent? then map[]
    else if slots[0].Memory? then map a | a in slots[0].entries :: Spec.Remembered(slots[0].entries[a], 1)
    else slots[0].remembered
  }

  ghost function Completed(slots: seq<Slot>): nat {
    if slots == [] || !slots[0].MemoryWithGc? then 0 else slots[0].completed
  }

  ghost function Persisting(slots: seq<Slot>): Option<Spec.PackStore> {
    if slots != [] && slots[|slots| - 1].Persistent? then Some(slots[|slots| - 1].store) else None
  }

  ghost function LayersOf(slots: seq<Slot>): Spec.Layers {
    Spec.Layers(Mode(slots), Remembering(slots), Completed(slots), Persisting(slots))
  }

  predicate Ordered(slots: seq<Slot>) {
    && |slots| <= 2
    && (|slots| == 2 ==> !slots[0].Persistent? && slots[1].Persistent?)
  }

  class CacheLayers {
    var slots: seq<Slot>

    ghost predicate Valid() reads this { Ordered(slots) }

    ghost function State(): Spec.Layers reads this { LayersOf(slots) }

    constructor (memory: Option<Slot>, store: Option<Spec.PackStore>)
      requires memory.Some? ==> !memory.value.Persistent?
      ensures Valid() && State().store == store
      ensures memory.None? ==> State().mode.NoMemory?
      ensures memory.Some? ==> State().mode == Mode([memory.value]) && State().memory == Remembering([memory.value])
    {
      var layers: seq<Slot> := [];
      if memory.Some? { layers := [memory.value]; }
      if store.Some? { layers := layers + [Persistent(store.value)]; }
      slots := layers;
    }

    /** The value under the requested type; found below the top, it is copied upwards. */
    method UseEntry(kind: nat, address: Address, index: nat, entry: CacheEntry) returns (value: Option<string>)
      requires Valid() && index < |slots|
      modifies this
      ensures Valid()
      ensures value == if entry.kind == kind then Some(entry.value) else None
      ensures |slots| == old(|slots|) && forall i | index <= i < |slots| :: slots[i] == old(slots[i])
      ensures State() == if entry.kind == kind && index > 0 then Spec.Remember(old(State()), address, entry) else old(State())
    {
      if entry.kind != kind { return None; }
      var earlier := 0;
      while earlier < index
        invariant earlier <= index <= |slots| == old(|slots|) && Valid()
        invariant forall i | earlier <= i < |slots| :: slots[i] == old(slots[i])
        invariant earlier == 0 ==> slots == old(slots)
        invariant earlier > 0 ==> State() == Spec.Remember(old(State()), address, entry)
      {
        if slots[earlier].Writable() {
          slots := slots[earlier := slots[earlier].Store(address, entry)];
        }
        earlier := earlier + 1;
      }
      return Some(entry.value);
    }

    /** One lookup in place; a memory layer's hit is what the specification recalls, and renews it. */
    method LookupAt(index: nat, address: Address, etag: ETag) returns (found: Spec.Lookup)
      requires Valid() && index < |slots|
      modifies this
      ensures Valid() && |slots| == old(|slots|)
      ensures slots[index].Persistent? == old(slots[index].Persistent?)
      ensures slots[index].Persistent? ==>
                slots == old(slots) && found == Spec.Find(slots[index].store, address, etag)
      ensures !slots[index].Persistent? ==>
                && State() == Spec.Touched(old(State()), address, etag)
                && var recalled := Spec.Recall(old(State()), address, etag);
                   found == if recalled.Some? then Spec.Hit(recalled.value) else Spec.Miss
    {
      var looked := slots[index].Lookup(address, etag);
      found := looked.0;
      ghost var before := slots;
      slots := slots[index := looked.1];
      if !slots[index].Persistent? {
        assert index == 0;
        LookedUp(before, slots, address, etag);
      } else {
        assert slots == before;
      }
    }

    method BeginGet(kind: nat, address: Address, etag: ETag) returns (get: Spec.Get, layerIndex: nat)
      requires Valid()
      modifies this
      ensures Valid() && |slots| == old(|slots|)
      ensures Spec.Got(State(), get) == Spec.BeginGet(old(State()), kind, address, etag)
      ensures get.Pending? ==> layerIndex < |slots| && slots[layerIndex].Persistent?
    {
      var index := 0;
      while index < |slots|
        invariant index <= |slots| == old(|slots|) && Valid()
        invariant Persisting(slots) == old(Persisting(slots))
        invariant index == 0 ==> slots == old(slots)
        invariant index > 0 ==> Passed(old(State()), State(), kind, address, etag)
        invariant index == |slots| && Persisting(slots).Some? ==>
                    var found := Spec.Find(Persisting(slots).value, address, etag);
                    found.Miss? || (found.Hit? && found.entry.kind != kind)
      {
        var found := LookupAt(index, address, etag);
        match found {
          case Hit(entry) =>
            var value := UseEntry(kind, address, index, entry);
            if value.Some? { return Spec.Ready(value), 0; }
          case Deferred(restore) =>
            return Spec.Pending(restore), index;
          case Miss =>
        }
        index := index + 1;
      }
      return Spec.Ready(None), 0;
    }

    /** The layers above the restored one are asked again, then that layer itself. */
    method FinishRestore(kind: nat, address: Address, etag: ETag, layerIndex: nat, planned: Spec.Restore,
                         restored: Option<CacheEntry>)
      returns (get: Spec.Get)
      requires Valid() && layerIndex < |slots| && slots[layerIndex].Persistent?
      modifies this
      ensures Valid() && |slots| == old(|slots|) && slots[layerIndex].Persistent?
      ensures Spec.Got(State(), get) == Spec.FinishRestore(old(State()), kind, address, etag, planned, restored)
    {
      var index := 0;
      while index < layerIndex
        invariant index <= layerIndex < |slots| == old(|slots|) && Valid()
        invariant slots[layerIndex].Persistent? && Persisting(slots) == old(Persisting(slots))
        invariant index == 0 ==> slots == old(slots)
        invariant index > 0 ==> Passed(old(State()), State(), kind, address, etag)
      {
        var found := LookupAt(index, address, etag);
        if found.Hit? {
          var value := UseEntry(kind, address, index, found.entry);
          if value.Some? { return Spec.Ready(value); }
        }
        index := index + 1;
      }
      get := FinishPersistent(kind, address, etag, layerIndex, planned, restored);
    }

    /** The restored layer is asked again; its decoded entry counts only if the readers did not change. */
    method FinishPersistent(kind: nat, address: Address, etag: ETag, layerIndex: nat, planned: Spec.Restore,
                            restored: Option<CacheEntry>)
      returns (get: Spec.Get)
      requires Valid() && layerIndex < |slots| && slots[layerIndex].Persistent?
      modifies this
      ensures Valid() && |slots| == old(|slots|) && slots[layerIndex].Persistent?
      ensures Spec.Got(State(), get) ==
              Spec.FinishPersistent(old(State()), kind, address, etag, planned, restored)
    {
      var found := LookupAt(layerIndex, address, etag);
      match found {
        case Hit(entry) =>
          var value := UseEntry(kind, address, layerIndex, entry);
          if value.Some? { return Spec.Ready(value); }
        case Deferred(current) =>
          if !Spec.ReadsFrom(current, planned) { return Spec.Pending(current); }
          if restored.Some? {
            var value := UseEntry(kind, address, layerIndex, restored.value);
            if value.Some? { return Spec.Ready(value); }
          }
        case Miss =>
      }
      return Spec.Ready(None);
    }

    method Store(address: Address, entry: CacheEntry) returns (storedPersistently: bool)
      requires Valid()
      modifies this
      ensures Valid()
      ensures State() == Spec.Store(old(State()), address, entry)
      ensures storedPersistently == (State().store.Some? && State().store.value.writable)
    {
      storedPersistently := false;
      var index := 0;
      while index < |slots|
        invariant index <= |slots| == old(|slots|) && Valid()
        invariant forall j :: index <= j < |slots| ==> slots[j] == old(slots[j])
        invariant forall j :: 0 <= j < index ==> slots[j] == Stored(old(slots[j]), address, entry)
        invariant storedPersistently == exists j :: 0 <= j < index && slots[j].Persistent? && slots[j].Writable()
      {
        if slots[index].Writable() {
          storedPersistently := storedPersistently || slots[index].Persistent?;
          slots := slots[index := slots[index].Store(address, entry)];
        }
        index := index + 1;
      }
      StoredEverywhere(old(slots), slots, address, entry);
    }

    method Clear()
      requires Valid()
      modifies this
      ensures Valid() && State() == Spec.Clear(old(State()))
    {
      var index := 0;
      while index < |slots|
        invariant index <= |slots| == old(|slots|) && Valid()
        invariant forall j :: index <= j < |slots| ==> slots[j] == old(slots[j])
        invariant forall j :: 0 <= j < index ==> slots[j] == old(slots[j]).Cleared()
      {
        slots := slots[index := slots[index].Cleared()];
        index := index + 1;
      }
      assert Remembering(slots) == map[];
    }

    method PreparePersistent(active: bool)
      requires Valid()
      modifies this
      ensures Valid() && State() == Spec.Prepare(old(State()), active)
    {
      if |slots| > 0 && slots[|slots| - 1].Persistent? {
        var store := slots[|slots| - 1].store;
        slots := slots[|slots| - 1 := Persistent(store.(active := active, generation := store.generation + 1))];
      }
    }

    /** `dropped` is what retention, or a base that is not preserved, leaves out of the new pack. */
    method PublishPersistent(dropped: set<Address>)
      requires Valid()
      modifies this
      ensures Valid() && State() == Spec.Publish(old(State()), dropped)
    {
      if |slots| > 0 && slots[|slots| - 1].Persistent? {
        var store := slots[|slots| - 1].store;
        var kept := if store.active then store.pack else map[];
        slots := slots[|slots| - 1 :=
                         Persistent(Spec.PackStore(store.writable, map[], true, store.packId + 1,
                                                   (kept + store.pending) - dropped, store.generation + 1))];
      }
    }

    method OnCompilationCompleted()
      requires Valid()
      modifies this
      ensures Valid() && State() == Spec.CompilationCompleted(old(State()))
    {
      if |slots| > 0 && slots[0].MemoryWithGc? {
        var done := slots[0].completed + 1;
        var layer := slots[0];
        var retained := map a | a in layer.remembered
                          && Spec.Unused(done, layer.remembered[a].lastUsed) < layer.maxUnused :: layer.remembered[a];
        slots := slots[0 := MemoryWithGc(retained, layer.maxUnused, done)];
      }
    }
  }

  function Stored(slot: Slot, address: Address, entry: CacheEntry): Slot {
    if slot.Writable() then slot.Store(address, entry) else slot
  }

  /** Storing slot by slot is storing in the layers. */
  lemma StoredEverywhere(before: seq<Slot>, after: seq<Slot>, address: Address, entry: CacheEntry)
    requires Ordered(before) && |after| == |before|
    requires forall j :: 0 <= j < |after| ==> after[j] == Stored(before[j], address, entry)
    ensures LayersOf(after) == Spec.Store(LayersOf(before), address, entry)
  {
    assert |before| == 0 || |before| == 1 || |before| == 2;
  }

  /** A layer was asked and did not have the value under the requested type. */
  ghost predicate Passed(before: Spec.Layers, now: Spec.Layers, kind: nat, address: Address, etag: ETag) {
    && now == Spec.Touched(before, address, etag)
    && var recalled := Spec.Recall(before, address, etag);
       recalled.Some? ==> recalled.value.kind != kind
  }

  lemma LookedUp(before: seq<Slot>, after: seq<Slot>, address: Address, etag: ETag)
    requires Ordered(before) && before != [] && !before[0].Persistent?
    requires after == before[0 := before[0].Lookup(address, etag).1]
    ensures LayersOf(after) == Spec.Touched(LayersOf(before), address, etag)
    ensures before[0].Lookup(address, etag).0 ==
            var recalled := Spec.Recall(LayersOf(before), address, etag);
            if recalled.Some? then Spec.Hit(recalled.value) else Spec.Miss
  {
    if before[0].Memory? {
      assert after == before;
    }
  }
}
