/** When a get has to answer: what was stored and is still kept somewhere is found again. */
module CacheHits {
  import opened Options
  import opened CacheLayerStates

  // ---- what is kept ----

  /** The entry is the latest at its address, and the persistent layer has it: pending, or in its pack. */
  ghost predicate Kept(s: System, address: Address, entry: CacheEntry) {
    && address in s.latest && s.latest[address] == entry
    && s.layers.store.Some? && s.layers.store.value.writable
    && (Waits(s, address, entry) || Packed(s, address, entry))
  }

  ghost predicate Waits(s: System, address: Address, entry: CacheEntry)
    requires s.layers.store.Some?
  {
    address in s.layers.store.value.pending && s.layers.store.value.pending[address] == entry
  }

  ghost predicate Packed(s: System, address: Address, entry: CacheEntry)
    requires s.layers.store.Some?
  {
    && address !in s.layers.store.value.pending
    && address in s.layers.store.value.pack && s.layers.store.value.pack[address] == entry
  }

  /** A step that stores nothing else at the address, does not clear, and does not publish. */
  predicate LeavesWaiting(act: Act, address: Address) {
    match act
    case StoreAct(a, _) => a != address
    case ClearAct => false
    case PublishAct(_) => false
    case _ => true
  }

  /** A step that may publish: an entry already packed must still be read then, and none may be dropped. */
  predicate LeavesKept(s: System, act: Act, address: Address) {
    match act
    case StoreAct(a, _) => a != address
    case ClearAct => false
    case PublishAct(dropped) =>
      address !in dropped && s.layers.store.Some? && (s.layers.store.value.active || address in s.layers.store.value.pending)
    case _ => true
  }

  ghost predicate AllLeaveKept(s: System, acts: seq<Act>, address: Address)
    decreases |acts|
  {
    acts != [] && Apply(s, acts[0]).Some? ==>
      LeavesKept(s, acts[0], address) && AllLeaveKept(Apply(s, acts[0]).value.system, acts[1..], address)
  }

  lemma StoreKeeps(s: System, address: Address, entry: CacheEntry)
    requires s.layers.store.Some? && s.layers.store.value.writable
    ensures var next := Apply(s, StoreAct(address, entry)).value.system;
            Kept(next, address, entry) && Waits(next, address, entry)
  {
  }

  lemma WaitingStep(s: System, act: Act, address: Address, entry: CacheEntry)
    requires Kept(s, address, entry) && Waits(s, address, entry) && Apply(s, act).Some? && LeavesWaiting(act, address)
    ensures var next := Apply(s, act).value.system;
            Kept(next, address, entry) && Waits(next, address, entry)
  {
  }

  lemma KeptStep(s: System, act: Act, address: Address, entry: CacheEntry)
    requires Kept(s, address, entry) && Apply(s, act).Some? && LeavesKept(s, act, address)
    ensures Kept(Apply(s, act).value.system, address, entry)
  {
  }

  lemma {:induction false} WaitingRun(s: System, acts: seq<Act>, address: Address, entry: CacheEntry)
    requires Kept(s, address, entry) && Waits(s, address, entry) && Run(s, acts).Some?
    requires forall act | act in acts :: LeavesWaiting(act, address)
    ensures Kept(Run(s, acts).value, address, entry) && Waits(Run(s, acts).value, address, entry)
    decreases |acts|
  {
    if acts != [] {
      WaitingStep(s, acts[0], address, entry);
      WaitingRun(Apply(s, acts[0]).value.system, acts[1..], address, entry);
    }
  }

  lemma {:induction false} KeptRun(s: System, acts: seq<Act>, address: Address, entry: CacheEntry)
    requires Kept(s, address, entry) && Run(s, acts).Some? && AllLeaveKept(s, acts, address)
    ensures Kept(Run(s, acts).value, address, entry)
    decreases |acts|
  {
    if acts != [] {
      KeptStep(s, acts[0], address, entry);
      KeptRun(Apply(s, acts[0]).value.system, acts[1..], address, entry);
    }
  }

  // ---- what is answered ----

  function AnswerWith(address: Address, entry: CacheEntry): Answer {
    Answer(entry.kind, address, entry.etag, Some(entry.value))
  }

  /** Whatever memory has at the address under the etag is the latest entry. */
  lemma RecallsLatest(s: System, address: Address, entry: CacheEntry)
    requires Inv(s) && address in s.latest && s.latest[address] == entry
    ensures Recall(s.layers, address, entry.etag).Some? ==> Recall(s.layers, address, entry.etag).value == entry
  {
  }

  /** What memory has under the kind and etag asked for is answered, in every configuration. */
  lemma RememberedIsAnswered(s: System, p: nat, address: Address)
    requires p !in s.getters && !s.layers.mode.NoMemory? && address in s.layers.memory
    ensures var entry := s.layers.memory[address].entry;
            Apply(s, BeginAct(p, entry.kind, address, entry.etag)).value.answer == Some(AnswerWith(address, entry))
  {
  }

  lemma WaitingIsAnswered(s: System, p: nat, address: Address, entry: CacheEntry)
    requires Inv(s) && Kept(s, address, entry) && Waits(s, address, entry) && p !in s.getters
    ensures Apply(s, BeginAct(p, entry.kind, address, entry.etag)).value.answer == Some(AnswerWith(address, entry))
  {
    RecallsLatest(s, address, entry);
  }

  /**
   * The last entry stored at an address, not published since, is answered at once to whoever asks
   * under its kind and etag: whether or not a pack is read, and whatever memory has evicted.
   */
  lemma UnpublishedIsAnswered(initial: System, before: seq<Act>, address: Address, entry: CacheEntry, since: seq<Act>, p: nat)
    requires OpenedWritable(initial) && initial.layers.store.Some?
    requires Run(initial, before + [StoreAct(address, entry)] + since).Some?
    requires forall act | act in since :: LeavesWaiting(act, address)
    ensures var s := Run(initial, before + [StoreAct(address, entry)] + since).value;
            p !in s.getters ==>
              Apply(s, BeginAct(p, entry.kind, address, entry.etag)).value.answer == Some(AnswerWith(address, entry))
  {
    var s, stored := RunSplit(initial, before, address, entry, since);
    WaitingRun(stored, since, address, entry);
    if p !in s.getters { WaitingIsAnswered(s, p, address, entry); }
  }

  /** A run cut after a store: where it was then, and where it ends, both sound. */
  lemma RunSplit(initial: System, before: seq<Act>, address: Address, entry: CacheEntry, since: seq<Act>)
    returns (s: System, stored: System)
    requires OpenedWritable(initial) && initial.layers.store.Some?
    requires Run(initial, before + [StoreAct(address, entry)] + since).Some?
    ensures Run(initial, before + [StoreAct(address, entry)] + since) == Some(s) && Inv(s)
    ensures Run(initial, before + [StoreAct(address, entry)]) == Some(stored)
    ensures Run(stored, since) == Some(s) && Inv(stored)
    ensures Kept(stored, address, entry) && Waits(stored, address, entry)
  {
    var store := StoreAct(address, entry);
    OpenedInv(initial);
    RunConcat(initial, before + [store], since);
    RunConcat(initial, before, [store]);
    var middle := Run(initial, before).value;
    RunInv(initial, before);
    StaysWritable(initial, before);
    assert [store][1..] == [];
    stored := Run(initial, before + [store]).value;
    assert Run(middle, [store]) == Some(Apply(middle, store).value.system);
    StoreKeeps(middle, address, entry);
    RunInv(initial, before + [store]);
    s := Run(stored, since).value;
    RunInv(initial, before + [store] + since);
  }

  lemma {:induction false} RunConcat(s: System, acts: seq<Act>, more: seq<Act>)
    requires Run(s, acts + more).Some?
    ensures Run(s, acts).Some? && Run(Run(s, acts).value, more) == Run(s, acts + more)
    decreases |acts|
  {
    if acts == [] {
      assert acts + more == more;
    } else {
      assert (acts + more)[1..] == acts[1..] + more;
      RunConcat(Apply(s, acts[0]).value.system, acts[1..], more);
    }
  }

  lemma WritableStep(s: System, act: Act)
    requires s.layers.store.Some? && s.layers.store.value.writable && Apply(s, act).Some?
    ensures var next := Apply(s, act).value.system; next.layers.store.Some? && next.layers.store.value.writable
  {
  }

  lemma {:induction false} StaysWritable(s: System, acts: seq<Act>)
    requires s.layers.store.Some? && s.layers.store.value.writable && Run(s, acts).Some?
    ensures Run(s, acts).value.layers.store.Some? && Run(s, acts).value.layers.store.value.writable
    decreases |acts|
  {
    if acts != [] {
      WritableStep(s, acts[0]);
      StaysWritable(Apply(s, acts[0]).value.system, acts[1..]);
    }
  }

  // ---- after a publication ----

  /** A get of the entry under way, with a sound plan, has decoded it if it decoded at all. */
  lemma DecodesIt(s: System, p: nat, address: Address, entry: CacheEntry)
    requires Inv(s) && Kept(s, address, entry) && p in s.getters && s.getters[p].Decoded?
    requires s.getters[p].address == address && s.getters[p].etag == entry.etag && s.getters[p].restored.Some?
    requires s.getters[p].restore.packId == s.layers.store.value.packId && Packed(s, address, entry)
    ensures s.getters[p].restored == Some(entry)
  {
    assert GetterSound(s.layers, s.getters[p]);
  }

  /** The answer is the entry, or the get goes on to decode. */
  ghost predicate AnswersOrDecodes(stepped: Stepped, p: nat, address: Address, entry: CacheEntry) {
    || stepped.answer == Some(AnswerWith(address, entry))
    || (&& stepped.answer.None? && p in stepped.system.getters && stepped.system.getters[p].Decoding?
        && stepped.system.getters[p].kind == entry.kind
        && stepped.system.getters[p].address == address && stepped.system.getters[p].etag == entry.etag)
  }

  /** While the pack is read, asking for a kept entry answers it or decodes. */
  lemma KeptIsFound(s: System, p: nat, address: Address, entry: CacheEntry)
    requires Inv(s) && Kept(s, address, entry) && p !in s.getters && s.layers.store.value.active
    ensures AnswersOrDecodes(Apply(s, BeginAct(p, entry.kind, address, entry.etag)).value, p, address, entry)
  {
    RecallsLatest(s, address, entry);
  }

  /** A decode that succeeded is answered, or repeated on the pack that is read by then. */
  lemma KeptIsRestored(s: System, p: nat, address: Address, entry: CacheEntry)
    requires Inv(s) && Kept(s, address, entry) && s.layers.store.value.active
    requires p in s.getters && s.getters[p].Decoded? && s.getters[p].restored.Some?
    requires s.getters[p].kind == entry.kind && s.getters[p].address == address && s.getters[p].etag == entry.etag
    ensures AnswersOrDecodes(Apply(s, FinishAct(p)).value, p, address, entry)
    ensures s.getters[p].restore.generation == s.layers.store.value.generation
            && s.getters[p].restore.packId == s.layers.store.value.packId ==>
              Apply(s, FinishAct(p)).value.answer == Some(AnswerWith(address, entry))
  {
    RecallsLatest(s, address, entry);
    if s.getters[p].restore.packId == s.layers.store.value.packId && Packed(s, address, entry) {
      DecodesIt(s, p, address, entry);
    }
  }

  /** The plan of a get that just began is on the pack that is read, which can be decoded. */
  lemma KeptCanBeDecoded(s: System, p: nat, address: Address, entry: CacheEntry)
    requires Inv(s) && Kept(s, address, entry) && p !in s.getters && s.layers.store.value.active
    ensures var begun := Apply(s, BeginAct(p, entry.kind, address, entry.etag)).value;
            begun.answer.None? ==>
              var decoded := Apply(begun.system, DecodeAct(p, Some(entry)));
              && decoded.Some?
              && Apply(decoded.value.system, FinishAct(p)).value.answer == Some(AnswerWith(address, entry))
  {
    RecallsLatest(s, address, entry);
    StepInv(s, BeginAct(p, entry.kind, address, entry.etag));
  }

  /**
   * The last entry stored at an address, published or not, as long as no publication dropped it and
   * the pack is read: it is answered at once, or the get decodes, and a decode that succeeds answers it.
   */
  lemma PublishedIsFound(initial: System, before: seq<Act>, address: Address, entry: CacheEntry, since: seq<Act>, p: nat)
    requires OpenedWritable(initial) && initial.layers.store.Some?
    requires Run(initial, before + [StoreAct(address, entry)] + since).Some?
    requires Run(initial, before + [StoreAct(address, entry)]).Some?
    requires AllLeaveKept(Run(initial, before + [StoreAct(address, entry)]).value, since, address)
    ensures var s := Run(initial, before + [StoreAct(address, entry)] + since).value;
            && s.layers.store.Some?
            && (p !in s.getters && s.layers.store.value.active ==>
                  var begun := Apply(s, BeginAct(p, entry.kind, address, entry.etag)).value;
                  && AnswersOrDecodes(begun, p, address, entry)
                  && (begun.answer.None? ==>
                        var decoded := Apply(begun.system, DecodeAct(p, Some(entry)));
                        && decoded.Some?
                        && Apply(decoded.value.system, FinishAct(p)).value.answer == Some(AnswerWith(address, entry))))
  {
    var s, stored := RunSplit(initial, before, address, entry, since);
    KeptRun(stored, since, address, entry);
    if p !in s.getters && s.layers.store.value.active {
      KeptIsFound(s, p, address, entry);
      KeptCanBeDecoded(s, p, address, entry);
    }
  }

  // ---- what a get leaves behind ----

  /** The memory layer has the entry, used in the generation that is being compiled. */
  predicate FreshIn(l: Layers, address: Address, entry: CacheEntry) {
    && address in l.memory && l.memory[address].entry == entry
    && (l.mode.WithGc? ==> l.memory[address].lastUsed == l.completed + 1)
  }

  /** Whatever a get answers at once is in memory from then on, renewed: the next one need not go deeper. */
  lemma AnsweredIsRemembered(s: System, p: nat, kind: nat, address: Address, etag: ETag)
    requires p !in s.getters && !s.layers.mode.NoMemory?
    ensures var begun := Apply(s, BeginAct(p, kind, address, etag)).value;
            begun.answer.Some? && begun.answer.value.value.Some? ==>
              && FreshIn(begun.system.layers, address, CacheEntry(kind, etag, begun.answer.value.value.value))
              && begun.system.getters == s.getters
  {
  }

  /** So is what a get answers after a decode. */
  lemma RestoredIsRemembered(s: System, p: nat)
    requires Inv(s) && p in s.getters && s.getters[p].Decoded? && !s.layers.mode.NoMemory?
    ensures s.layers.store.Some?
    ensures var g := s.getters[p];
            var finished := Apply(s, FinishAct(p)).value;
            && (finished.answer.Some? ==> finished.system.getters == s.getters - {p})
            && (finished.answer.Some? && finished.answer.value.value.Some? ==>
                  FreshIn(finished.system.layers, g.address, CacheEntry(g.kind, g.etag, finished.answer.value.value.value)))
  {
    assert GetterSound(s.layers, s.getters[p]);
  }

  // ---- when the pack is read ----

  /** Nothing above the pack has the address. */
  predicate OnlyInPack(l: Layers, address: Address) {
    address !in l.memory && (l.store.Some? ==> address !in l.store.value.pending)
  }

  /** A preparation decides whether the pack is read; a publication makes it read, a clear unread. */
  lemma PackIsReadIff(s: System, act: Act, p: nat, kind: nat, address: Address, etag: ETag)
    requires s.layers.store.Some? && Apply(s, act).Some?
    requires act.PrepareAct? || act.ClearAct? || (act.PublishAct? && s.layers.store.value.writable)
    ensures var next := Apply(s, act).value.system;
            p !in next.getters && OnlyInPack(next.layers, address) ==>
              var begun := Apply(next, BeginAct(p, kind, address, etag)).value;
              && (p in begun.system.getters <==> act.PublishAct? || act == PrepareAct(true))
              && (p in begun.system.getters ==>
                    (begun.answer.None? && begun.system.getters[p].restore.pack == next.layers.store.value.pack))
              && (p !in begun.system.getters ==> begun.answer == Some(Answer(kind, address, etag, None)))
  {
  }

  // ---- a change of readers while a get decodes ----

  /** Every plan was made under this generation of readers or an earlier one. */
  ghost predicate PlansKnown(s: System) {
    forall p | p in s.getters && s.layers.store.Some? :: s.getters[p].restore.generation <= s.layers.store.value.generation
  }

  /** The readers have changed since the plan of this get was made. */
  ghost predicate Outdated(s: System, p: nat) {
    p in s.getters && s.layers.store.Some? && s.getters[p].restore.generation < s.layers.store.value.generation
  }

  predicate ChangesReaders(s: System, act: Act) {
    act.ClearAct? || act.PrepareAct? || (act.PublishAct? && !ReadOnly(s.layers))
  }

  lemma PlansKnownStep(s: System, act: Act)
    requires PlansKnown(s) && Apply(s, act).Some? && s.layers.store.Some?
    ensures PlansKnown(Apply(s, act).value.system) && Apply(s, act).value.system.layers.store.Some?
    ensures ChangesReaders(s, act) ==> forall p | p in s.getters :: Outdated(Apply(s, act).value.system, p)
    ensures act.FinishAct? || act.BeginAct? || act.DecodeAct? || act.StoreAct? || act.CompleteAct? ==>
              Apply(s, act).value.system.layers.store.value.generation == s.layers.store.value.generation
  {
  }

  lemma OutdatedStep(s: System, act: Act, p: nat)
    requires Outdated(s, p) && Apply(s, act).Some? && act != FinishAct(p)
    ensures Outdated(Apply(s, act).value.system, p)
  {
  }

  /** What was decoded from readers that have changed since never counts: the get misses, or decodes again. */
  lemma OutdatedDecodesAgain(s: System, p: nat)
    requires Outdated(s, p) && s.getters[p].Decoded? && OnlyInPack(s.layers, s.getters[p].address)
    ensures var g := s.getters[p];
            var finished := Apply(s, FinishAct(p)).value;
            if s.layers.store.value.active
            then finished.answer.None? && finished.system.getters[p]
                   == Decoding(g.kind, g.address, g.etag, Restore(s.layers.store.value.packId, s.layers.store.value.generation, s.layers.store.value.pack))
            else finished.answer == Some(Answer(g.kind, g.address, g.etag, None))
  {
  }

  lemma {:induction false} OutdatedRun(s: System, acts: seq<Act>, p: nat)
    requires Outdated(s, p) && FinishAct(p) !in acts && Run(s, acts).Some?
    ensures Outdated(Run(s, acts).value, p)
    decreases |acts|
  {
    if acts != [] {
      OutdatedStep(s, acts[0], p);
      OutdatedRun(Apply(s, acts[0]).value.system, acts[1..], p);
    }
  }

  lemma {:induction false} PlansKnownRun(s: System, acts: seq<Act>)
    requires PlansKnown(s) && s.layers.store.Some? && Run(s, acts).Some?
    ensures PlansKnown(Run(s, acts).value) && Run(s, acts).value.layers.store.Some?
    decreases |acts|
  {
    if acts != [] {
      PlansKnownStep(s, acts[0]);
      PlansKnownRun(Apply(s, acts[0]).value.system, acts[1..]);
    }
  }

  /**
   * Over every run: once the pack was published, prepared or cleared, no get that began before answers
   * what it decoded before, unless it decodes again.
   */
  lemma ChangedReadersDecodeAgain(initial: System, before: seq<Act>, act: Act, since: seq<Act>, p: nat)
    requires Opened(initial) && initial.layers.store.Some? && Run(initial, before).Some?
    requires p in Run(initial, before).value.getters && ChangesReaders(Run(initial, before).value, act)
    requires Apply(Run(initial, before).value, act).Some?
    requires Run(Apply(Run(initial, before).value, act).value.system, since).Some? && FinishAct(p) !in since
    ensures var s := Run(Apply(Run(initial, before).value, act).value.system, since).value;
            && Outdated(s, p)
            && (s.getters[p].Decoded? && OnlyInPack(s.layers, s.getters[p].address) ==>
                  var finished := Apply(s, FinishAct(p)).value;
                  finished.answer.None? || finished.answer.value.value.None?)
  {
    PlansKnownRun(initial, before);
    PlansKnownStep(Run(initial, before).value, act);
    var changed := Apply(Run(initial, before).value, act).value.system;
    OutdatedRun(changed, since, p);
    var s := Run(changed, since).value;
    if s.getters[p].Decoded? && OnlyInPack(s.layers, s.getters[p].address) { OutdatedDecodesAgain(s, p); }
  }
}
