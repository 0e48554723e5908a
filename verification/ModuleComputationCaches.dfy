/** Memoised computations on unaffected modules, and why they agree with recomputation. */
module ModuleComputationCaches {
  import opened Options
  import opened Reachability
  import opened Sequences

  type Identity = string
  type Exports = string
  type Requirements = set<string>
  type ChunkReferences = string

  datatype Reference = Reference(block: Option<nat>, dependency: Option<nat>, target: Identity)

  datatype PreSignature = PreSignature(sourceHash: nat, buildError: Option<string>, references: seq<Reference>)

  datatype PostSignature = PostSignature(references: ChunkReferences, exports: Exports)

  datatype PostEntry = PostEntry(signature: PostSignature, runtimeRequirements: Option<Requirements>, moduleHash: Option<nat>)

  datatype Entry = Entry(
    signature: PreSignature,
    providedExports: Option<Exports>,
    staticReachable: Option<seq<Identity>>,
    post: Option<PostEntry>)

  type Signatures = map<Identity, PreSignature>
  type Entries = map<Identity, Entry>

  /** A finished module graph: modules in handle order, with what invalidation looks at. */
  datatype Graph = Graph(order: seq<Identity>, signatures: Signatures)
  {
    ghost predicate Valid() {
      && Distinct(order)
      && Members(order) == signatures.Keys
      && forall id, r | id in signatures && r in signatures[id].references :: r.target in signatures
    }
  }

  // ---- what a module's memos may depend on ----

  predicate RefersTo(signature: PreSignature, target: Identity) {
    exists r | r in signature.references :: r.target == target
  }

  ghost function Edges(signatures: Signatures): set<(Identity, Identity)> {
    set from, r | from in signatures && r in signatures[from].references :: (from, r.target)
  }

  /** The signatures of a module's forward closure. */
  ghost function View(signatures: Signatures, id: Identity): Signatures {
    map x | x in signatures && Reaches(Edges(signatures), id, x) :: signatures[x]
  }

  /** The computations being memoised: they see the module's view, and the late ones what was assigned to it. */
  datatype Recompute = Recompute(
    exports: (Identity, Signatures) -> Exports,
    reachable: (Identity, Signatures) -> seq<Identity>,
    requirements: (Identity, Signatures, PostSignature) -> Requirements,
    hash: (Identity, Signatures, PostSignature) -> nat)

  ghost predicate EntryAgrees(recompute: Recompute, signatures: Signatures, id: Identity, entry: Entry) {
    && id in signatures
    && entry.signature == signatures[id]
    && (entry.providedExports.Some? ==> entry.providedExports.value == recompute.exports(id, View(signatures, id)))
    && (entry.staticReachable.Some? ==> entry.staticReachable.value == recompute.reachable(id, View(signatures, id)))
    && (entry.post.Some? ==> PostAgrees(recompute, View(signatures, id), id, entry.post.value))
  }

  ghost predicate PostAgrees(recompute: Recompute, view: Signatures, id: Identity, post: PostEntry) {
    && (post.runtimeRequirements.Some? ==>
          post.runtimeRequirements.value == recompute.requirements(id, view, post.signature))
    && (post.moduleHash.Some? ==> post.moduleHash.value == recompute.hash(id, view, post.signature))
  }

  /** Every memo equals recomputation on the graph with these signatures. */
  ghost predicate Agrees(recompute: Recompute, entries: Entries, signatures: Signatures) {
    entries.Keys == signatures.Keys && forall id | id in entries :: EntryAgrees(recompute, signatures, id, entries[id])
  }

  // ---- invalidation ----

  predicate Changed(entries: Entries, signatures: Signatures, id: Identity) {
    id in signatures && (id !in entries || entries[id].signature != signatures[id])
  }

  /** Something the module reaches, itself included, is new or has a new signature. */
  ghost predicate Affected(entries: Entries, signatures: Signatures, id: Identity) {
    exists x :: Reaches(Edges(signatures), id, x) && Changed(entries, signatures, x)
  }

  ghost function Prepared(entries: Entries, signatures: Signatures): Entries {
    map id | id in signatures ::
      if id !in entries || Affected(entries, signatures, id) then Entry(signatures[id], None, None, None) else entries[id]
  }

  lemma {:induction false} PathSurvives(before: Signatures, after: Signatures, path: seq<Identity>)
    requires IsPath(Edges(after), path)
    requires forall x | x in after && Reaches(Edges(after), path[0], x) :: x in before && before[x] == after[x]
    ensures IsPath(Edges(before), path)
  {
    forall i | 0 <= i < |path| - 1
      ensures (path[i], path[i + 1]) in Edges(before)
    {
      assert (path[i], path[i + 1]) in Edges(after);
      assert PathBetween(Edges(after), path[..i + 1], path[0], path[i]) by {
        assert forall k | 0 <= k < i :: (path[k], path[k + 1]) in Edges(after);
      }
      assert path[i] in after && before[path[i]] == after[path[i]];
    }
  }

  lemma {:induction false} PathReturns(before: Signatures, after: Signatures, path: seq<Identity>)
    requires IsPath(Edges(before), path) && path[0] in after
    requires forall x | x in after && Reaches(Edges(after), path[0], x) :: x in before && before[x] == after[x]
    requires forall id, r | id in after && r in after[id].references :: r.target in after
    ensures Reaches(Edges(after), path[0], path[|path| - 1]) && path[|path| - 1] in after
    decreases |path|
  {
    if |path| == 1 {
      ReachesSelf(Edges(after), path[0]);
    } else {
      var shorter := path[..|path| - 1];
      assert forall i | 0 <= i < |shorter| - 1 :: shorter[i] == path[i] && (path[i], path[i + 1]) in Edges(before);
      PathReturns(before, after, shorter);
      var last := shorter[|shorter| - 1];
      assert (path[|path| - 2], path[|path| - 1]) in Edges(before);
      assert (last, path[|path| - 1]) in Edges(after);
      ReachesStep(Edges(after), path[0], last, path[|path| - 1]);
    }
  }

  /** If nothing a module reaches has changed, it reaches the same modules as before. */
  lemma UnaffectedView(before: Signatures, after: Signatures, id: Identity)
    requires id in after
    requires forall x | x in after && Reaches(Edges(after), id, x) :: x in before && before[x] == after[x]
    requires forall x, r | x in after && r in after[x].references :: r.target in after
    ensures View(before, id) == View(after, id)
  {
    forall x
      ensures x in View(after, id) <==> x in View(before, id)
    {
      if x in View(after, id) {
        var path :| PathBetween(Edges(after), path, id, x);
        PathSurvives(before, after, path);
        assert PathBetween(Edges(before), path, id, x);
      } else if x in View(before, id) {
        var path :| PathBetween(Edges(before), path, id, x);
        PathReturns(before, after, path);
      }
    }
  }

  /** Memos that survive a new graph equal recomputation on it. */
  lemma PreparedAgrees(recompute: Recompute, entries: Entries, before: Signatures, graph: Graph)
    requires Agrees(recompute, entries, before) && graph.Valid()
    ensures Agrees(recompute, Prepared(entries, graph.signatures), graph.signatures)
  {
    var after := graph.signatures;
    forall id | id in after
      ensures EntryAgrees(recompute, after, id, Prepared(entries, after)[id])
    {
      if id in entries && !Affected(entries, after, id) {
        forall x | x in after && Reaches(Edges(after), id, x)
          ensures x in before && before[x] == after[x]
        {
          assert !Changed(entries, after, x);
          assert EntryAgrees(recompute, before, x, entries[x]);
        }
        UnaffectedView(before, after, id);
        ReachesSelf(Edges(after), id);
        assert EntryAgrees(recompute, before, id, entries[id]);
      }
    }
  }

  /** The later stage: memos keyed by chunk references and exports. */
  ghost function Assigned(entries: Entries, posts: map<Identity, PostSignature>): Entries {
    map id | id in entries :: if id in posts then AssignedEntry(entries[id], posts[id]) else entries[id]
  }

  function AssignedEntry(entry: Entry, post: PostSignature): Entry {
    if entry.post.Some? && entry.post.value.signature == post then entry
    else entry.(post := Some(PostEntry(post, None, None)))
  }

  /** A late memo that survives both stages equals recomputation from the current signatures. */
  lemma AssignedAgrees(recompute: Recompute, entries: Entries, signatures: Signatures, posts: map<Identity, PostSignature>)
    requires Agrees(recompute, entries, signatures) && posts.Keys == signatures.Keys
    ensures Agrees(recompute, Assigned(entries, posts), signatures)
    ensures forall id | id in signatures ::
              var post := Assigned(entries, posts)[id].post;
              && post.Some? && post.value.signature == posts[id]
              && (post.value.moduleHash.Some? ==>
                    post.value.moduleHash.value == recompute.hash(id, View(signatures, id), posts[id]))
              && (post.value.runtimeRequirements.Some? ==>
                    post.value.runtimeRequirements.value == recompute.requirements(id, View(signatures, id), posts[id]))
  {
    forall id | id in signatures
      ensures EntryAgrees(recompute, signatures, id, Assigned(entries, posts)[id])
    {
      assert EntryAgrees(recompute, signatures, id, entries[id]);
    }
  }

  // ---- any sequence of compilations ----

  /** One compilation: its graph, its late signatures, and whose results it computed and stored. */
  datatype Compilation = Compilation(
    graph: Graph,
    posts: map<Identity, PostSignature>,
    exportsStored: set<Identity>,
    reachableStored: set<Identity>,
    requirementsStored: set<Identity>,
    hashesStored: set<Identity>)
  {
    ghost predicate Valid() {
      graph.Valid() && posts.Keys == graph.signatures.Keys
    }
  }

  /** What a compilation stores is what it computed on its own graph. */
  ghost function WithResults(recompute: Recompute, e: Entry, id: Identity, c: Compilation): Entry {
    var view := View(c.graph.signatures, id);
    Entry(e.signature,
          if id in c.exportsStored then Some(recompute.exports(id, view)) else e.providedExports,
          if id in c.reachableStored then Some(recompute.reachable(id, view)) else e.staticReachable,
          if e.post.None? then None
          else Some(PostEntry(
            e.post.value.signature,
            if id in c.requirementsStored then Some(recompute.requirements(id, view, e.post.value.signature))
            else e.post.value.runtimeRequirements,
            if id in c.hashesStored then Some(recompute.hash(id, view, e.post.value.signature))
            else e.post.value.moduleHash)))
  }

  ghost function AfterCompilation(recompute: Recompute, entries: Entries, c: Compilation): Entries {
    var late := Assigned(Prepared(entries, c.graph.signatures), c.posts);
    map id | id in late :: WithResults(recompute, late[id], id, c)
  }

  ghost function AfterHistory(recompute: Recompute, history: seq<Compilation>): Entries {
    if history == [] then map[]
    else AfterCompilation(recompute, AfterHistory(recompute, history[..|history| - 1]), history[|history| - 1])
  }

  ghost function LastSignatures(history: seq<Compilation>): Signatures {
    if history == [] then map[] else history[|history| - 1].graph.signatures
  }

  /** The incremental answer equals the answer from scratch after any sequence of compilations. */
  lemma {:induction false} HistoryAgrees(recompute: Recompute, history: seq<Compilation>)
    requires forall i | 0 <= i < |history| :: history[i].Valid()
    ensures Agrees(recompute, AfterHistory(recompute, history), LastSignatures(history))
    decreases |history|
  {
    if history != [] {
      var earlier, c := history[..|history| - 1], history[|history| - 1];
      HistoryAgrees(recompute, earlier);
      var entries := AfterHistory(recompute, earlier);
      PreparedAgrees(recompute, entries, LastSignatures(earlier), c.graph);
      var prepared := Prepared(entries, c.graph.signatures);
      AssignedAgrees(recompute, prepared, c.graph.signatures, c.posts);
      var late := Assigned(prepared, c.posts);
      forall id | id in late
        ensures EntryAgrees(recompute, c.graph.signatures, id, WithResults(recompute, late[id], id, c))
      {
        assert EntryAgrees(recompute, c.graph.signatures, id, late[id]);
      }
    }
  }

  // ---- memos in terms of handles ----

  /** Handles number the modules in the order of the graph. */
  ghost predicate HandlesOf(graph: Graph, handles: map<Identity, nat>) {
    && handles.Keys == graph.signatures.Keys
    && forall h | 0 <= h < |graph.order| :: graph.order[h] in handles && handles[graph.order[h]] == h
  }

  /** A static closure lies within the forward closure it is computed on. */
  ghost predicate Confined(recompute: Recompute) {
    forall id, view: Signatures, x | x in recompute.reachable(id, view) :: x in view
  }

  /** The static closure computed anew on a graph, as its handles. */
  ghost predicate IsReachableAnew(recompute: Recompute, graph: Graph, id: Identity, handles: seq<nat>) {
    var anew := recompute.reachable(id, View(graph.signatures, id));
    && |handles| == |anew|
    && forall k | 0 <= k < |handles| :: handles[k] < |graph.order| && graph.order[handles[k]] == anew[k]
  }

  /**
   * On a new graph, in which modules may have departed and others have other handles, a memo of a
   * module that nothing changed beneath still translates, to exactly what recomputation would give.
   */
  lemma SurvivorTranslates(recompute: Recompute, entries: Entries, before: Signatures, graph: Graph,
                           handles: map<Identity, nat>, id: Identity)
    requires Agrees(recompute, entries, before) && graph.Valid() && HandlesOf(graph, handles) && Confined(recompute)
    requires id in entries && id in graph.signatures && !Affected(entries, graph.signatures, id)
    requires entries[id].staticReachable.Some?
    ensures var memo := Prepared(entries, graph.signatures)[id].staticReachable;
            && memo == entries[id].staticReachable
            && (forall k | 0 <= k < |memo.value| :: memo.value[k] in handles)
            && IsReachableAnew(recompute, graph, id, Translated(memo.value, handles))
  {
    PreparedAgrees(recompute, entries, before, graph);
    assert EntryAgrees(recompute, graph.signatures, id, Prepared(entries, graph.signatures)[id]);
    var memo := entries[id].staticReachable.value;
    forall k | 0 <= k < |memo| ensures memo[k] in handles && graph.order[handles[memo[k]]] == memo[k] {
      assert memo[k] in memo && memo[k] in Members(graph.order);
      var h :| 0 <= h < |graph.order| && graph.order[h] == memo[k];
      assert handles[graph.order[h]] == h;
    }
  }

  function Translated(identities: seq<Identity>, handles: map<Identity, nat>): seq<nat>
    requires forall k | 0 <= k < |identities| :: identities[k] in handles
  {
    seq(|identities|, k requires 0 <= k < |identities| => handles[identities[k]])
  }

  /** A memo of a module that nothing changed beneath is kept, so the cache is not emptied. */
  lemma UnaffectedKeepsMemos(entries: Entries, signatures: Signatures, id: Identity)
    requires id in entries && id in signatures && !Affected(entries, signatures, id)
    ensures Prepared(entries, signatures)[id] == entries[id]
  {
  }

  /** A late memo whose chunk references and exports did not move is kept as well. */
  lemma UnchangedLateMemoKept(entries: Entries, posts: map<Identity, PostSignature>, id: Identity)
    requires id in entries && id in posts && entries[id].post.Some?
    ensures Assigned(entries, posts)[id].post == entries[id].post <==>
              entries[id].post.value.signature == posts[id]
    ensures Assigned(entries, posts)[id] == entries[id].(post := Assigned(entries, posts)[id].post)
    ensures entries[id].post.value.signature != posts[id] ==>
              Assigned(entries, posts)[id].post == Some(PostEntry(posts[id], None, None))
  {
  }

  /** A compilation that changed nothing beneath a module, and assigned it the same, keeps all its memos. */
  lemma UntouchedModuleKeepsAll(recompute: Recompute, entries: Entries, c: Compilation, id: Identity)
    requires c.Valid() && id in entries && id in c.posts && !Affected(entries, c.graph.signatures, id)
    requires entries[id].post.Some? && entries[id].post.value.signature == c.posts[id]
    requires id !in c.exportsStored && id !in c.reachableStored && id !in c.requirementsStored && id !in c.hashesStored
    ensures AfterCompilation(recompute, entries, c)[id] == entries[id]
  {
    UnaffectedKeepsMemos(entries, c.graph.signatures, id);
  }

  // ---- the object ----

  /** The modules with a reference to `target`. */
  method IncomingOrigins(graph: Graph, target: Identity) returns (origins: seq<Identity>)
    requires graph.Valid()
    ensures forall o :: o in origins <==> (o, target) in Edges(graph.signatures)
  {
    origins := [];
    for i := 0 to |graph.order|
      invariant forall o :: o in origins <==> o in graph.order[..i] && RefersTo(graph.signatures[o], target)
    {
      var o := graph.order[i];
      assert o in graph.order;
      if RefersTo(graph.signatures[o], target) {
        origins := origins + [o];
      }
      assert graph.order[..i + 1] == graph.order[..i] + [o];
    }
    assert graph.order[..|graph.order|] == graph.order;
  }

  ghost function Importers(signatures: Signatures, target: Identity): set<Identity> {
    set o | o in signatures && (o, target) in Edges(signatures)
  }

  /** Where the invalidation loop stands. */
  ghost predicate Spreading(entries: Entries, graph: Graph, affected: set<Identity>, queue: seq<Identity>) {
    && affected <= graph.signatures.Keys
    && (forall id | id in queue :: id in affected)
    && (forall id | id in affected :: Affected(entries, graph.signatures, id))
    && (forall id | Changed(entries, graph.signatures, id) :: id in affected)
    && (forall edge | edge in Edges(graph.signatures) && edge.1 in affected && edge.1 !in queue :: edge.0 in affected)
  }

  lemma SpreadingStarts(entries: Entries, graph: Graph, queue: seq<Identity>)
    requires graph.Valid()
    requires forall id :: id in queue <==> Changed(entries, graph.signatures, id)
    ensures Spreading(entries, graph, Members(queue), queue)
  {
    forall id | id in queue
      ensures Affected(entries, graph.signatures, id)
    {
      ReachesSelf(Edges(graph.signatures), id);
    }
  }

  lemma SpreadingStep(entries: Entries, graph: Graph, affected: set<Identity>, queue: seq<Identity>,
                      more: set<Identity>, longer: seq<Identity>)
    requires Spreading(entries, graph, affected, queue) && queue != [] && graph.Valid()
    requires more == affected + Importers(graph.signatures, queue[0])
    requires forall id :: id in longer <==> id in queue[1..] || (id in more && id !in affected)
    ensures Spreading(entries, graph, more, longer)
  {
    var edges := Edges(graph.signatures);
    forall id | id in more
      ensures Affected(entries, graph.signatures, id)
    {
      if id !in affected {
        var x :| Reaches(edges, queue[0], x) && Changed(entries, graph.signatures, x);
        ReachesAfterEdge(edges, id, queue[0], x);
      }
    }
    assert queue == [queue[0]] + queue[1..];
  }

  lemma SpreadingEnds(entries: Entries, graph: Graph, affected: set<Identity>)
    requires Spreading(entries, graph, affected, [])
    ensures forall id :: id in affected <==> Affected(entries, graph.signatures, id)
  {
    forall id | Affected(entries, graph.signatures, id)
      ensures id in affected
    {
      var x :| Reaches(Edges(graph.signatures), id, x) && Changed(entries, graph.signatures, x);
      BackwardClosedContains(Edges(graph.signatures), affected, id, x);
    }
  }

  function Kept(entries: Entries, signatures: Signatures): Entries {
    map id | id in entries && id in signatures :: entries[id]
  }

  ghost function Refreshed(kept: Entries, signatures: Signatures, affected: set<Identity>): Entries {
    map id | id in signatures ::
      if id !in kept || id in affected then Entry(signatures[id], None, None, None) else kept[id]
  }

  /** The entries named in `done` are final, the others are still the old ones. */
  ghost predicate Merged(now: Entries, before: Entries, final: Entries, done: set<Identity>) {
    && done <= final.Keys
    && now.Keys == before.Keys + done
    && forall id | id in now :: now[id] == if id in done then final[id] else before[id]
  }

  lemma MergedStep(now: Entries, before: Entries, final: Entries, done: set<Identity>, id: Identity)
    requires Merged(now, before, final, done) && id in final
    ensures Merged(now[id := final[id]], before, final, done + {id})
    ensures id in now && now[id] == final[id] ==> Merged(now, before, final, done + {id})
  {
  }

  /** The next module in handle order is still as it was; writing its final entry moves on by one. */
  lemma MergedNext(now: Entries, before: Entries, final: Entries, graph: Graph, i: nat)
    requires graph.Valid() && i < |graph.order| && final.Keys == graph.signatures.Keys
    requires Merged(now, before, final, Members(graph.order[..i]))
    ensures var id := graph.order[i];
            && id in final && (id in now <==> id in before) && (id in now ==> now[id] == before[id])
            && Merged(now[id := final[id]], before, final, Members(graph.order[..i + 1]))
            && (id in now && now[id] == final[id] ==> Merged(now, before, final, Members(graph.order[..i + 1])))
  {
    var id := graph.order[i];
    assert id in graph.order && id in Members(graph.order) && id !in graph.order[..i];
    assert graph.order[..i + 1] == graph.order[..i] + [id];
    assert Members(graph.order[..i + 1]) == Members(graph.order[..i]) + {id};
    MergedStep(now, before, final, Members(graph.order[..i]), id);
  }

  lemma RefreshedIsPrepared(entries: Entries, signatures: Signatures, affected: set<Identity>)
    requires forall id :: id in affected <==> Affected(Kept(entries, signatures), signatures, id)
    ensures Refreshed(Kept(entries, signatures), signatures, affected) == Prepared(entries, signatures)
  {
    forall x
      ensures Changed(Kept(entries, signatures), signatures, x) <==> Changed(entries, signatures, x)
    {
    }
    forall id
      ensures id in affected <==> Affected(entries, signatures, id)
    {
      if x :| Reaches(Edges(signatures), id, x) && Changed(entries, signatures, x) {
        assert Changed(Kept(entries, signatures), signatures, x);
      }
    }
  }

  class ModuleComputationCache {
    var modules: Entries
    var currentHandles: map<Identity, nat>

    constructor ()
      ensures modules == map[] && currentHandles == map[]
    {
      modules := map[];
      currentHandles := map[];
    }

    method CollectChanged(graph: Graph) returns (changed: seq<Identity>)
      requires graph.Valid()
      ensures forall id :: id in changed <==> Changed(modules, graph.signatures, id)
    {
      changed := [];
      for i := 0 to |graph.order|
        invariant forall id :: id in changed <==> id in graph.order[..i] && Changed(modules, graph.signatures, id)
      {
        if Changed(modules, graph.signatures, graph.order[i]) {
          changed := changed + [graph.order[i]];
        }
        assert graph.order[..i + 1] == graph.order[..i] + [graph.order[i]];
      }
      assert graph.order[..|graph.order|] == graph.order;
    }

    /** The modules that reach a new or changed one. */
    method CollectAffected(graph: Graph) returns (affected: set<Identity>)
      requires graph.Valid()
      ensures forall id :: id in affected <==> Affected(modules, graph.signatures, id)
    {
      var queue := CollectChanged(graph);
      affected := Members(queue);
      SpreadingStarts(modules, graph, queue);
      while queue != []
        invariant Spreading(modules, graph, affected, queue)
        decreases graph.signatures.Keys - affected, |queue|
      {
        affected, queue := SpreadOnce(graph, affected, queue);
      }
      SpreadingEnds(modules, graph, affected);
    }

    /** The importers of one affected module are affected. */
    method SpreadOnce(graph: Graph, affected: set<Identity>, queue: seq<Identity>)
      returns (more: set<Identity>, longer: seq<Identity>)
      requires graph.Valid() && queue != [] && Spreading(modules, graph, affected, queue)
      ensures Spreading(modules, graph, more, longer) && affected <= more
      ensures graph.signatures.Keys - more < graph.signatures.Keys - affected || (more == affected && |longer| < |queue|)
    {
      var origins := IncomingOrigins(graph, queue[0]);
      more, longer := InsertNew(affected, origins, queue[1..]);
      assert Members(origins) == Importers(graph.signatures, queue[0]);
      SpreadingStep(modules, graph, affected, queue, more, longer);
      if more != affected {
        var id :| id in more && id !in affected;
        assert id in graph.signatures.Keys - affected && id !in graph.signatures.Keys - more;
      }
    }

    /** Inserts the origins not affected yet and queues exactly those. */
    method InsertNew(affected: set<Identity>, origins: seq<Identity>, queue: seq<Identity>)
      returns (more: set<Identity>, longer: seq<Identity>)
      ensures more == affected + Members(origins)
      ensures forall id :: id in longer <==> id in queue || (id in more && id !in affected)
      ensures more == affected ==> longer == queue
    {
      more, longer := affected, queue;
      for i := 0 to |origins|
        invariant more == affected + Members(origins[..i])
        invariant forall id :: id in longer <==> id in queue || (id in more && id !in affected)
        invariant more == affected ==> longer == queue
      {
        if origins[i] !in more {
          more := more + {origins[i]};
          longer := longer + [origins[i]];
        }
        assert origins[..i + 1] == origins[..i] + [origins[i]];
      }
      assert origins[..|origins|] == origins;
    }

    method UpdateHandles(graph: Graph)
      requires graph.Valid()
      modifies `currentHandles
      ensures HandlesOf(graph, currentHandles)
    {
      currentHandles := map[];
      for h := 0 to |graph.order|
        invariant currentHandles.Keys == Members(graph.order[..h])
        invariant forall k | 0 <= k < h :: currentHandles[graph.order[k]] == k
      {
        assert graph.order[..h + 1] == graph.order[..h] + [graph.order[h]];
        currentHandles := currentHandles[graph.order[h] := h];
      }
      assert graph.order[..|graph.order|] == graph.order;
    }

    /** Empties the entries of affected modules and adds those of new ones. */
    method RefreshEntries(graph: Graph, affected: set<Identity>)
      requires graph.Valid() && modules.Keys <= graph.signatures.Keys
      modifies `modules
      ensures modules == Refreshed(old(modules), graph.signatures, affected)
    {
      ghost var kept := modules;
      for i := 0 to |graph.order|
        invariant Merged(modules, kept, Refreshed(kept, graph.signatures, affected), Members(graph.order[..i]))
      {
        var id := graph.order[i];
        MergedNext(modules, kept, Refreshed(kept, graph.signatures, affected), graph, i);
        if id !in modules || id in affected {
          modules := modules[id := Entry(graph.signatures[id], None, None, None)];
        }
      }
      assert graph.order[..|graph.order|] == graph.order;
    }

    /** First stage: forget departed modules, and every memo that may have become wrong. */
    method PrepareBeforeChunkGraph(graph: Graph)
      requires graph.Valid()
      modifies this
      ensures modules == Prepared(old(modules), graph.signatures)
      ensures HandlesOf(graph, currentHandles)
    {
      ghost var before := modules;
      modules := Kept(modules, graph.signatures);
      UpdateHandles(graph);
      var affected := CollectAffected(graph);
      RefreshEntries(graph, affected);
      RefreshedIsPrepared(before, graph.signatures, affected);
    }

    /** Second stage: replaces late memos whose chunk references or exports moved. */
    method PrepareAfterIdAssignment(graph: Graph, posts: map<Identity, PostSignature>)
      requires graph.Valid() && modules.Keys == graph.signatures.Keys == posts.Keys
      modifies `modules
      ensures modules == Assigned(old(modules), posts)
    {
      ghost var before := modules;
      for i := 0 to |graph.order|
        invariant Merged(modules, before, Assigned(before, posts), Members(graph.order[..i]))
      {
        var id := graph.order[i];
        MergedNext(modules, before, Assigned(before, posts), graph, i);
        var entry := modules[id];
        if entry.post.None? || entry.post.value.signature != posts[id] {
          modules := modules[id := entry.(post := Some(PostEntry(posts[id], None, None)))];
        }
      }
      assert graph.order[..|graph.order|] == graph.order;
    }

    /** The memoised static closure as handles of the current graph; None on a miss. */
    method GetStaticReachable(id: Identity) returns (handles: Option<seq<nat>>)
      ensures handles.Some? <==> (id in modules && modules[id].staticReachable.Some?
                                  && forall x | x in modules[id].staticReachable.value :: x in currentHandles)
      ensures handles.Some? ==> handles.value == Translated(modules[id].staticReachable.value, currentHandles)
    {
      if id !in modules || modules[id].staticReachable.None? {
        return None;
      }
      var identities := modules[id].staticReachable.value;
      var found := [];
      for k := 0 to |identities|
        invariant |found| == k
        invariant forall j | 0 <= j < k :: identities[j] in currentHandles && found[j] == currentHandles[identities[j]]
      {
        if identities[k] !in currentHandles {
          return None;
        }
        found := found + [currentHandles[identities[k]]];
      }
      return Some(found);
    }

    method StoreStaticReachable(id: Identity, identities: seq<Identity>)
      requires id in modules
      modifies `modules
      ensures modules == old(modules)[id := old(modules)[id].(staticReachable := Some(identities))]
    {
      modules := modules[id := modules[id].(staticReachable := Some(identities))];
    }

    /** Whatever is answered is what hashing the module anew would give, while the memos agree. */
    method GetModuleHash(id: Identity, ghost recompute: Recompute, ghost signatures: Signatures) returns (hash: Option<nat>)
      ensures hash.Some? ==> id in modules && modules[id].post.Some?
      ensures hash.Some? && Agrees(recompute, modules, signatures) ==>
                hash.value == recompute.hash(id, View(signatures, id), modules[id].post.value.signature)
      ensures hash.None? ==> id !in modules || modules[id].post.None? || modules[id].post.value.moduleHash.None?
    {
      assert id in modules && Agrees(recompute, modules, signatures) ==> EntryAgrees(recompute, signatures, id, modules[id]);
      return if id in modules && modules[id].post.Some? then modules[id].post.value.moduleHash else None;
    }

    method StoreModuleHash(id: Identity, hash: nat)
      requires id in modules && modules[id].post.Some?
      modifies `modules
      ensures var post := old(modules)[id].post.value;
              modules == old(modules)[id := old(modules)[id].(post := Some(post.(moduleHash := Some(hash))))]
    {
      var post := modules[id].post.value;
      modules := modules[id := modules[id].(post := Some(post.(moduleHash := Some(hash))))];
    }
  }
}
