/** Applying the split: the modules of each candidate move into a new chunk in all its sources' groups. */
module SplitApplication {
  import opened Options
  import opened Sequences
  import opened ChunkGraphs
  import opened SplitChunks

  // ---- what may be split off ----

  ghost predicate Movable(g: Graph, c: Candidate) {
    && c.sources != [] && Ascending(c.sources)
    && (forall s | s in c.sources :: IsAsyncChunk(g, s))
    && (forall m | m in c.modules :: Sharers(g, m) != {} && Sharers(g, m) <= Members(c.sources))
  }

  /** Candidates over async chunks, each module in one of them, with all the chunks that share it. */
  ghost predicate SplitPlan(g: Graph, candidates: seq<Candidate>) {
    && (forall i: nat | i < |candidates| :: Movable(g, candidates[i]))
    && (forall i: nat, j: nat, m: nat | i < |candidates| && j < |candidates| && m in candidates[i].modules && m in candidates[j].modules :: i == j)
  }

  lemma CandidatesArePlan(g: Graph, minChunks: nat, candidates: seq<Candidate>)
    requires Candidates(g, minChunks, candidates)
    ensures SplitPlan(g, candidates)
  {
    forall i: nat | i < |candidates| ensures Movable(g, candidates[i]) {
      var c := candidates[i];
      var m := c.modules[0];
      assert m in c.modules;
      assert Sharers(g, m) == Members(c.sources);
      var k :| k in Sharers(g, m);
      assert k in c.sources;
      forall s | s in c.sources ensures IsAsyncChunk(g, s) { assert s in Members(c.sources); }
    }
    forall i: nat, j: nat, m: nat | i < |candidates| && j < |candidates| && m in candidates[i].modules && m in candidates[j].modules
      ensures i == j
    {
      SameCandidate(g, minChunks, candidates[i], candidates[j], m);
      SequenceLessTotal(candidates[i].sources, candidates[j].sources);
    }
  }

  // ---- with a name, one chunk for all ----

  function AllSources(candidates: seq<Candidate>): seq<nat> {
    if candidates == [] then [] else candidates[0].sources + AllSources(candidates[1..])
  }

  function AllModules(candidates: seq<Candidate>): seq<nat> {
    if candidates == [] then [] else candidates[0].modules + AllModules(candidates[1..])
  }

  function Merged(candidates: seq<Candidate>): seq<Candidate> {
    [Candidate(SortDedup(AllSources(candidates)), SortDedup(AllModules(candidates)))]
  }

  lemma {:induction false} AllMembers(candidates: seq<Candidate>)
    ensures forall s :: s in AllSources(candidates) <==> exists i: nat :: i < |candidates| && s in candidates[i].sources
    ensures forall m :: m in AllModules(candidates) <==> exists i: nat :: i < |candidates| && m in candidates[i].modules
  {
    if candidates != [] {
      var rest := candidates[1..];
      AllMembers(rest);
      forall s ensures s in AllSources(candidates) <==> exists i: nat :: i < |candidates| && s in candidates[i].sources {
        if i: nat :| i < |rest| && s in rest[i].sources { assert s in candidates[i + 1].sources; }
        if i: nat :| i < |candidates| && s in candidates[i].sources { if i > 0 { assert s in rest[i - 1].sources; } }
      }
      forall m ensures m in AllModules(candidates) <==> exists i: nat :: i < |candidates| && m in candidates[i].modules {
        if i: nat :| i < |rest| && m in rest[i].modules { assert m in candidates[i + 1].modules; }
        if i: nat :| i < |candidates| && m in candidates[i].modules { if i > 0 { assert m in rest[i - 1].modules; } }
      }
    }
  }

  lemma MergedMembers(candidates: seq<Candidate>)
    ensures var c := Merged(candidates)[0];
            && Ascending(c.sources) && Ascending(c.modules)
            && (forall s: nat :: s in c.sources <==> exists i: nat :: i < |candidates| && s in candidates[i].sources)
            && (forall m: nat :: m in c.modules <==> exists i: nat :: i < |candidates| && m in candidates[i].modules)
  {
    AllMembers(candidates);
    var c := Merged(candidates)[0];
    SortDedupSorts(AllSources(candidates));
    SortDedupSorts(AllModules(candidates));
    forall s: nat ensures s in c.sources <==> s in AllSources(candidates) {
      assert s in c.sources <==> s in Members(c.sources);
    }
    forall m: nat ensures m in c.modules <==> m in AllModules(candidates) {
      assert m in c.modules <==> m in Members(c.modules);
    }
  }

  lemma MergedSource(g: Graph, candidates: seq<Candidate>, s: nat)
    requires SplitPlan(g, candidates) && s in Merged(candidates)[0].sources
    ensures IsAsyncChunk(g, s)
  {
    MergedMembers(candidates);
    var i: nat :| i < |candidates| && s in candidates[i].sources;
    assert Movable(g, candidates[i]);
  }

  lemma MergedModule(g: Graph, candidates: seq<Candidate>, m: nat)
    requires SplitPlan(g, candidates) && m in Merged(candidates)[0].modules
    ensures Sharers(g, m) != {} && Sharers(g, m) <= Members(Merged(candidates)[0].sources)
  {
    MergedMembers(candidates);
    var i: nat :| i < |candidates| && m in candidates[i].modules;
    assert Movable(g, candidates[i]);
    forall k | k in Sharers(g, m) ensures k in Merged(candidates)[0].sources { assert k in candidates[i].sources; }
  }

  lemma MergedHasSource(g: Graph, candidates: seq<Candidate>)
    requires SplitPlan(g, candidates) && candidates != []
    ensures Ascending(Merged(candidates)[0].sources) && Merged(candidates)[0].sources != []
  {
    MergedMembers(candidates);
    assert Movable(g, candidates[0]);
    assert candidates[0].sources[0] in candidates[0].sources;
    assert candidates[0].sources[0] in Merged(candidates)[0].sources;
  }

  lemma MergedIsPlan(g: Graph, candidates: seq<Candidate>)
    requires SplitPlan(g, candidates) && candidates != []
    ensures SplitPlan(g, Merged(candidates))
  {
    MergedHasSource(g, candidates);
    var c := Merged(candidates)[0];
    forall s | s in c.sources ensures IsAsyncChunk(g, s) { MergedSource(g, candidates, s); }
    forall m | m in c.modules ensures Sharers(g, m) != {} && Sharers(g, m) <= Members(c.sources) {
      MergedModule(g, candidates, m);
    }
    OneMovableIsPlan(g, c);
  }

  lemma OneMovableIsPlan(g: Graph, c: Candidate)
    requires Movable(g, c)
    ensures SplitPlan(g, [c])
  {
  }

  // ---- the graph while it is split ----

  ghost predicate MovedFrom(candidates: seq<Candidate>, n: nat, c: nat, m: nat) {
    exists i: nat :: i < n && i < |candidates| && m in candidates[i].modules && c in candidates[i].sources
  }

  /** Nothing but chunks and their modules has changed. */
  ghost predicate SameTree(g: Graph, now: Graph) {
    && |now.groups| == |g.groups|
    && (forall h: nat | h < |g.groups| :: now.groups[h] == g.groups[h].(chunks := now.groups[h].chunks))
    && now.entrypoints == g.entrypoints && now.blockGroups == g.blockGroups && now.runtimeChildren == g.runtimeChildren
  }

  ghost predicate OldChunks(g: Graph, now: Graph, candidates: seq<Candidate>, n: nat) {
    && |now.chunks| == |g.chunks| + n
    && (forall c: nat | c < |g.chunks| :: now.chunks[c].name == g.chunks[c].name && now.chunks[c].roots == g.chunks[c].roots)
    && (forall c: nat, h: nat | c < |g.chunks| :: InGroup(now, c, h) <==> InGroup(g, c, h))
    && (forall c: nat, m: nat | c < |g.chunks| :: HasModule(now, c, m) <==> HasModule(g, c, m) && !MovedFrom(candidates, n, c, m))
  }

  /** A new chunk has the name given, the modules of its candidate, and is in the groups its sources were in. */
  ghost predicate NewChunkAt(g: Graph, now: Graph, candidates: seq<Candidate>, name: Option<string>, k: nat) {
    && |g.chunks| <= k < |g.chunks| + |candidates| && k < |now.chunks|
    && var c := candidates[k - |g.chunks|];
       && now.chunks[k].name == name && now.chunks[k].roots == c.modules
       && (forall h: nat :: InGroup(now, k, h) <==> h in GroupsOf(g, c.sources))
       && (forall m: nat :: HasModule(now, k, m) <==> m in c.modules)
  }

  ghost predicate NewChunks(g: Graph, now: Graph, candidates: seq<Candidate>, name: Option<string>, n: nat) {
    forall k: nat | |g.chunks| <= k < |g.chunks| + n :: NewChunkAt(g, now, candidates, name, k)
  }

  /** The first `n` candidates have their chunks. */
  ghost predicate SplitUpTo(g: Graph, now: Graph, candidates: seq<Candidate>, name: Option<string>, n: nat) {
    n <= |candidates| && SameTree(g, now) && OldChunks(g, now, candidates, n) && NewChunks(g, now, candidates, name, n)
  }

  /** The modules listed have left the sources for the new chunk. */
  ghost predicate Shifted(before: Graph, after: Graph, sources: seq<nat>, chunk: nat, modules: set<nat>) {
    && after == before.(chunkModules := after.chunkModules, moduleChunks := after.moduleChunks)
    && forall c: nat, m: nat :: HasModule(after, c, m) <==>
         if m in modules then c == chunk || (HasModule(before, c, m) && c !in sources) else HasModule(before, c, m)
  }

  /** One module has left the first `n` sources. */
  ghost predicate Left(before: Graph, after: Graph, sources: seq<nat>, m: nat) {
    && after == before.(chunkModules := after.chunkModules, moduleChunks := after.moduleChunks)
    && forall c: nat, k: nat :: HasModule(after, c, k) <==> HasModule(before, c, k) && !(k == m && c in sources)
  }

  method LeaveSources(graph: ChunkGraph, sources: seq<nat>, m: nat)
    requires graph.Valid() && ChunksIn(graph.State(), sources)
    modifies graph
    ensures graph.Valid() && Left(old(graph.State()), graph.State(), sources, m)
  {
    ghost var start := graph.State();
    var i := 0;
    while i < |sources|
      invariant i <= |sources| && graph.Valid() && |graph.chunks| == |start.chunks|
      invariant Left(start, graph.State(), sources[..i], m)
    {
      ghost var before := graph.State();
      LeaveModuleMirrored(before, sources[i], m);
      graph.DisconnectChunkAndModule(sources[i], m);
      LeftNext(start, before, graph.State(), sources, i, m);
      i := i + 1;
    }
    assert sources[..i] == sources;
  }

  lemma LeftNext(start: Graph, before: Graph, after: Graph, sources: seq<nat>, i: nat, m: nat)
    requires i < |sources| && sources[i] < |before.chunkModules| && Left(start, before, sources[..i], m)
    requires after == LeaveModule(before, sources[i], m)
    requires forall c: nat, n: nat :: HasModule(after, c, n) <==> HasModule(before, c, n) && !(c == sources[i] && n == m)
    ensures Left(start, after, sources[..i + 1], m)
  {
    assert forall c: nat :: c in sources[..i + 1] <==> c in sources[..i] || c == sources[i];
  }

  method MoveModule(graph: ChunkGraph, sources: seq<nat>, chunk: nat, m: nat)
    requires graph.Valid() && ChunksIn(graph.State(), sources) && chunk < |graph.chunks| && chunk !in sources
    modifies graph
    ensures graph.Valid() && Shifted(old(graph.State()), graph.State(), sources, chunk, {m})
  {
    LeaveSources(graph, sources, m);
    JoinModuleMirrored(graph.State(), chunk, m);
    graph.ConnectChunkAndModule(chunk, m);
  }

  lemma ShiftedTwice(a: Graph, b: Graph, c: Graph, sources: seq<nat>, chunk: nat, modules: set<nat>, m: nat)
    requires Shifted(a, b, sources, chunk, modules) && Shifted(b, c, sources, chunk, {m}) && chunk !in sources
    ensures Shifted(a, c, sources, chunk, modules + {m})
  {
  }

  method MoveModules(graph: ChunkGraph, candidate: Candidate, chunk: nat)
    requires graph.Valid() && ChunksIn(graph.State(), candidate.sources)
    requires chunk < |graph.chunks| && chunk !in candidate.sources
    modifies graph
    ensures graph.Valid()
    ensures Shifted(old(graph.State()), graph.State(), candidate.sources, chunk, Members(candidate.modules))
  {
    ghost var start := graph.State();
    var modules := candidate.modules;
    assert Members(modules[..0]) == {};
    var i := 0;
    while i < |modules|
      invariant i <= |modules| && graph.Valid() && |graph.chunks| == |start.chunks|
      invariant Shifted(start, graph.State(), candidate.sources, chunk, Members(modules[..i]))
    {
      ghost var before := graph.State();
      MoveModule(graph, candidate.sources, chunk, modules[i]);
      ShiftedTwice(start, before, graph.State(), candidate.sources, chunk, Members(modules[..i]), modules[i]);
      MembersSnoc(modules, i);
      i := i + 1;
    }
    assert modules[..i] == modules;
  }

  // ---- one candidate ----

  /** The new chunk, under its name, joined the groups of the sources and took the modules out of them. */
  ghost predicate SplitOne(before: Graph, after: Graph, c: Candidate, name: Option<string>) {
    && |after.chunks| == |before.chunks| + 1 && SameTree(before, after)
    && after.chunks[|before.chunks|].name == name && after.chunks[|before.chunks|].roots == c.modules
    && (forall k: nat | k < |before.chunks| ::
          after.chunks[k].name == before.chunks[k].name && after.chunks[k].roots == before.chunks[k].roots)
    && (forall k: nat, h: nat :: InGroup(after, k, h) <==> InGroup(before, k, h) || (k == |before.chunks| && h in GroupsOf(before, c.sources)))
    && (forall k: nat, m: nat :: HasModule(after, k, m) <==>
          if m in c.modules then k == |before.chunks| || (HasModule(before, k, m) && k !in c.sources) else HasModule(before, k, m))
  }

  method SplitCandidate(graph: ChunkGraph, c: Candidate, name: Option<string>)
    requires graph.Valid() && ChunksIn(graph.State(), c.sources)
    modifies graph
    ensures graph.Valid() && SplitOne(old(graph.State()), graph.State(), c, name)
  {
    ghost var before := graph.State();
    WithChunkMirrored(before, name, c.modules);
    ghost var added := WithChunk(before, name, c.modules);
    var chunk := graph.AddSplitChunk(c.sources, name, c.modules);
    ghost var joined := graph.State();
    MoveModules(graph, c, chunk);
    SplitOneHolds(before, added, joined, graph.State(), c, name);
  }

  lemma SplitOneHolds(before: Graph, added: Graph, joined: Graph, after: Graph, c: Candidate, name: Option<string>)
    requires Mirrored(before) && ChunksIn(before, c.sources) && added == WithChunk(before, name, c.modules)
    requires Joined(added, joined, |before.chunks|, GroupsOf(added, c.sources))
    requires Shifted(joined, after, c.sources, |before.chunks|, Members(c.modules))
    ensures SplitOne(before, after, c, name)
  {
    assert forall k: nat, h: nat :: InGroup(added, k, h) <==> InGroup(before, k, h);
    SameSources(before, added, c.sources);
    forall k: nat, h: nat
      ensures InGroup(after, k, h) <==> InGroup(before, k, h) || (k == |before.chunks| && h in GroupsOf(before, c.sources))
    {
      assert InGroup(after, k, h) <==> InGroup(joined, k, h);
    }
    forall k: nat, m: nat ensures HasModule(joined, k, m) <==> HasModule(before, k, m) {
      assert HasModule(added, k, m) <==> HasModule(before, k, m);
    }
    forall m: nat ensures m in Members(c.modules) <==> m in c.modules {}
  }

  lemma SameSources(g: Graph, after: Graph, sources: seq<nat>)
    requires ChunksIn(g, sources) && |after.chunks| >= |g.chunks|
    requires forall c: nat, h: nat | c < |g.chunks| :: InGroup(after, c, h) <==> InGroup(g, c, h)
    ensures GroupsOf(after, sources) == GroupsOf(g, sources)
  {
    forall i: nat, h: nat | i < |sources| ensures h in after.chunks[sources[i]].groups <==> h in g.chunks[sources[i]].groups {
      assert InGroup(after, sources[i], h) <==> InGroup(g, sources[i], h);
    }
  }

  // ---- all candidates ----

  lemma SplitStarts(g: Graph, candidates: seq<Candidate>, name: Option<string>)
    ensures SplitUpTo(g, g, candidates, name, 0)
  {
  }

  lemma SplitGroupsOld(g: Graph, now: Graph, after: Graph, candidates: seq<Candidate>, name: Option<string>, n: nat, c: nat, h: nat)
    requires n < |candidates| && SplitUpTo(g, now, candidates, name, n) && SplitOne(now, after, candidates[n], name) && c < |g.chunks|
    ensures InGroup(after, c, h) <==> InGroup(g, c, h)
  {
    assert InGroup(after, c, h) <==> InGroup(now, c, h);
  }

  lemma SplitModulesOld(g: Graph, now: Graph, after: Graph, candidates: seq<Candidate>, name: Option<string>, n: nat, c: nat, m: nat)
    requires n < |candidates| && SplitUpTo(g, now, candidates, name, n) && SplitOne(now, after, candidates[n], name) && c < |g.chunks|
    ensures HasModule(after, c, m) <==> HasModule(g, c, m) && !MovedFrom(candidates, n + 1, c, m)
  {
    assert MovedFrom(candidates, n + 1, c, m) <==>
        MovedFrom(candidates, n, c, m) || (m in candidates[n].modules && c in candidates[n].sources);
  }

  lemma SplitNewBefore(g: Graph, now: Graph, after: Graph, candidates: seq<Candidate>, name: Option<string>, n: nat, k: nat)
    requires n < |candidates| && SplitPlan(g, candidates) && |g.chunks| <= k < |g.chunks| + n
    requires SplitUpTo(g, now, candidates, name, n) && SplitOne(now, after, candidates[n], name)
    requires ChunksIn(g, candidates[n].sources)
    ensures NewChunkAt(g, after, candidates, name, k)
  {
    assert NewChunkAt(g, now, candidates, name, k);
    var i: nat := k - |g.chunks|;
    forall m: nat ensures HasModule(after, k, m) <==> m in candidates[i].modules {
      assert m in candidates[n].modules ==> m !in candidates[i].modules;
      assert k !in candidates[n].sources;
    }
    forall h: nat ensures InGroup(after, k, h) <==> InGroup(now, k, h) {
    }
  }

  lemma SplitNewLast(g: Graph, now: Graph, after: Graph, candidates: seq<Candidate>, name: Option<string>, n: nat)
    requires n < |candidates| && Sized(now)
    requires SplitUpTo(g, now, candidates, name, n) && SplitOne(now, after, candidates[n], name)
    requires ChunksIn(g, candidates[n].sources)
    ensures NewChunkAt(g, after, candidates, name, |g.chunks| + n)
  {
    var k := |g.chunks| + n;
    SameSources(g, now, candidates[n].sources);
    forall h: nat ensures InGroup(after, k, h) <==> h in GroupsOf(g, candidates[n].sources) {
      assert !InGroup(now, k, h);
    }
    forall m: nat ensures HasModule(after, k, m) <==> m in candidates[n].modules {
      assert !HasModule(now, k, m);
    }
  }

  lemma SplitNext(g: Graph, now: Graph, after: Graph, candidates: seq<Candidate>, name: Option<string>, n: nat)
    requires n < |candidates| && SplitPlan(g, candidates) && Sized(now)
    requires SplitUpTo(g, now, candidates, name, n) && SplitOne(now, after, candidates[n], name)
    requires ChunksIn(g, candidates[n].sources)
    ensures SplitUpTo(g, after, candidates, name, n + 1)
  {
    forall c: nat, h: nat | c < |g.chunks| ensures InGroup(after, c, h) <==> InGroup(g, c, h) {
      SplitGroupsOld(g, now, after, candidates, name, n, c, h);
    }
    forall c: nat, m: nat | c < |g.chunks|
      ensures HasModule(after, c, m) <==> HasModule(g, c, m) && !MovedFrom(candidates, n + 1, c, m)
    {
      SplitModulesOld(g, now, after, candidates, name, n, c, m);
    }
    forall k: nat | |g.chunks| <= k < |g.chunks| + n + 1 ensures NewChunkAt(g, after, candidates, name, k) {
      if k < |g.chunks| + n {
        SplitNewBefore(g, now, after, candidates, name, n, k);
      } else {
        SplitNewLast(g, now, after, candidates, name, n);
      }
    }
  }

  lemma SourcesInRange(g: Graph, candidates: seq<Candidate>, n: nat)
    requires n < |candidates| && SplitPlan(g, candidates)
    ensures ChunksIn(g, candidates[n].sources)
  {
    var c := candidates[n];
    assert Movable(g, c);
    forall i: nat | i < |c.sources| ensures c.sources[i] < |g.chunks| { assert c.sources[i] in c.sources; }
  }

  method ApplyCandidates(graph: ChunkGraph, candidates: seq<Candidate>, name: Option<string>)
    requires graph.Valid() && SplitPlan(graph.State(), candidates)
    modifies graph
    ensures graph.Valid() && SplitUpTo(old(graph.State()), graph.State(), candidates, name, |candidates|)
  {
    ghost var g := graph.State();
    SplitStarts(g, candidates, name);
    var n := 0;
    while n < |candidates|
      invariant n <= |candidates| && graph.Valid() && SplitUpTo(g, graph.State(), candidates, name, n)
    {
      ghost var now := graph.State();
      SourcesInRange(g, candidates, n);
      SplitCandidate(graph, candidates[n], name);
      SplitNext(g, now, graph.State(), candidates, name, n);
      n := n + 1;
    }
  }

  /** The candidates that are applied: one chunk for all of them when the chunk is given a name. */
  function Applied(candidates: seq<Candidate>, name: Option<string>): seq<Candidate> {
    if name.Some? && |candidates| > 1 then Merged(candidates) else candidates
  }

  method ApplySplitChunks(graph: ChunkGraph, minChunks: nat, name: Option<string>) returns (ghost candidates: seq<Candidate>)
    requires graph.Valid()
    modifies graph
    ensures graph.Valid() && Candidates(old(graph.State()), minChunks, candidates)
    ensures SplitPlan(old(graph.State()), Applied(candidates, name))
    ensures name.None? ==> SplitUpTo(old(graph.State()), graph.State(), candidates, None, |candidates|)
    ensures name.Some? ==> |graph.chunks| == |old(graph.chunks)| + if candidates == [] then 0 else 1
    ensures name.Some? && candidates != [] ==> HoldsAllOf(old(graph.State()), graph.State(), candidates, name)
    ensures SplitUpTo(old(graph.State()), graph.State(), Applied(candidates, name), name, |Applied(candidates, name)|)
  {
    ghost var g := graph.State();
    var found := FindCandidates(graph, minChunks);
    candidates := found;
    CandidatesArePlan(g, minChunks, found);
    if name.Some? && |found| > 1 {
      MergedIsPlan(g, found);
      ApplyCandidates(graph, Merged(found), name);
      MergedHoldsAll(g, graph.State(), found, name);
    } else {
      ApplyCandidates(graph, found, name);
      if found != [] && name.Some? { OneHoldsAll(g, graph.State(), found, name); }
    }
  }

  /** The one new chunk has the name, exactly the modules of all candidates, and is exactly in the groups of their sources. */
  ghost predicate HoldsAllOf(g: Graph, now: Graph, candidates: seq<Candidate>, name: Option<string>) {
    && |g.chunks| < |now.chunks| && now.chunks[|g.chunks|].name == name
    && (forall m: nat :: HasModule(now, |g.chunks|, m) <==> exists i: nat :: i < |candidates| && m in candidates[i].modules)
    && (forall h: nat :: InGroup(now, |g.chunks|, h) <==> exists s: nat :: IsSource(candidates, s) && InGroup(g, s, h))
  }

  ghost predicate IsSource(candidates: seq<Candidate>, s: nat) {
    exists i: nat :: i < |candidates| && s in candidates[i].sources
  }

  lemma MergedHoldsAll(g: Graph, now: Graph, candidates: seq<Candidate>, name: Option<string>)
    requires candidates != [] && SplitUpTo(g, now, Merged(candidates), name, 1)
    ensures HoldsAllOf(g, now, candidates, name)
  {
    MergedMembers(candidates);
    var sources := Merged(candidates)[0].sources;
    assert NewChunkAt(g, now, Merged(candidates), name, |g.chunks|);
    forall h: nat ensures h in GroupsOf(g, sources) <==> exists s: nat :: s in sources && InGroup(g, s, h) {
      GroupsOfMember(g, sources, h);
    }
  }

  lemma OneHoldsAll(g: Graph, now: Graph, candidates: seq<Candidate>, name: Option<string>)
    requires |candidates| == 1 && SplitUpTo(g, now, candidates, name, 1)
    ensures HoldsAllOf(g, now, candidates, name)
  {
    var c := candidates[0];
    assert NewChunkAt(g, now, candidates, name, |g.chunks|);
    assert forall s: nat :: IsSource(candidates, s) <==> s in c.sources;
    forall h: nat ensures h in GroupsOf(g, c.sources) <==> exists s: nat :: s in c.sources && InGroup(g, s, h) {
      GroupsOfMember(g, c.sources, h);
    }
  }

  // ---- code is conserved ----

  /** The graph before and after splitting by some candidates. */
  ghost predicate Split(g: Graph, after: Graph, candidates: seq<Candidate>, name: Option<string>) {
    SplitPlan(g, candidates) && SplitUpTo(g, after, candidates, name, |candidates|)
  }

  lemma GroupsOfMember(g: Graph, sources: seq<nat>, h: nat)
    ensures h in GroupsOf(g, sources) <==> exists s: nat :: s in sources && InGroup(g, s, h)
  {
    if h in GroupsOf(g, sources) {
      var i: nat :| i < |sources| && sources[i] < |g.chunks| && h in g.chunks[sources[i]].groups;
      assert sources[i] in sources && InGroup(g, sources[i], h);
    }
    if s: nat :| s in sources && InGroup(g, s, h) {
      var i: nat :| i < |sources| && sources[i] == s;
    }
  }

  /** No chunk group loses a module. */
  lemma NoGroupLosesAModule(g: Graph, after: Graph, candidates: seq<Candidate>, name: Option<string>, h: nat, m: nat)
    requires Mirrored(g) && Split(g, after, candidates, name) && GroupHas(g, h, m)
    ensures GroupHas(after, h, m)
  {
    var c: nat :| InGroup(g, c, h) && HasModule(g, c, m);
    if MovedFrom(candidates, |candidates|, c, m) {
      var i: nat :| i < |candidates| && m in candidates[i].modules && c in candidates[i].sources;
      GroupsOfMember(g, candidates[i].sources, h);
      assert NewChunkAt(g, after, candidates, name, |g.chunks| + i);
      assert InGroup(after, |g.chunks| + i, h) && HasModule(after, |g.chunks| + i, m);
    } else {
      assert InGroup(after, c, h) && HasModule(after, c, m);
    }
  }

  /** Where each candidate moves modules out of exactly the chunks that share them, groups gain nothing. */
  lemma NoGroupGainsAModule(g: Graph, after: Graph, candidates: seq<Candidate>, name: Option<string>, h: nat, m: nat)
    requires Mirrored(g) && Mirrored(after) && Split(g, after, candidates, name) && GroupHas(after, h, m)
    requires forall i: nat | i < |candidates| && m in candidates[i].modules :: Members(candidates[i].sources) <= Sharers(g, m)
    ensures GroupHas(g, h, m)
  {
    var c: nat :| InGroup(after, c, h) && HasModule(after, c, m);
    if c < |g.chunks| {
      assert InGroup(g, c, h) && HasModule(g, c, m);
    } else {
      assert NewChunkAt(g, after, candidates, name, c);
      var sources := candidates[c - |g.chunks|].sources;
      GroupsOfMember(g, sources, h);
      var s: nat :| s in sources && InGroup(g, s, h);
      assert s in Members(sources);
      assert HasModule(g, s, m);
    }
  }

  /** Unnamed splitting keeps every group's modules exactly. */
  lemma UnnamedKeepsGroups(g: Graph, after: Graph, minChunks: nat, candidates: seq<Candidate>, name: Option<string>, h: nat, m: nat)
    requires Mirrored(g) && Mirrored(after) && Candidates(g, minChunks, candidates) && Split(g, after, candidates, name)
    ensures GroupHas(after, h, m) <==> GroupHas(g, h, m)
  {
    if GroupHas(g, h, m) { NoGroupLosesAModule(g, after, candidates, name, h, m); }
    if GroupHas(after, h, m) {
      forall i: nat | i < |candidates| && m in candidates[i].modules ensures Members(candidates[i].sources) <= Sharers(g, m) {
        assert CandidateOk(g, minChunks, candidates[i]);
      }
      NoGroupGainsAModule(g, after, candidates, name, h, m);
    }
  }

  lemma NewChunkIsAsync(g: Graph, after: Graph, candidates: seq<Candidate>, name: Option<string>, c: nat)
    requires Mirrored(after) && Split(g, after, candidates, name) && |g.chunks| <= c < |g.chunks| + |candidates|
    ensures IsAsyncChunk(after, c)
  {
    assert NewChunkAt(g, after, candidates, name, c);
    var source := candidates[c - |g.chunks|];
    assert Movable(g, source);
    var s: nat := source.sources[0];
    assert s in source.sources;
    var h: nat := g.chunks[s].groups[0];
    assert h in g.chunks[s].groups;
    GroupsOfMember(g, source.sources, h);
    assert InGroup(g, s, h) && InGroup(after, c, h);
    forall k: nat | k in after.chunks[c].groups ensures k < |after.groups| && after.groups[k].kind.AsyncKind? {
      assert InGroup(after, c, k);
      GroupsOfMember(g, source.sources, k);
    }
  }

  lemma OldChunkStaysAsync(g: Graph, after: Graph, candidates: seq<Candidate>, name: Option<string>, c: nat)
    requires Split(g, after, candidates, name) && c < |g.chunks|
    ensures IsAsyncChunk(after, c) <==> IsAsyncChunk(g, c)
  {
    forall h: nat ensures h in after.chunks[c].groups <==> h in g.chunks[c].groups {
      assert InGroup(after, c, h) <==> InGroup(g, c, h);
    }
    if after.chunks[c].groups != [] { assert after.chunks[c].groups[0] in after.chunks[c].groups; }
    if g.chunks[c].groups != [] { assert g.chunks[c].groups[0] in g.chunks[c].groups; }
  }

  /** Every moved module ends in exactly one async chunk, that of its candidate. */
  lemma MovedModuleInOneChunk(g: Graph, after: Graph, candidates: seq<Candidate>, name: Option<string>, i: nat, m: nat, c: nat)
    requires Mirrored(g) && Mirrored(after) && Split(g, after, candidates, name)
    requires i < |candidates| && m in candidates[i].modules
    ensures IsAsyncChunk(after, c) && HasModule(after, c, m) <==> c == |g.chunks| + i
  {
    NewChunkIsAsync(g, after, candidates, name, |g.chunks| + i);
    assert NewChunkAt(g, after, candidates, name, |g.chunks| + i);
    if c < |g.chunks| {
      OldChunkStaysAsync(g, after, candidates, name, c);
      if IsAsyncChunk(g, c) && HasModule(g, c, m) {
        assert Movable(g, candidates[i]);
        assert c in Sharers(g, m);
        assert c in Members(candidates[i].sources);
        assert MovedFrom(candidates, |candidates|, c, m);
      }
    } else if c < |after.chunks| {
      assert NewChunkAt(g, after, candidates, name, c);
    }
  }

  /** A module that is not moved stays exactly where it was. */
  lemma OtherModulesStay(g: Graph, after: Graph, candidates: seq<Candidate>, name: Option<string>, m: nat, c: nat)
    requires Mirrored(g) && Mirrored(after) && Split(g, after, candidates, name)
    requires forall i: nat | i < |candidates| :: m !in candidates[i].modules
    ensures HasModule(after, c, m) <==> HasModule(g, c, m)
  {
    if |g.chunks| <= c < |after.chunks| {
      assert NewChunkAt(g, after, candidates, name, c);
    }
  }
}
