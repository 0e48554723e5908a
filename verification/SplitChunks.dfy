/** Moving modules shared by async chunks into chunks of their own. */
module SplitChunks {
  import opened Options
  import opened Sequences
  import opened ChunkGraphs

  // ---- ascending lists ----

  predicate Ascending(s: seq<nat>) {
    forall i: nat, j: nat | i < j < |s| :: s[i] < s[j]
  }

  function InsertAscending(s: seq<nat>, x: nat): seq<nat> {
    if s == [] || x < s[0] then [x] + s
    else if x == s[0] then s
    else [s[0]] + InsertAscending(s[1..], x)
  }

  /** Sorting, with repetitions dropped. */
  function SortDedup(s: seq<nat>): seq<nat> {
    if s == [] then [] else InsertAscending(SortDedup(s[1..]), s[0])
  }

  lemma {:induction false} InsertAscendingSorts(s: seq<nat>, x: nat)
    requires Ascending(s)
    ensures Ascending(InsertAscending(s, x))
    ensures forall y: nat :: y in InsertAscending(s, x) <==> y in s || y == x
  {
    if s != [] && x > s[0] {
      var rest := InsertAscending(s[1..], x);
      InsertAscendingSorts(s[1..], x);
      forall j: nat | j < |rest| ensures s[0] < rest[j] {
        assert rest[j] in rest;
        if rest[j] != x { var k: nat :| k < |s[1..]| && s[1..][k] == rest[j]; assert s[k + 1] == rest[j]; }
      }
    }
  }

  lemma {:induction false} SortDedupSorts(s: seq<nat>)
    ensures Ascending(SortDedup(s)) && Members(SortDedup(s)) == Members(s)
  {
    if s != [] {
      SortDedupSorts(s[1..]);
      InsertAscendingSorts(SortDedup(s[1..]), s[0]);
      forall y: nat ensures y in SortDedup(s) <==> y in s {
        assert y in SortDedup(s[1..]) <==> y in Members(SortDedup(s[1..]));
        assert y in s[1..] <==> y in Members(s[1..]);
        assert s == [s[0]] + s[1..];
      }
    }
  }

  /** A set has one ascending listing. */
  lemma {:induction false} AscendingUnique(a: seq<nat>, b: seq<nat>)
    requires Ascending(a) && Ascending(b) && Members(a) == Members(b)
    ensures a == b
    decreases |a|
  {
    assert a == [] || a[0] in Members(a);
    assert b == [] || b[0] in Members(b);
    if a != [] && b != [] {
      SmallestFirst(a, b[0]);
      SmallestFirst(b, a[0]);
      TailMembers(a);
      TailMembers(b);
      AscendingUnique(a[1..], b[1..]);
      assert a == [a[0]] + a[1..] && b == [b[0]] + b[1..];
    }
  }

  lemma SmallestFirst(s: seq<nat>, x: nat)
    requires Ascending(s) && x in s
    ensures s[0] <= x
  {
  }

  lemma TailMembers(s: seq<nat>)
    requires Ascending(s) && s != []
    ensures Members(s[1..]) == Members(s) - {s[0]}
  {
    assert s == [s[0]] + s[1..];
  }

  // ---- which modules are shared by which async chunks ----

  predicate IsAsyncChunk(g: Graph, c: nat) {
    && c < |g.chunks| && g.chunks[c].groups != []
    && forall h | h in g.chunks[c].groups :: h < |g.groups| && g.groups[h].kind.AsyncKind?
  }

  /** The async chunks that carry a module. */
  ghost function Sharers(g: Graph, m: nat): set<nat> {
    set c: nat | c < |g.chunks| && IsAsyncChunk(g, c) && HasModule(g, c, m)
  }

  ghost predicate Qualifies(g: Graph, minChunks: nat, m: nat) {
    Sharers(g, m) != {} && |Sharers(g, m)| >= minChunks
  }

  /** Modules to be moved together, out of the same chunks. */
  datatype Candidate = Candidate(sources: seq<nat>, modules: seq<nat>)

  ghost predicate CandidateOk(g: Graph, minChunks: nat, c: Candidate) {
    && Ascending(c.sources) && Ascending(c.modules) && c.modules != []
    && forall m: nat :: m in c.modules <==> Qualifies(g, minChunks, m) && Sharers(g, m) == Members(c.sources)
  }

  predicate InOrder(candidates: seq<Candidate>) {
    forall i: nat, j: nat | i < j < |candidates| :: SequenceLess(candidates[i].sources, candidates[j].sources)
  }

  ghost predicate AllQualified(g: Graph, minChunks: nat, candidates: seq<Candidate>) {
    forall m: nat | Qualifies(g, minChunks, m) :: exists i: nat :: i < |candidates| && m in candidates[i].modules
  }

  /** One candidate for every set of chunks that shares enough, in the order of the sets. */
  ghost predicate Candidates(g: Graph, minChunks: nat, candidates: seq<Candidate>) {
    && (forall i: nat | i < |candidates| :: CandidateOk(g, minChunks, candidates[i]))
    && InOrder(candidates)
    && AllQualified(g, minChunks, candidates)
  }

  // ---- the candidates do not depend on the order in which modules are met ----

  /** Two candidates with a common module are the same candidate. */
  lemma SameCandidate(g: Graph, minChunks: nat, a: Candidate, b: Candidate, m: nat)
    requires CandidateOk(g, minChunks, a) && CandidateOk(g, minChunks, b) && m in a.modules && m in b.modules
    ensures a == b
  {
    AscendingUnique(a.sources, b.sources);
    forall n: nat ensures n in Members(a.modules) <==> n in Members(b.modules) {
    }
    AscendingUnique(a.modules, b.modules);
  }

  lemma CandidateListed(g: Graph, minChunks: nat, a: Candidate, bs: seq<Candidate>)
    requires CandidateOk(g, minChunks, a) && Candidates(g, minChunks, bs)
    ensures a in bs
  {
    var m := a.modules[0];
    assert m in a.modules;
    var i: nat :| i < |bs| && m in bs[i].modules;
    SameCandidate(g, minChunks, a, bs[i], m);
  }

  lemma {:induction false} SortedOnce(a: seq<Candidate>, b: seq<Candidate>)
    requires InOrder(a) && InOrder(b) && forall c :: c in a <==> c in b
    ensures a == b
    decreases |a|
  {
    assert a == [] || a[0] in a;
    assert b == [] || b[0] in b;
    if a != [] && b != [] {
      HeadLeast(a, b[0]);
      HeadLeast(b, a[0]);
      SequenceLessTotal(a[0].sources, b[0].sources);
      forall c ensures c in a[1..] <==> c in b[1..] {
        TailCandidate(a, c);
        TailCandidate(b, c);
      }
      SortedOnce(a[1..], b[1..]);
      assert a == [a[0]] + a[1..] && b == [b[0]] + b[1..];
    }
  }

  lemma HeadLeast(s: seq<Candidate>, c: Candidate)
    requires InOrder(s) && c in s
    ensures c == s[0] || SequenceLess(s[0].sources, c.sources)
  {
    var i: nat :| i < |s| && s[i] == c;
  }

  lemma TailCandidate(s: seq<Candidate>, c: Candidate)
    requires InOrder(s) && s != []
    ensures c in s[1..] <==> c in s && c != s[0]
  {
    assert s == [s[0]] + s[1..];
    if c in s[1..] {
      var i: nat :| i < |s[1..]| && s[1..][i] == c;
      assert s[i + 1] == c;
      SequenceLessTotal(s[0].sources, c.sources);
    }
  }

  /** Whatever order modules are met in, the candidates come out the same. */
  lemma CandidatesUnique(g: Graph, minChunks: nat, a: seq<Candidate>, b: seq<Candidate>)
    requires Candidates(g, minChunks, a) && Candidates(g, minChunks, b)
    ensures a == b
  {
    forall c ensures c in a <==> c in b {
      if c in a { CandidateListed(g, minChunks, c, b); }
      if c in b { CandidateListed(g, minChunks, c, a); }
    }
    SortedOnce(a, b);
  }

  // ---- finding the candidates ----

  method AsyncChunks(graph: ChunkGraph) returns (chunks: seq<nat>)
    ensures Ascending(chunks) && forall c: nat :: c in chunks <==> IsAsyncChunk(graph.State(), c)
  {
    chunks := [];
    var c := 0;
    while c < |graph.chunks|
      invariant c <= |graph.chunks| && Ascending(chunks)
      invariant forall k: nat :: k in chunks <==> k < c && IsAsyncChunk(graph.State(), k)
    {
      var isAsync := AllAsync(graph, c);
      if isAsync {
        forall i: nat | i < |chunks| ensures chunks[i] < c { assert chunks[i] in chunks; }
        chunks := chunks + [c];
      }
      c := c + 1;
    }
  }

  method AllAsync(graph: ChunkGraph, c: nat) returns (isAsync: bool)
    requires c < |graph.chunks|
    ensures isAsync <==> IsAsyncChunk(graph.State(), c)
  {
    var groups := graph.chunks[c].groups;
    var i := 0;
    while i < |groups|
      invariant i <= |groups|
      invariant forall k: nat | k < i :: groups[k] < |graph.chunkGroups| && graph.chunkGroups[groups[k]].kind.AsyncKind?
    {
      if !(groups[i] < |graph.chunkGroups| && graph.chunkGroups[groups[i]].kind.AsyncKind?) {
        assert groups[i] in groups;
        return false;
      }
      i := i + 1;
    }
    return groups != [];
  }

  predicate Records(table: map<nat, seq<nat>>, m: nat, c: nat) {
    m in table && c in table[m]
  }

  lemma RecordsNext(table: map<nat, seq<nat>>, after: map<nat, seq<nat>>, m: nat, chunk: nat, k: nat, c: nat)
    requires after == table[m := (if m in table then table[m] else []) + [chunk]]
    ensures Records(after, k, c) <==> Records(table, k, c) || (k == m && c == chunk)
  {
  }

  /** For each module met so far, the chunks of the list up to `n` that carry it. */
  ghost predicate Tabulated(table: map<nat, seq<nat>>, g: Graph, chunks: seq<nat>, n: nat) {
    && n <= |chunks|
    && (forall m: nat | m in table :: table[m] != [])
    && (forall m: nat, c: nat :: Records(table, m, c) <==> c in chunks[..n] && HasModule(g, c, m))
  }

  method AddChunkToTable(table: map<nat, seq<nat>>, graph: ChunkGraph, chunks: seq<nat>, n: nat)
    returns (after: map<nat, seq<nat>>)
    requires n < |chunks| && chunks[n] < |graph.chunkModules| && Tabulated(table, graph.State(), chunks, n)
    ensures Tabulated(after, graph.State(), chunks, n + 1)
  {
    var chunk := chunks[n];
    var modules := graph.chunkModules[chunk];
    after := table;
    var i := 0;
    while i < |modules|
      invariant i <= |modules| && forall m: nat | m in after :: after[m] != []
      invariant forall m: nat, c: nat :: Records(after, m, c) <==> Records(table, m, c) || (c == chunk && m in modules[..i])
    {
      var m := modules[i];
      assert forall k: nat :: k in modules[..i + 1] <==> k in modules[..i] || k == m;
      var before := after;
      after := after[m := (if m in after then after[m] else []) + [chunk]];
      forall k: nat, c: nat
        ensures Records(after, k, c) <==> Records(table, k, c) || (c == chunk && k in modules[..i + 1])
      {
        RecordsNext(before, after, m, chunk, k, c);
      }
      i := i + 1;
    }
    assert modules[..i] == modules;
    forall m: nat, c: nat ensures Records(after, m, c) <==> c in chunks[..n + 1] && HasModule(graph.State(), c, m) {
      assert chunks[..n + 1] == chunks[..n] + [chunk];
      assert HasModule(graph.State(), chunk, m) <==> m in modules;
    }
  }

  method ChunksByModule(graph: ChunkGraph, chunks: seq<nat>) returns (table: map<nat, seq<nat>>)
    requires forall i: nat | i < |chunks| :: chunks[i] < |graph.chunkModules|
    ensures Tabulated(table, graph.State(), chunks, |chunks|)
  {
    table := map[];
    var n := 0;
    while n < |chunks|
      invariant n <= |chunks| && Tabulated(table, graph.State(), chunks, n)
    {
      table := AddChunkToTable(table, graph, chunks, n);
      n := n + 1;
    }
  }

  lemma TableIsSharers(table: map<nat, seq<nat>>, g: Graph, chunks: seq<nat>, m: nat)
    requires Sized(g) && Tabulated(table, g, chunks, |chunks|) && forall c: nat :: c in chunks <==> IsAsyncChunk(g, c)
    ensures m in table <==> Sharers(g, m) != {}
    ensures m in table ==> Members(table[m]) == Sharers(g, m)
  {
    assert chunks[..|chunks|] == chunks;
    forall c: nat ensures Records(table, m, c) <==> c in Sharers(g, m) {
      assert c in chunks[..|chunks|] <==> IsAsyncChunk(g, c);
    }
    if m in table { assert Records(table, m, table[m][0]); }
    if c :| c in Sharers(g, m) { assert Records(table, m, c); }
  }

  lemma {:induction false} AscendingSize(s: seq<nat>)
    requires Ascending(s)
    ensures |Members(s)| == |s|
  {
    if s != [] {
      TailMembers(s);
      AscendingSize(s[1..]);
      assert Members(s) == Members(s[1..]) + {s[0]};
    }
  }

  /** The modules dealt with, listed under the chunks that share them. */
  ghost predicate Listed(lists: map<seq<nat>, seq<nat>>, g: Graph, minChunks: nat, left: set<nat>) {
    && (forall key | key in lists :: Ascending(key) && lists[key] != [])
    && (forall key, m: nat | key in lists && m in lists[key] ::
          m !in left && Qualifies(g, minChunks, m) && Sharers(g, m) == Members(key))
    && (forall m: nat | m !in left && Qualifies(g, minChunks, m) :: exists key :: key in lists && m in lists[key])
  }

  lemma ListedNext(lists: map<seq<nat>, seq<nat>>, after: map<seq<nat>, seq<nat>>, g: Graph, minChunks: nat, left: set<nat>,
                   m: nat, key: seq<nat>)
    requires Listed(lists, g, minChunks, left) && m in left && Ascending(key) && Members(key) == Sharers(g, m) != {}
    requires after == if |key| < minChunks then lists
                      else lists[key := (if key in lists then lists[key] else []) + [m]]
    ensures Listed(after, g, minChunks, left - {m})
  {
    AscendingSize(key);
    forall n: nat | n !in left - {m} && Qualifies(g, minChunks, n) ensures exists k :: k in after && n in after[k] {
      if n == m {
        assert key in after && m in after[key];
      } else {
        var k :| k in lists && n in lists[k];
        assert k in after && n in after[k];
      }
    }
  }

  method ModulesByChunkSet(graph: ChunkGraph, table: map<nat, seq<nat>>, minChunks: nat, ghost chunks: seq<nat>)
    returns (lists: map<seq<nat>, seq<nat>>)
    requires Sized(graph.State()) && Tabulated(table, graph.State(), chunks, |chunks|)
    requires forall c: nat :: c in chunks <==> IsAsyncChunk(graph.State(), c)
    ensures Listed(lists, graph.State(), minChunks, {})
  {
    ghost var g := graph.State();
    lists := map[];
    var left := table.Keys;
    forall m: nat ensures m in table <==> Sharers(g, m) != {} { TableIsSharers(table, g, chunks, m); }
    while left != {}
      invariant left <= table.Keys && Listed(lists, g, minChunks, left)
      decreases |left|
    {
      var m :| m in left;
      var key := SortDedup(table[m]);
      SortDedupSorts(table[m]);
      TableIsSharers(table, g, chunks, m);
      ghost var before := lists;
      if |key| >= minChunks {
        lists := lists[key := (if key in lists then lists[key] else []) + [m]];
      }
      ListedNext(before, lists, g, minChunks, left, m, key);
      left := left - {m};
    }
  }

  function InsertCandidate(candidates: seq<Candidate>, c: Candidate): seq<Candidate> {
    if candidates == [] || SequenceLess(c.sources, candidates[0].sources) then [c] + candidates
    else [candidates[0]] + InsertCandidate(candidates[1..], c)
  }

  lemma {:induction false} InsertCandidateMembers(candidates: seq<Candidate>, c: Candidate)
    ensures forall d :: d in InsertCandidate(candidates, c) <==> d in candidates || d == c
  {
    if candidates != [] && !SequenceLess(c.sources, candidates[0].sources) {
      InsertCandidateMembers(candidates[1..], c);
      assert forall d :: d in candidates <==> d == candidates[0] || d in candidates[1..];
    }
  }

  lemma {:induction false} InsertCandidateInOrder(candidates: seq<Candidate>, c: Candidate)
    requires InOrder(candidates) && forall d | d in candidates :: d.sources != c.sources
    ensures InOrder(InsertCandidate(candidates, c))
  {
    if candidates != [] {
      var head, rest := candidates[0], candidates[1..];
      if SequenceLess(c.sources, head.sources) {
        forall j: nat | j < |candidates| ensures SequenceLess(c.sources, candidates[j].sources) {
          if j > 0 { SequenceLessTransitive(c.sources, head.sources, candidates[j].sources); }
        }
      } else {
        SequenceLessTotal(c.sources, head.sources);
        InsertCandidateInOrder(rest, c);
        InsertCandidateMembers(rest, c);
        var after := InsertCandidate(rest, c);
        forall j: nat | j < |after| ensures SequenceLess(head.sources, after[j].sources) {
          assert after[j] in after;
          if after[j] != c { HeadBefore(candidates, after[j]); }
        }
      }
    }
  }

  lemma HeadBefore(candidates: seq<Candidate>, d: Candidate)
    requires InOrder(candidates) && candidates != [] && d in candidates[1..]
    ensures SequenceLess(candidates[0].sources, d.sources)
  {
    var k: nat :| k < |candidates[1..]| && candidates[1..][k] == d;
    assert candidates[k + 1] == d;
  }

  /** The candidates made so far, out of the lists whose keys are not left. */
  ghost predicate Made(candidates: seq<Candidate>, lists: map<seq<nat>, seq<nat>>, left: set<seq<nat>>) {
    && InOrder(candidates)
    && forall c :: c in candidates <==>
         c.sources in lists && c.sources !in left && c == Candidate(c.sources, SortDedup(lists[c.sources]))
  }

  method CandidatesOf(lists: map<seq<nat>, seq<nat>>) returns (candidates: seq<Candidate>)
    ensures Made(candidates, lists, {})
  {
    candidates := [];
    var left := lists.Keys;
    while left != {}
      invariant left <= lists.Keys && Made(candidates, lists, left)
      decreases |left|
    {
      var key :| key in left;
      var c := Candidate(key, SortDedup(lists[key]));
      InsertCandidateMembers(candidates, c);
      InsertCandidateInOrder(candidates, c);
      candidates := InsertCandidate(candidates, c);
      left := left - {key};
    }
  }

  lemma MadeAreCandidates(g: Graph, minChunks: nat, candidates: seq<Candidate>, lists: map<seq<nat>, seq<nat>>)
    requires Listed(lists, g, minChunks, {}) && Made(candidates, lists, {})
    ensures Candidates(g, minChunks, candidates)
  {
    forall i: nat | i < |candidates| ensures CandidateOk(g, minChunks, candidates[i]) {
      assert candidates[i] in candidates;
      MadeCandidateOk(g, minChunks, candidates[i], lists);
    }
    forall m: nat | Qualifies(g, minChunks, m) ensures exists i: nat :: i < |candidates| && m in candidates[i].modules {
      var key :| key in lists && m in lists[key];
      SortDedupSorts(lists[key]);
      assert m in Members(lists[key]);
      var c := Candidate(key, SortDedup(lists[key]));
      assert c in candidates && m in Members(c.modules);
      var i: nat :| i < |candidates| && candidates[i] == c;
    }
  }

  lemma MadeCandidateOk(g: Graph, minChunks: nat, c: Candidate, lists: map<seq<nat>, seq<nat>>)
    requires Listed(lists, g, minChunks, {}) && c.sources in lists && c == Candidate(c.sources, SortDedup(lists[c.sources]))
    ensures CandidateOk(g, minChunks, c)
  {
    var list := lists[c.sources];
    SortDedupSorts(list);
    assert list[0] in Members(list);
    assert c.modules != [];
    forall m: nat
      ensures m in c.modules <==> Qualifies(g, minChunks, m) && Sharers(g, m) == Members(c.sources)
    {
      assert m in c.modules <==> m in Members(c.modules);
      assert m in list <==> m in Members(list);
      if Qualifies(g, minChunks, m) && Sharers(g, m) == Members(c.sources) {
        var key :| key in lists && m in lists[key];
        AscendingUnique(key, c.sources);
      }
    }
  }

  method FindCandidates(graph: ChunkGraph, minChunks: nat) returns (candidates: seq<Candidate>)
    requires graph.Valid()
    ensures Candidates(graph.State(), minChunks, candidates)
  {
    var chunks := AsyncChunks(graph);
    forall i: nat | i < |chunks| ensures chunks[i] < |graph.chunkModules| {
      assert chunks[i] in chunks;
    }
    var table := ChunksByModule(graph, chunks);
    var lists := ModulesByChunkSet(graph, table, minChunks, chunks);
    candidates := CandidatesOf(lists);
    MadeAreCandidates(graph.State(), minChunks, candidates, lists);
  }
}
