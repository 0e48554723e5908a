/** Which exports of each module are used: a fixpoint over the connections of the module graph. */
module UsageFlagging {
  import opened Options

  datatype Dependency =
    | Import
    | ImportSpecifier(ids: seq<string>)
    | ExportImported(name: Option<string>, ids: seq<string>, isStar: bool)
    | Unrelated
  {
    /** A star re-export has no name of its own. */
    predicate Valid() { ExportImported? && isStar ==> name.None? }
  }

  datatype Connection = Connection(origin: Option<nat>, target: nat, dependency: Dependency)

  /** `provided[m]` is None where a module's exports are not known. */
  datatype Input = Input(entries: seq<nat>, provided: seq<Option<set<string>>>, connections: seq<Connection>)
  {
    predicate Valid() {
      && (forall e | e in entries :: e < |provided|)
      && (forall c | c in connections :: c.target < |provided| && c.dependency.Valid())
      && (forall c | c in connections :: c.origin.Some? ==> c.origin.value < |provided|)
    }
  }

  /** All exports, and besides them the names requested one by one. */
  datatype Usage = Usage(all: bool, names: set<string>)
  {
    predicate Uses(name: string) { all || name in names }
  }

  /** One thing to be flagged: all exports of a module, or one of them. */
  datatype Fact = AllOf(m: nat) | NameOf(m: nat, name: string)

  ghost predicate Holds(used: seq<Usage>, fact: Fact) {
    fact.m < |used| && (used[fact.m].all || (fact.NameOf? && fact.name in used[fact.m].names))
  }

  // ---- what must be flagged ----

  /** What a module's exports let through a star re-export of it. */
  predicate PassesStar(provided: Option<set<string>>, name: string) {
    name != "default" && (provided.None? || name in provided.value)
  }

  /** Required whatever else is flagged: an entry's own exports, and every import. */
  predicate Seed(input: Input, fact: Fact) {
    || (fact.m in input.entries && fact.m < |input.provided|
        && if fact.AllOf? then input.provided[fact.m].None?
           else input.provided[fact.m].Some? && fact.name in input.provided[fact.m].value)
    || exists c :: c in input.connections && Imports(c, fact)
  }

  /** `import()` uses everything; an import of a namespace, which has no ids, requests nothing. */
  predicate Imports(c: Connection, fact: Fact) {
    && c.target == fact.m
    && (|| (c.dependency.Import? && fact.AllOf?)
        || (c.dependency.ImportSpecifier? && fact.NameOf? && c.dependency.ids != [] && fact.name == c.dependency.ids[0]))
  }

  /** A re-export passes a use of the re-exporting module on to the module it re-exports. */
  predicate Follows(input: Input, c: Connection, premise: Fact, conclusion: Fact) {
    && c.dependency.ExportImported? && c.origin == Some(premise.m) && c.target == conclusion.m
    && c.target < |input.provided|
    && if c.dependency.isStar then
         || (premise.AllOf? && conclusion.AllOf?)
         || (premise.NameOf? && conclusion == NameOf(c.target, premise.name)
             && PassesStar(input.provided[c.target], premise.name))
       else
         && c.dependency.name.Some? && (premise.NameOf? ==> premise.name == c.dependency.name.value)
         && c.dependency.ids != [] && conclusion == NameOf(c.target, c.dependency.ids[0])
  }

  ghost predicate ClosedUnder(input: Input, c: Connection, used: seq<Usage>) {
    && (forall fact :: Imports(c, fact) ==> Holds(used, fact))
    && (forall premise, conclusion :: Follows(input, c, premise, conclusion) && Holds(used, premise) ==> Holds(used, conclusion))
  }

  ghost predicate SeedsHold(input: Input, used: seq<Usage>) {
    forall e | e in input.entries :: e < |used| && EntryFlagged(input, used, e)
  }

  ghost predicate EntryFlagged(input: Input, used: seq<Usage>, e: nat)
    requires e < |used|
  {
    e < |input.provided| &&
    match input.provided[e]
    case None => used[e].all
    case Some(names) => used[e].all || names <= used[e].names
  }

  ghost predicate Closed(input: Input, used: seq<Usage>) {
    && |used| == |input.provided|
    && SeedsHold(input, used)
    && forall c | c in input.connections :: ClosedUnder(input, c, used)
  }

  /** A finite justification: every fact is a seed, or follows from an earlier one along a connection. */
  ghost predicate IsChain(input: Input, chain: seq<Fact>) {
    forall i: nat | i < |chain| :: JustifiedAt(input, chain, i)
  }

  ghost predicate JustifiedAt(input: Input, chain: seq<Fact>, i: nat)
    requires i < |chain|
  {
    Seed(input, chain[i]) || exists j: nat, c :: j < i && c in input.connections && Follows(input, c, chain[j], chain[i])
  }

  ghost predicate Justified(input: Input, fact: Fact) {
    exists chain: seq<Fact> :: IsChain(input, chain) && fact in chain
  }

  lemma SeedJustified(input: Input, fact: Fact)
    requires Seed(input, fact)
    ensures Justified(input, fact)
  {
    assert JustifiedAt(input, [fact], 0);
    assert IsChain(input, [fact]) && fact in [fact];
  }

  lemma FollowsJustified(input: Input, c: Connection, premise: Fact, conclusion: Fact)
    requires Justified(input, premise) && c in input.connections && Follows(input, c, premise, conclusion)
    ensures Justified(input, conclusion)
  {
    var chain: seq<Fact> :| IsChain(input, chain) && premise in chain;
    var k: nat :| k < |chain| && chain[k] == premise;
    var longer := chain + [conclusion];
    forall i: nat | i < |longer| ensures JustifiedAt(input, longer, i) {
      if i < |chain| {
        assert JustifiedAt(input, chain, i);
        if !Seed(input, chain[i]) {
          var j: nat, d :| j < i && d in input.connections && Follows(input, d, chain[j], chain[i]);
          assert longer[j] == chain[j] && longer[i] == chain[i];
        }
      } else {
        assert longer[k] == premise && longer[i] == conclusion;
      }
    }
    assert longer[|chain|] == conclusion && IsChain(input, longer);
  }

  lemma SeedHolds(input: Input, used: seq<Usage>, fact: Fact)
    requires Closed(input, used) && Seed(input, fact)
    ensures Holds(used, fact)
  {
    if c :| c in input.connections && Imports(c, fact) {
      assert ClosedUnder(input, c, used);
    } else {
      assert EntryFlagged(input, used, fact.m);
    }
  }

  /** Whatever is closed flags everything that has a justification: the least closed flags are the justified ones. */
  lemma {:induction false} ClosedHoldsJustified(input: Input, used: seq<Usage>, chain: seq<Fact>, i: nat)
    requires Closed(input, used) && IsChain(input, chain) && i < |chain|
    ensures Holds(used, chain[i])
    decreases i
  {
    assert JustifiedAt(input, chain, i);
    if Seed(input, chain[i]) {
      SeedHolds(input, used, chain[i]);
    } else {
      var j: nat, c :| j < i && c in input.connections && Follows(input, c, chain[j], chain[i]);
      ClosedHoldsJustified(input, used, chain, j);
      assert ClosedUnder(input, c, used);
    }
  }

  // ---- what a star re-export passes on ----

  /** What a re-export of everything passes on: any name but default, unless its target is known not to have it. */
  lemma StarPassesOn(input: Input, used: seq<Usage>, c: Connection, name: string)
    requires Closed(input, used) && c in input.connections && c.dependency.ExportImported? && c.dependency.isStar
    requires c.origin.Some? && c.target < |input.provided| && Holds(used, NameOf(c.origin.value, name))
    requires name != "default" && (input.provided[c.target] == None || name in input.provided[c.target].value)
    ensures Holds(used, NameOf(c.target, name))
  {
    assert ClosedUnder(input, c, used);
    if used[c.origin.value].all {
      assert Follows(input, c, AllOf(c.origin.value), AllOf(c.target));
    } else {
      assert Follows(input, c, NameOf(c.origin.value, name), NameOf(c.target, name));
    }
  }

  /** Every connection that leads to a module is a re-export of everything. */
  predicate OnlyStars(input: Input, m: nat) {
    m !in input.entries && forall c | c in input.connections && c.target == m :: c.dependency.ExportImported? && c.dependency.isStar
  }

  /** A module that is only re-exported as a whole never has its default export asked for by name, nor one it lacks. */
  lemma {:induction false} StarsPassNoDefault(input: Input, chain: seq<Fact>, i: nat)
    requires IsChain(input, chain) && i < |chain| && chain[i].NameOf? && OnlyStars(input, chain[i].m)
    ensures chain[i].name != "default"
    ensures chain[i].m < |input.provided| && input.provided[chain[i].m].Some? ==>
              chain[i].name in input.provided[chain[i].m].value
    ensures exists j: nat, c :: j < i && c in input.connections && c.target == chain[i].m
                                && c.origin == Some(chain[j].m) && chain[j] == NameOf(chain[j].m, chain[i].name)
  {
    assert JustifiedAt(input, chain, i);
    var j: nat, c :| j < i && c in input.connections && Follows(input, c, chain[j], chain[i]);
    assert c.target == chain[i].m && c.origin == Some(chain[j].m) && chain[j] == NameOf(chain[j].m, chain[i].name);
  }

  // ---- one connection ----

  /** Every flag set so far is justified. */
  ghost predicate Grounded(input: Input, used: seq<Usage>) {
    && |used| == |input.provided|
    && (forall m: nat | m < |used| && used[m].all :: Justified(input, AllOf(m)))
    && (forall m: nat, n | m < |used| && n in used[m].names :: Justified(input, NameOf(m, n)))
  }

  ghost predicate Grows(before: seq<Usage>, after: seq<Usage>) {
    |before| == |after| &&
    forall m: nat | m < |before| :: (before[m].all ==> after[m].all) && before[m].names <= after[m].names
  }

  /** The name a connection requests of its target, given what is used of its origin. */
  function Requested(c: Connection, used: seq<Usage>): Option<string>
    requires c.origin.Some? ==> c.origin.value < |used|
  {
    match c.dependency
    case ImportSpecifier(ids) => if ids == [] then None else Some(ids[0])
    case ExportImported(name, ids, _) =>
      if name.Some? && c.origin.Some? && used[c.origin.value].Uses(name.value) && ids != [] then Some(ids[0]) else None
    case _ => None
  }

  ghost predicate InRange(input: Input, c: Connection) {
    && c in input.connections && c.target < |input.provided| && c.dependency.Valid()
    && (c.origin.Some? ==> c.origin.value < |input.provided|)
  }

  method FlagAlong(input: Input, c: Connection, used: seq<Usage>) returns (flagged: seq<Usage>, changed: bool)
    requires InRange(input, c) && |used| == |input.provided|
    ensures Grows(used, flagged) && changed == (flagged != used)
    ensures Grounded(input, used) ==> Grounded(input, flagged)
    ensures !changed ==> ClosedUnder(input, c, used)
  {
    var target := used[c.target];
    if c.dependency.Import? {
      if Grounded(input, used) { SeedJustified(input, AllOf(c.target)); }
      flagged := used[c.target := target.(all := true)];
      changed := !target.all;
      assert changed <==> flagged[c.target] != used[c.target];
      return;
    }
    var requested := Requested(c, used);
    if requested.Some? {
      if Grounded(input, used) { RequestJustified(input, c, used); }
      flagged := used[c.target := target.(names := target.names + {requested.value})];
      changed := requested.value !in target.names;
      assert changed <==> flagged[c.target] != used[c.target];
    } else if c.dependency.ExportImported? && c.dependency.isStar {
      flagged, changed := FlagAlongStar(input, c, used);
    } else {
      flagged, changed := used, false;
    }
  }

  lemma RequestJustified(input: Input, c: Connection, used: seq<Usage>)
    requires InRange(input, c) && Grounded(input, used) && Requested(c, used).Some?
    ensures Justified(input, NameOf(c.target, Requested(c, used).value))
  {
    var conclusion := NameOf(c.target, Requested(c, used).value);
    if c.dependency.ImportSpecifier? {
      assert Imports(c, conclusion);
      SeedJustified(input, conclusion);
    } else {
      var origin := c.origin.value;
      var premise := if used[origin].all then AllOf(origin) else NameOf(origin, c.dependency.name.value);
      FollowsJustified(input, c, premise, conclusion);
    }
  }

  method FlagAlongStar(input: Input, c: Connection, used: seq<Usage>) returns (flagged: seq<Usage>, changed: bool)
    requires InRange(input, c) && |used| == |input.provided|
    requires c.dependency.ExportImported? && c.dependency.isStar
    ensures Grows(used, flagged) && changed == (flagged != used)
    ensures Grounded(input, used) ==> Grounded(input, flagged)
    ensures !changed ==> ClosedUnder(input, c, used)
  {
    var target := used[c.target];
    var origin := if c.origin.Some? then used[c.origin.value] else Usage(false, {});
    if origin.all {
      if Grounded(input, used) { FollowsJustified(input, c, AllOf(c.origin.value), AllOf(c.target)); }
      flagged := used[c.target := target.(all := true)];
      changed := !target.all;
    } else {
      var passed := set n | n in origin.names && PassesStar(input.provided[c.target], n);
      if Grounded(input, used) {
        forall n | n in passed ensures Justified(input, NameOf(c.target, n)) {
          FollowsJustified(input, c, NameOf(c.origin.value, n), NameOf(c.target, n));
        }
      }
      flagged := used[c.target := target.(names := target.names + passed)];
      changed := !(passed <= target.names);
    }
    assert changed <==> flagged[c.target] != used[c.target];
  }

  // ---- termination ----

  ghost function ProvidedNames(provided: seq<Option<set<string>>>): set<string> {
    if provided == [] then {}
    else ProvidedNames(provided[1..]) + if provided[0].Some? then provided[0].value else {}
  }

  ghost function FirstIds(connections: seq<Connection>): set<string> {
    if connections == [] then {}
    else FirstIds(connections[1..]) + FirstId(connections[0].dependency)
  }

  function FirstId(d: Dependency): set<string> {
    if (d.ImportSpecifier? || d.ExportImported?) && d.ids != [] then {d.ids[0]} else {}
  }

  lemma {:induction false} ProvidedNamed(provided: seq<Option<set<string>>>, m: nat)
    requires m < |provided| && provided[m].Some?
    ensures provided[m].value <= ProvidedNames(provided)
  {
    if m > 0 { ProvidedNamed(provided[1..], m - 1); }
  }

  lemma {:induction false} FirstIdNamed(connections: seq<Connection>, c: Connection)
    requires c in connections
    ensures FirstId(c.dependency) <= FirstIds(connections)
  {
    if connections[0] != c { FirstIdNamed(connections[1..], c); }
  }

  ghost function Universe(input: Input): set<string> {
    ProvidedNames(input.provided) + FirstIds(input.connections)
  }

  /** Nothing is ever flagged by a name that no module provides and no dependency asks for. */
  lemma {:induction false} ChainNamed(input: Input, chain: seq<Fact>, i: nat)
    requires IsChain(input, chain) && i < |chain| && chain[i].NameOf?
    ensures chain[i].name in Universe(input)
    decreases i
  {
    assert JustifiedAt(input, chain, i);
    if Seed(input, chain[i]) {
      if c :| c in input.connections && Imports(c, chain[i]) {
        FirstIdNamed(input.connections, c);
      } else {
        ProvidedNamed(input.provided, chain[i].m);
      }
    } else {
      var j: nat, c :| j < i && c in input.connections && Follows(input, c, chain[j], chain[i]);
      if c.dependency.isStar { ChainNamed(input, chain, j); } else { FirstIdNamed(input.connections, c); }
    }
  }

  ghost predicate Named(used: seq<Usage>, universe: set<string>) {
    forall m: nat | m < |used| :: used[m].names <= universe
  }

  lemma GroundedNamed(input: Input, used: seq<Usage>)
    requires Grounded(input, used)
    ensures Named(used, Universe(input))
  {
    forall m: nat, n | m < |used| && n in used[m].names ensures n in Universe(input) {
      assert Justified(input, NameOf(m, n));
      var chain: seq<Fact> :| IsChain(input, chain) && NameOf(m, n) in chain;
      var i: nat :| i < |chain| && chain[i] == NameOf(m, n);
      ChainNamed(input, chain, i);
    }
  }

  /** How many flags can still be set. */
  ghost function Room(used: seq<Usage>, universe: set<string>): nat {
    if used == [] then 0
    else Room(used[1..], universe) + |universe - used[0].names| + if used[0].all then 0 else 1
  }

  lemma {:induction false} GrowthUsesRoom(before: seq<Usage>, after: seq<Usage>, universe: set<string>)
    requires Grows(before, after) && Named(after, universe)
    ensures Room(after, universe) <= Room(before, universe)
    ensures before != after ==> Room(after, universe) < Room(before, universe)
  {
    if before != [] {
      assert Grows(before[1..], after[1..]) by {
        forall m: nat | m < |before| - 1
          ensures (before[1..][m].all ==> after[1..][m].all) && before[1..][m].names <= after[1..][m].names
        {
          assert before[1..][m] == before[m + 1] && after[1..][m] == after[m + 1];
        }
      }
      GrowthUsesRoom(before[1..], after[1..], universe);
      FewerLeft(before[0].names, after[0].names, universe);
      assert before == [before[0]] + before[1..] && after == [after[0]] + after[1..];
    }
  }

  lemma FewerLeft(before: set<string>, after: set<string>, universe: set<string>)
    requires before <= after <= universe
    ensures |universe - after| <= |universe - before|
    ensures before != after ==> |universe - after| < |universe - before|
  {
    assert universe - before == (universe - after) + (after - before);
    assert (universe - after) !! (after - before);
    if before != after {
      var n :| n in after && n !in before;
      assert n in after - before;
    }
  }

  // ---- the fixpoint ----

  method FlagEntries(input: Input) returns (used: seq<Usage>)
    requires input.Valid()
    ensures Grounded(input, used) && SeedsHold(input, used)
  {
    used := seq(|input.provided|, m => Usage(false, {}));
    var i := 0;
    while i < |input.entries|
      invariant i <= |input.entries| && Grounded(input, used)
      invariant forall k: nat | k < i :: input.entries[k] < |used| && EntryFlagged(input, used, input.entries[k])
    {
      var entry := input.entries[i];
      assert entry in input.entries;
      var provided := input.provided[entry];
      EntryJustified(input, entry);
      if provided.Some? {
        used := used[entry := used[entry].(names := used[entry].names + provided.value)];
      } else {
        used := used[entry := used[entry].(all := true)];
      }
      i := i + 1;
    }
  }

  lemma EntryJustified(input: Input, entry: nat)
    requires entry in input.entries && entry < |input.provided|
    ensures input.provided[entry].None? ==> Justified(input, AllOf(entry))
    ensures input.provided[entry].Some? ==> forall n | n in input.provided[entry].value :: Justified(input, NameOf(entry, n))
  {
    if input.provided[entry].None? {
      SeedJustified(input, AllOf(entry));
    } else {
      forall n | n in input.provided[entry].value ensures Justified(input, NameOf(entry, n)) {
        SeedJustified(input, NameOf(entry, n));
      }
    }
  }

  lemma SeedsStay(input: Input, before: seq<Usage>, after: seq<Usage>)
    requires SeedsHold(input, before) && Grows(before, after)
    ensures SeedsHold(input, after)
  {
    forall e | e in input.entries ensures e < |after| && EntryFlagged(input, after, e) {
      assert EntryFlagged(input, before, e);
    }
  }

  lemma GrowsTransitive(a: seq<Usage>, b: seq<Usage>, c: seq<Usage>)
    requires Grows(a, b) && Grows(b, c)
    ensures Grows(a, c)
  {
  }

  /** One pass over the connections. */
  method FlagPass(input: Input, start: seq<Usage>) returns (used: seq<Usage>, changed: bool)
    requires input.Valid() && Grounded(input, start)
    ensures Grounded(input, used) && Grows(start, used)
    ensures changed ==> used != start
    ensures !changed ==> used == start && forall c | c in input.connections :: ClosedUnder(input, c, used)
  {
    used, changed := start, false;
    var i := 0;
    while i < |input.connections|
      invariant i <= |input.connections|
      invariant Grounded(input, used) && Grows(start, used)
      invariant changed ==> used != start
      invariant !changed ==> used == start && forall k: nat | k < i :: ClosedUnder(input, input.connections[k], used)
    {
      assert input.connections[i] in input.connections && InRange(input, input.connections[i]);
      ghost var before := used;
      var flagged, more := FlagAlong(input, input.connections[i], used);
      used, changed := flagged, changed || more;
      GrowsTransitive(start, before, used);
      if before != start { GrowsBackIsSame(start, before, used); }
      i := i + 1;
    }
  }

  lemma GrowsBackIsSame(a: seq<Usage>, b: seq<Usage>, c: seq<Usage>)
    requires Grows(a, b) && Grows(b, c) && a != b
    ensures a != c
  {
    if a == c {
      assert forall m: nat | m < |a| :: a[m] == b[m];
    }
  }

  method FlagFixpoint(input: Input) returns (used: seq<Usage>)
    requires input.Valid()
    ensures Closed(input, used) && Grounded(input, used)
  {
    used := FlagEntries(input);
    var changed := true;
    while changed
      invariant Grounded(input, used) && SeedsHold(input, used)
      invariant !changed ==> Closed(input, used)
      decreases Room(used, Universe(input)) + if changed then 1 else 0
    {
      ghost var before := used;
      used, changed := FlagPass(input, used);
      SeedsStay(input, before, used);
      GroundedNamed(input, used);
      GrowthUsesRoom(before, used, Universe(input));
    }
  }

  // ---- what is written back ----

  datatype ExportsUsage = AllUsed | Only(names: set<string>)
  {
    /** Whether an export keeps a name in the output. */
    predicate IsUsed(name: string) { AllUsed? || name in names }
  }

  /** An export is flagged exactly when a finite chain of imports and re-exports from an entry asks for it. */
  ghost predicate Flagged(input: Input, usage: seq<ExportsUsage>) {
    && |usage| == |input.provided|
    && (forall m: nat | m < |usage| :: usage[m].AllUsed? <==> Justified(input, AllOf(m)))
    && (forall m: nat, n | m < |usage| ::
          usage[m].IsUsed(n) <==> Justified(input, AllOf(m)) || Justified(input, NameOf(m, n)))
  }

  method FlagDependencyUsage(input: Input) returns (usage: seq<ExportsUsage>)
    requires input.Valid()
    ensures Flagged(input, usage)
  {
    var used := FlagFixpoint(input);
    usage := seq(|used|, m requires 0 <= m < |used| => if used[m].all then AllUsed else Only(used[m].names));
    forall m: nat, n | m < |used|
      ensures used[m].all <==> Justified(input, AllOf(m))
      ensures used[m].Uses(n) <==> Justified(input, AllOf(m)) || Justified(input, NameOf(m, n))
    {
      if Justified(input, AllOf(m)) { JustifiedHolds(input, used, AllOf(m)); }
      if Justified(input, NameOf(m, n)) { JustifiedHolds(input, used, NameOf(m, n)); }
    }
    assert forall m: nat, n | m < |used| :: usage[m].IsUsed(n) == used[m].Uses(n);
    forall m: nat | m < |usage| ensures usage[m].AllUsed? <==> Justified(input, AllOf(m)) {
      assert used[m].Uses("") <==> Justified(input, AllOf(m)) || Justified(input, NameOf(m, ""));
    }
  }

  lemma JustifiedHolds(input: Input, used: seq<Usage>, fact: Fact)
    requires Closed(input, used) && Justified(input, fact)
    ensures Holds(used, fact)
  {
    var chain: seq<Fact> :| IsChain(input, chain) && fact in chain;
    var i: nat :| i < |chain| && chain[i] == fact;
    ClosedHoldsJustified(input, used, chain, i);
  }

  // ---- order independence and leastness ----

  /** Flags that satisfy every entry, import and re-export flag at least what was flagged. */
  lemma FlaggedIsLeast(input: Input, usage: seq<ExportsUsage>, other: seq<Usage>, m: nat, name: string)
    requires Flagged(input, usage) && Closed(input, other) && m < |usage|
    ensures usage[m].AllUsed? ==> other[m].all
    ensures usage[m].IsUsed(name) ==> other[m].Uses(name)
  {
    if Justified(input, AllOf(m)) { JustifiedHolds(input, other, AllOf(m)); }
    if Justified(input, NameOf(m, name)) { JustifiedHolds(input, other, NameOf(m, name)); }
  }

  /** The same entries and connections, whatever their order and repetition. */
  ghost predicate SameGraph(a: Input, b: Input) {
    && a.provided == b.provided
    && (forall e: nat :: e in a.entries <==> e in b.entries)
    && (forall c: Connection :: c in a.connections <==> c in b.connections)
  }

  lemma JustifiedInSameGraph(a: Input, b: Input, fact: Fact)
    requires SameGraph(a, b) && Justified(a, fact)
    ensures Justified(b, fact)
  {
    var chain: seq<Fact> :| IsChain(a, chain) && fact in chain;
    forall i: nat | i < |chain| ensures JustifiedAt(b, chain, i) {
      assert JustifiedAt(a, chain, i);
      if Seed(a, chain[i]) {
        assert Seed(b, chain[i]);
      } else {
        var j: nat, c :| j < i && c in a.connections && Follows(a, c, chain[j], chain[i]);
        assert c in b.connections && Follows(b, c, chain[j], chain[i]);
      }
    }
    assert IsChain(b, chain);
  }

  /** The order in which entries and connections are visited does not change a single flag. */
  lemma FlaggingIgnoresOrder(a: Input, b: Input, first: seq<ExportsUsage>, second: seq<ExportsUsage>)
    requires SameGraph(a, b) && Flagged(a, first) && Flagged(b, second)
    ensures first == second
  {
    forall m: nat, n | m < |first|
      ensures first[m].AllUsed? == second[m].AllUsed?
      ensures first[m].IsUsed(n) == second[m].IsUsed(n)
    {
      SameJustified(a, b, AllOf(m));
      SameJustified(a, b, NameOf(m, n));
    }
    forall m: nat | m < |first| ensures first[m] == second[m] {
      assert first[m].IsUsed("") == second[m].IsUsed("");
      if first[m].Only? {
        assert forall n :: n in first[m].names <==> first[m].IsUsed(n);
        assert forall n :: n in second[m].names <==> second[m].IsUsed(n);
        assert forall n :: n in first[m].names <==> n in second[m].names;
      }
    }
  }

  lemma SameJustified(a: Input, b: Input, fact: Fact)
    requires SameGraph(a, b)
    ensures Justified(a, fact) <==> Justified(b, fact)
  {
    if Justified(a, fact) { JustifiedInSameGraph(a, b, fact); }
    if Justified(b, fact) { JustifiedInSameGraph(b, a, fact); }
  }

  /** A module that is only imported as a namespace, or only for its side effects, has no used export. */
  lemma NamespaceOnlyUnused(input: Input, usage: seq<ExportsUsage>, m: nat)
    requires Flagged(input, usage) && m < |usage| && m !in input.entries
    requires forall c | c in input.connections && c.target == m ::
               c.dependency.Unrelated? || c.dependency == ImportSpecifier([])
    ensures usage[m] == Only({})
  {
    forall chain: seq<Fact>, i: nat | IsChain(input, chain) && i < |chain| ensures chain[i].m != m {
      assert JustifiedAt(input, chain, i);
    }
    assert forall fact: Fact :: fact.m == m ==> !Justified(input, fact);
    assert forall n :: !usage[m].IsUsed(n);
    if n :| n in usage[m].names { assert usage[m].IsUsed(n); }
  }
}
