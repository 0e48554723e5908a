/** Runtime requirements as bits of one word, and the runtime modules they bring with them. */
module RuntimeRequirementSets {
  import opened Options
  import opened Sequences
  import opened Words64
  import RenderIds

  datatype Requirement =
    | ModuleFactories | ModuleCache | Require | DefinePropertyGetters | HasOwnProperty | MakeNamespaceObject
    | EnsureChunk | EnsureChunkHandlers | GetChunkFilename | ModuleFactoriesAddOnly | ReturnExportsFromRuntime

  const ALL: seq<Requirement> :=
    [ModuleFactories, ModuleCache, Require, DefinePropertyGetters, HasOwnProperty, MakeNamespaceObject,
     EnsureChunk, EnsureChunkHandlers, GetChunkFilename, ModuleFactoriesAddOnly, ReturnExportsFromRuntime]

  /** The positions are persisted, so they do not follow the order of the variants. */
  function BitOf(r: Requirement): (bit: nat)
    ensures bit < 16
  {
    match r
    case ModuleFactories => 0
    case ModuleCache => 1
    case Require => 2
    case DefinePropertyGetters => 3
    case HasOwnProperty => 4
    case MakeNamespaceObject => 5
    case EnsureChunk => 6
    case GetChunkFilename => 7
    case ReturnExportsFromRuntime => 8
    case EnsureChunkHandlers => 9
    case ModuleFactoriesAddOnly => 10
  }

  lemma AllListed(r: Requirement)
    ensures r in ALL
  {
    assert ALL[0] == ModuleFactories && ALL[1] == ModuleCache && ALL[2] == Require && ALL[3] == DefinePropertyGetters;
    assert ALL[4] == HasOwnProperty && ALL[5] == MakeNamespaceObject && ALL[6] == EnsureChunk;
    assert ALL[7] == EnsureChunkHandlers && ALL[8] == GetChunkFilename && ALL[9] == ModuleFactoriesAddOnly;
    assert ALL[10] == ReturnExportsFromRuntime;
  }

  // ---- sets of requirements ----

  datatype Requirements = Requirements(bits: Word)
  {
    ghost predicate Has(r: Requirement) { Bit(bits, BitOf(r)) }

    ghost function Elements(): set<Requirement> { set r: Requirement | Has(r) }

    predicate Contains(r: Requirement) { And(bits, OneShifted(BitOf(r))) != 0 }

    function Inserted(r: Requirement): Requirements { Requirements(Or(bits, OneShifted(BitOf(r)))) }

    function Extended(other: Requirements): Requirements { Requirements(Or(bits, other.bits)) }
  }

  lemma ContainsIsMembership(q: Requirements, r: Requirement)
    ensures q.Contains(r) <==> r in q.Elements()
  {
    TestOneBit(q.bits, BitOf(r));
  }

  lemma InsertedElements(q: Requirements, r: Requirement)
    ensures q.Inserted(r).Elements() == q.Elements() + {r}
  {
    forall s: Requirement ensures q.Inserted(r).Has(s) <==> q.Has(s) || s == r {
      OrOneBit(q.bits, BitOf(r), BitOf(s));
    }
  }

  lemma ExtendedElements(q: Requirements, other: Requirements)
    ensures q.Extended(other).Elements() == q.Elements() + other.Elements()
  {
    forall s: Requirement ensures q.Extended(other).Has(s) <==> q.Has(s) || other.Has(s) {
      OrDigitsBit(q.bits, other.bits, 64, BitOf(s));
    }
  }

  function NoRequirements(): Requirements { Requirements(0) }

  lemma NoElements()
    ensures NoRequirements().Elements() == {}
  {
    forall r: Requirement ensures !NoRequirements().Has(r) { ZeroBit(BitOf(r)); }
  }

  // ---- runtime modules and what they need ----

  datatype RuntimeModule =
    | DefineGetters | LoadChunk | ChunkFilename | OwnProperty | NamespaceObject | FactoriesAddOnly | RequireLoading

  /** Ordered by stage and then by identifier, as the modules are rendered. */
  const RENDER_ORDER: seq<RuntimeModule> :=
    [DefineGetters, ChunkFilename, OwnProperty, NamespaceObject, FactoriesAddOnly, LoadChunk, RequireLoading]

  function Stage(m: RuntimeModule): nat {
    if m == LoadChunk then 1 else if m == RequireLoading then 2 else 0
  }

  function ShortIdentifier(m: RuntimeModule): string {
    match m
    case DefineGetters => "define property getters"
    case LoadChunk => "ensure chunk"
    case ChunkFilename => "get javascript chunk filename"
    case OwnProperty => "hasOwnProperty shorthand"
    case NamespaceObject => "make namespace object"
    case FactoriesAddOnly => "module factories add only"
    case RequireLoading => "require chunk loading"
  }

  function Identifier(m: RuntimeModule): string {
    "webpack/runtime/" + ShortIdentifier(m)
  }

  function ModuleFor(r: Requirement): Option<RuntimeModule> {
    match r
    case DefinePropertyGetters => Some(DefineGetters)
    case HasOwnProperty => Some(OwnProperty)
    case MakeNamespaceObject => Some(NamespaceObject)
    case EnsureChunk => Some(LoadChunk)
    case EnsureChunkHandlers => Some(RequireLoading)
    case GetChunkFilename => Some(ChunkFilename)
    case ModuleFactoriesAddOnly => Some(FactoriesAddOnly)
    case _ => None
  }

  function Prerequisites(m: RuntimeModule): seq<Requirement> {
    match m
    case DefineGetters => [HasOwnProperty]
    case LoadChunk => [EnsureChunkHandlers]
    case RequireLoading => [GetChunkFilename, ModuleFactoriesAddOnly, HasOwnProperty]
    case _ => []
  }

  /** One requirement brings another in with its runtime module. */
  predicate Brings(r: Requirement, p: Requirement) {
    ModuleFor(r).Some? && p in Prerequisites(ModuleFor(r).value)
  }

  ghost predicate Closed(s: set<Requirement>) {
    forall r, p | r in s && Brings(r, p) :: p in s
  }

  /** The least set with everything asked for and everything it brings. */
  ghost predicate IsClosure(direct: set<Requirement>, result: set<Requirement>) {
    && direct <= result && Closed(result)
    && forall other: set<Requirement> | direct <= other && Closed(other) :: result <= other
  }

  lemma ClosureUnique(direct: set<Requirement>, a: set<Requirement>, b: set<Requirement>)
    requires IsClosure(direct, a) && IsClosure(direct, b)
    ensures a == b
  {
  }

  /** Closing module by module and joining is joining and closing. */
  lemma ClosureOfUnion(a: set<Requirement>, b: set<Requirement>, p: set<Requirement>, q: set<Requirement>)
    requires IsClosure(a, p) && IsClosure(b, q)
    ensures IsClosure(a + b, p + q)
  {
    forall other: set<Requirement> | a + b <= other && Closed(other) ensures p + q <= other {
      assert a <= other && b <= other;
    }
  }

  /** Whatever loads chunks has every part of chunk loading. */
  lemma ChunkLoadingIsComplete(direct: set<Requirement>, result: set<Requirement>)
    requires IsClosure(direct, result) && EnsureChunk in direct
    ensures {EnsureChunkHandlers, GetChunkFilename, ModuleFactoriesAddOnly, HasOwnProperty} <= result
  {
    assert Prerequisites(LoadChunk)[0] == EnsureChunkHandlers;
    assert Brings(EnsureChunk, EnsureChunkHandlers);
    var needed := Prerequisites(RequireLoading);
    assert needed[0] == GetChunkFilename && needed[1] == ModuleFactoriesAddOnly && needed[2] == HasOwnProperty;
    assert Brings(EnsureChunkHandlers, GetChunkFilename) && Brings(EnsureChunkHandlers, ModuleFactoriesAddOnly);
    assert Brings(EnsureChunkHandlers, HasOwnProperty);
  }

  // ---- what the text of a runtime module defines and uses ----

  /** The properties of `__webpack_require__`, and the handlers for loading a chunk, of which each needs one. */
  datatype Symbol = D | O | R | E | F | U | M | Handler

  predicate Defines(m: RuntimeModule, symbol: Symbol) {
    match m
    case DefineGetters => symbol == D
    case OwnProperty => symbol == O
    case NamespaceObject => symbol == R
    case LoadChunk => symbol == E || symbol == F
    case ChunkFilename => symbol == U
    case FactoriesAddOnly => symbol == M
    case RequireLoading => symbol == Handler
  }

  predicate Uses(m: RuntimeModule, symbol: Symbol) {
    match m
    case DefineGetters => symbol == O
    case LoadChunk => symbol == Handler
    case RequireLoading => symbol == O || symbol == M || symbol == U || symbol == F
    case _ => false
  }

  /** What a requirement asks for, where a runtime module defines it and not the bootstrap code. */
  function Asked(r: Requirement): Option<Symbol> {
    match r
    case DefinePropertyGetters => Some(D)
    case HasOwnProperty => Some(O)
    case MakeNamespaceObject => Some(R)
    case EnsureChunk => Some(E)
    case EnsureChunkHandlers => Some(Handler)
    case GetChunkFilename => Some(U)
    case ModuleFactoriesAddOnly => Some(M)
    case ModuleFactories => None
    case ModuleCache => None
    case Require => None
    case ReturnExportsFromRuntime => None
  }

  /** A requirement brings exactly the runtime module that defines what it asks for. */
  lemma ModuleForDefines(r: Requirement, m: RuntimeModule)
    ensures ModuleFor(r) == Some(m) <==> Asked(r).Some? && Defines(m, Asked(r).value)
  {
  }

  /** A runtime module brings what its text uses, and nothing else. */
  lemma PrerequisitesAreUses(m: RuntimeModule, p: Requirement)
    ensures p in Prerequisites(m) <==> Asked(p).Some? && Uses(m, Asked(p).value)
  {
    var needed := Prerequisites(m);
    assert needed == [] || needed == [needed[0]] || needed == [needed[0], needed[1], needed[2]];
  }

  ghost predicate DefinedIn(q: set<Requirement>, symbol: Symbol) {
    exists r :: r in q && ModuleFor(r).Some? && Defines(ModuleFor(r).value, symbol)
  }

  /** Every symbol that the runtime modules of a set of requirements use is defined by one of them. */
  ghost predicate SelfContained(q: set<Requirement>) {
    forall r, symbol | r in q && ModuleFor(r).Some? && Uses(ModuleFor(r).value, symbol) :: DefinedIn(q, symbol)
  }

  /** The runtime of a resolved set runs by itself, if and only if handlers are only asked for with chunk loading. */
  lemma ResolvedRunsIff(direct: set<Requirement>, result: set<Requirement>)
    requires IsClosure(direct, result)
    ensures SelfContained(result) <==> (EnsureChunkHandlers in direct ==> EnsureChunk in direct)
  {
    HandlersCome(direct, result);
    if EnsureChunkHandlers in result && EnsureChunk !in result {
      assert Uses(ModuleFor(EnsureChunkHandlers).value, F) && !DefinedIn(result, F);
    } else {
      forall r, symbol | r in result && ModuleFor(r).Some? && Uses(ModuleFor(r).value, symbol) ensures DefinedIn(result, symbol) {
        if symbol == F {
          assert Defines(ModuleFor(EnsureChunk).value, F);
        } else {
          var p := Asking(symbol);
          PrerequisitesAreUses(ModuleFor(r).value, p);
          assert Brings(r, p) && Defines(ModuleFor(p).value, symbol);
        }
      }
    }
  }

  function Asking(symbol: Symbol): (r: Requirement)
    requires symbol != F
    ensures Asked(r) == Some(symbol)
  {
    match symbol
    case D => DefinePropertyGetters
    case O => HasOwnProperty
    case R => MakeNamespaceObject
    case E => EnsureChunk
    case U => GetChunkFilename
    case M => ModuleFactoriesAddOnly
    case Handler => EnsureChunkHandlers
  }

  /** Handlers are resolved exactly if they or chunk loading were asked for; chunk loading only if it was. */
  lemma HandlersCome(direct: set<Requirement>, result: set<Requirement>)
    requires IsClosure(direct, result)
    ensures EnsureChunk in result <==> EnsureChunk in direct
    ensures EnsureChunkHandlers in result <==> EnsureChunkHandlers in direct || EnsureChunk in direct
  {
    forall r, p | Brings(r, p) ensures p != EnsureChunk && (p == EnsureChunkHandlers ==> r == EnsureChunk) {
      PrerequisitesAreUses(ModuleFor(r).value, p);
    }
    var without := if EnsureChunk in direct then result else result - {EnsureChunk};
    assert direct <= without && Closed(without);
    var fewer := if EnsureChunkHandlers in direct || EnsureChunk in direct then without else without - {EnsureChunkHandlers};
    assert direct <= fewer && Closed(fewer);
    if EnsureChunk in direct {
      PrerequisitesAreUses(LoadChunk, EnsureChunkHandlers);
      assert Brings(EnsureChunk, EnsureChunkHandlers);
    }
  }

  // ---- resolution ----

  ghost predicate Least(direct: set<Requirement>, s: set<Requirement>) {
    forall other: set<Requirement> | direct <= other && Closed(other) :: s <= other
  }

  /** What is still missing of all requirements. */
  ghost function Room(s: set<Requirement>): nat {
    |(set r: Requirement | r !in s)|
  }

  lemma GrowthLeavesLessRoom(before: set<Requirement>, after: set<Requirement>)
    requires before <= after
    ensures Room(after) <= Room(before) && (before != after ==> Room(after) < Room(before))
  {
    var a, b := (set r: Requirement | r !in after), (set r: Requirement | r !in before);
    assert b == a + (after - before);
    if before != after {
      var r :| r in after && r !in before;
      assert r in after - before;
    }
  }

  /** Bits are only added, and only bits of requirements. */
  ghost predicate Grew(a: Requirements, b: Requirements) {
    a.Elements() <= b.Elements() && (a != b ==> a.Elements() != b.Elements())
  }

  lemma InsertedGrew(q: Requirements, r: Requirement)
    ensures Grew(q, q.Inserted(r))
  {
    InsertedElements(q, r);
    if q.Has(r) {
      forall index: nat | index < 64 ensures Bit(q.Inserted(r).bits, index) == Bit(q.bits, index) {
        OrOneBit(q.bits, BitOf(r), index);
      }
      WordExtensional(q.Inserted(r).bits, q.bits);
    }
  }

  lemma GrewTransitive(a: Requirements, b: Requirements, c: Requirements)
    requires Grew(a, b) && Grew(b, c)
    ensures Grew(a, c)
  {
  }

  method AddPrerequisites(current: Requirements, r: Requirement, ghost direct: set<Requirement>)
    returns (grown: Requirements)
    requires ModuleFor(r).Some? && r in current.Elements() && Least(direct, current.Elements())
    ensures Grew(current, grown) && Least(direct, grown.Elements())
    ensures forall p | Brings(r, p) :: p in grown.Elements()
  {
    var needed := Prerequisites(ModuleFor(r).value);
    grown := current;
    var i := 0;
    while i < |needed|
      invariant i <= |needed| && Grew(current, grown) && Least(direct, grown.Elements())
      invariant forall k: nat | k < i :: needed[k] in grown.Elements()
    {
      InsertedElements(grown, needed[i]);
      forall other: set<Requirement> | direct <= other && Closed(other)
        ensures grown.Elements() + {needed[i]} <= other
      {
        assert Brings(r, needed[i]);
      }
      InsertedGrew(grown, needed[i]);
      GrewTransitive(current, grown, grown.Inserted(needed[i]));
      grown := grown.Inserted(needed[i]);
      i := i + 1;
    }
  }

  /** The runtime modules of a set of requirements. */
  ghost function Supplied(q: Requirements): set<RuntimeModule> {
    set r: Requirement | r in q.Elements() && ModuleFor(r).Some? :: ModuleFor(r).value
  }

  ghost function SuppliedBy(q: Requirements, n: nat): set<RuntimeModule>
    requires n <= |ALL|
  {
    if n == 0 then {}
    else SuppliedBy(q, n - 1) + if q.Has(ALL[n - 1]) && ModuleFor(ALL[n - 1]).Some? then {ModuleFor(ALL[n - 1]).value} else {}
  }

  lemma {:induction false} SuppliedByMember(q: Requirements, n: nat, m: RuntimeModule)
    requires n <= |ALL|
    ensures m in SuppliedBy(q, n) <==> exists k: nat :: k < n && q.Has(ALL[k]) && ModuleFor(ALL[k]) == Some(m)
  {
    if n > 0 { SuppliedByMember(q, n - 1, m); }
  }

  lemma SuppliedByAll(q: Requirements)
    ensures SuppliedBy(q, |ALL|) == Supplied(q)
  {
    forall m ensures m in SuppliedBy(q, |ALL|) <==> m in Supplied(q) {
      SuppliedByMember(q, |ALL|, m);
      if r :| q.Has(r) && ModuleFor(r) == Some(m) {
        AllListed(r);
        var k: nat :| k < |ALL| && ALL[k] == r;
      }
    }
  }

  ghost predicate BroughtBy(start: Requirements, grown: Requirements, n: nat) {
    forall k: nat, p | k < n && k < |ALL| && start.Has(ALL[k]) && Brings(ALL[k], p) :: p in grown.Elements()
  }

  lemma BroughtByAll(start: Requirements, grown: Requirements)
    requires BroughtBy(start, grown, |ALL|)
    ensures forall r, p | r in start.Elements() && Brings(r, p) :: p in grown.Elements()
  {
    forall r, p | r in start.Elements() && Brings(r, p) ensures p in grown.Elements() {
      AllListed(r);
      var k: nat :| k < |ALL| && ALL[k] == r;
    }
  }

  /** One pass over what was required when it began. */
  method ResolveOnce(start: Requirements, modules: set<RuntimeModule>, ghost direct: set<Requirement>)
    returns (grown: Requirements, more: set<RuntimeModule>)
    requires Least(direct, start.Elements())
    ensures Grew(start, grown) && Least(direct, grown.Elements())
    ensures forall r, p | r in start.Elements() && Brings(r, p) :: p in grown.Elements()
    ensures more == modules + Supplied(start)
  {
    grown, more := start, modules;
    var i := 0;
    while i < |ALL|
      invariant i <= |ALL| && Grew(start, grown) && Least(direct, grown.Elements())
      invariant BroughtBy(start, grown, i) && more == modules + SuppliedBy(start, i)
    {
      grown, more := ResolveNext(start, grown, more, i, direct);
      i := i + 1;
    }
    SuppliedByAll(start);
    BroughtByAll(start, grown);
  }

  method ResolveNext(start: Requirements, before: Requirements, modules: set<RuntimeModule>, i: nat,
                     ghost direct: set<Requirement>)
    returns (grown: Requirements, more: set<RuntimeModule>)
    requires i < |ALL| && Grew(start, before) && Least(direct, before.Elements()) && BroughtBy(start, before, i)
    ensures Grew(start, grown) && Least(direct, grown.Elements()) && BroughtBy(start, grown, i + 1)
    ensures more == modules + if start.Has(ALL[i]) && ModuleFor(ALL[i]).Some? then {ModuleFor(ALL[i]).value} else {}
  {
    var r := ALL[i];
    grown, more := before, modules;
    ContainsIsMembership(start, r);
    if start.Contains(r) && ModuleFor(r).Some? {
      more := more + {ModuleFor(r).value};
      grown := AddPrerequisites(before, r, direct);
      GrewTransitive(start, before, grown);
    }
  }

  method ResolveRuntimeModules(direct: Requirements) returns (resolved: Requirements, rendered: seq<RuntimeModule>)
    ensures IsClosure(direct.Elements(), resolved.Elements())
    ensures forall m :: m in rendered <==> m in Supplied(resolved)
    ensures InRenderOrder(rendered)
  {
    resolved := direct;
    var modules := {};
    var changed := true;
    while changed
      invariant direct.Elements() <= resolved.Elements() && Least(direct.Elements(), resolved.Elements())
      invariant modules <= Supplied(resolved)
      invariant !changed ==> Closed(resolved.Elements()) && modules == Supplied(resolved)
      decreases Room(resolved.Elements()), changed
    {
      var before := resolved;
      resolved, modules := ResolveOnce(before, modules, direct.Elements());
      GrowthLeavesLessRoom(before.Elements(), resolved.Elements());
      changed := resolved != before;
    }
    rendered := Render(modules);
  }

  function Rank(m: RuntimeModule): (rank: nat)
    ensures rank < |RENDER_ORDER| && RENDER_ORDER[rank] == m
  {
    match m
    case DefineGetters => 0
    case ChunkFilename => 1
    case OwnProperty => 2
    case NamespaceObject => 3
    case FactoriesAddOnly => 4
    case LoadChunk => 5
    case RequireLoading => 6
  }

  /** The order in which runtime modules are rendered: by stage, and then by identifier. */
  predicate RendersBefore(a: RuntimeModule, b: RuntimeModule) {
    Stage(a) < Stage(b) || (Stage(a) == Stage(b) && RenderIds.Less(Identifier(a), Identifier(b)))
  }

  /** Each module once, sorted. */
  ghost predicate InRenderOrder(rendered: seq<RuntimeModule>) {
    forall i: nat, j: nat | i < j < |rendered| :: RendersBefore(rendered[i], rendered[j])
  }

  method Render(modules: set<RuntimeModule>) returns (rendered: seq<RuntimeModule>)
    ensures forall m :: m in rendered <==> m in modules
    ensures InRenderOrder(rendered)
  {
    rendered := [];
    var i := 0;
    while i < |RENDER_ORDER|
      invariant i <= |RENDER_ORDER|
      invariant forall m :: m in rendered <==> m in modules && Rank(m) < i
      invariant InRenderOrder(rendered)
    {
      RankAt(i);
      if RENDER_ORDER[i] in modules {
        forall k: nat | k < |rendered| ensures RendersBefore(rendered[k], RENDER_ORDER[i]) {
          assert rendered[k] in rendered;
          RanksAreOrder(rendered[k], RENDER_ORDER[i]);
        }
        rendered := rendered + [RENDER_ORDER[i]];
      }
      i := i + 1;
    }
  }

  lemma RankAt(i: nat)
    requires i < |RENDER_ORDER|
    ensures Rank(RENDER_ORDER[i]) == i
  {
  }

  lemma {:induction false} LessBehind(head: string, a: string, b: string)
    requires RenderIds.Less(a, b)
    ensures RenderIds.Less(head + a, head + b)
  {
    if head == [] {
      assert head + a == a && head + b == b;
    } else {
      LessBehind(head[1..], a, b);
      assert RenderIds.Codes(head + a)[1..] == RenderIds.Codes(head[1..] + a);
      assert RenderIds.Codes(head + b)[1..] == RenderIds.Codes(head[1..] + b);
    }
  }

  /** The first letters, or the second ones, tell identifiers of one stage apart. */
  lemma LettersDecide(a: RuntimeModule, b: RuntimeModule)
    requires Stage(a) == Stage(b) && Rank(a) < Rank(b)
    ensures RenderIds.Less(ShortIdentifier(a), ShortIdentifier(b))
  {
    var x, y := RenderIds.Codes(ShortIdentifier(a)), RenderIds.Codes(ShortIdentifier(b));
    assert x[0] < y[0] || (x[0] == y[0] && x[1..][0] < y[1..][0]);
  }

  lemma RanksAreOrder(a: RuntimeModule, b: RuntimeModule)
    requires Rank(a) < Rank(b)
    ensures RendersBefore(a, b)
  {
    if Stage(a) == Stage(b) {
      LettersDecide(a, b);
      LessBehind("webpack/runtime/", ShortIdentifier(a), ShortIdentifier(b));
    }
  }

  /** What attaches the handlers comes after what makes the place for them. */
  lemma HandlersAttachLater(rendered: seq<RuntimeModule>, i: nat, j: nat)
    requires InRenderOrder(rendered) && i < |rendered| && j < |rendered|
    requires Uses(rendered[j], F) && Defines(rendered[i], F)
    ensures i < j
  {
    assert rendered[i] == LoadChunk && rendered[j] == RequireLoading;
  }
}
