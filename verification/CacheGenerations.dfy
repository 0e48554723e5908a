/** Dirty and published generations under concurrent stores, reads and publications.
    A step is one atomic load, or one section under the layers' mutex. */
module CacheGenerations {
  import opened Options

  type Address = string
  type Entry = string

  /** What happens to the contents: `Raised` is a generation without a store, as a touched entry or a
      changed guard raises it, and `Dropped` is what retention leaves out of a publication. */
  datatype Event =
    | Stored(address: Address, entry: Entry)
    | Raised
    | Cleared
    | Dropped(addresses: set<Address>)
  {
    predicate Raises() { Stored? || Raised? }
  }

  /** The contents after a list of events. */
  function Replay(log: seq<Event>): map<Address, Entry> {
    if log == [] then map[]
    else After(Replay(log[..|log| - 1]), log[|log| - 1])
  }

  function After(contents: map<Address, Entry>, event: Event): map<Address, Entry> {
    match event
    case Stored(address, entry) => contents[address := entry]
    case Raised => contents
    case Cleared => map[]
    case Dropped(addresses) => contents - addresses
  }

  /** How many generations a list of events raises; the n-th is numbered n. */
  function Raises(log: seq<Event>): nat {
    if log == [] then 0 else Raises(log[..|log| - 1]) + if log[|log| - 1].Raises() then 1 else 0
  }

  /** A caller of `pending_generation` between its two loads, or holding its answer. */
  datatype Process = HasPublished(published: nat) | Holds(target: nat)

  /** `log` is the history of events. */
  datatype Cache = Cache(
    log: seq<Event>,
    dirty: nat,
    published: nat,
    layers: map<Address, Entry>,
    image: map<Address, Entry>,
    processes: map<nat, Process>)

  datatype Act =
    | Store(address: Address, entry: Entry)
    | Raise
    | Clear
    | LoadPublished(p: nat)
    | LoadDirty(p: nat)
    | Publish(p: nat, succeeds: bool, dropped: set<Address>)

  const EMPTY := Cache([], 0, 0, map[], map[], map[])

  function Apply(c: Cache, act: Act): Option<Cache> {
    match act
    case Store(address, entry) =>
      Some(c.(log := c.log + [Stored(address, entry)], dirty := c.dirty + 1, layers := c.layers[address := entry]))
    case Raise => Some(c.(log := c.log + [Raised], dirty := c.dirty + 1))
    case Clear => Some(c.(log := c.log + [Cleared], layers := map[]))
    case LoadPublished(p) =>
      if p in c.processes then None else Some(c.(processes := c.processes[p := HasPublished(c.published)]))
    case LoadDirty(p) =>
      if !(p in c.processes && c.processes[p].HasPublished?) then None
      else if c.dirty > c.processes[p].published then Some(c.(processes := c.processes[p := Holds(c.dirty)]))
      else Some(c.(processes := c.processes - {p}))
    case Publish(p, succeeds, dropped) =>
      if !(p in c.processes && c.processes[p].Holds?) then None
      else
        var done := c.(processes := c.processes - {p});
        if c.processes[p].target <= c.published || !succeeds then Some(done)
        else
          // the image is written, and read from then on
          var image := c.layers - dropped;
          Some(done.(log := c.log + [Dropped(dropped)], layers := image, image := image, published := c.processes[p].target))
  }

  ghost predicate InImage(c: Cache, count: nat) {
    count <= |c.log| && c.image == Replay(c.log[..count]) && c.published <= Raises(c.log[..count])
  }

  ghost predicate Durable(c: Cache) {
    exists count: nat :: InImage(c, count)
  }

  ghost predicate Known(c: Cache, process: Process) {
    match process
    case HasPublished(published) => published <= c.published
    case Holds(target) => target <= c.dirty
  }

  ghost predicate Counted(c: Cache) {
    c.dirty == Raises(c.log) && c.published <= c.dirty && forall p | p in c.processes :: Known(c, c.processes[p])
  }

  ghost predicate Inv(c: Cache) {
    Counted(c) && c.layers == Replay(c.log) && Durable(c)
  }

  lemma LogGrows(log: seq<Event>, event: Event)
    ensures Raises(log + [event]) == Raises(log) + if event.Raises() then 1 else 0
    ensures Replay(log + [event]) == After(Replay(log), event)
  {
    var longer := log + [event];
    assert longer[..|longer| - 1] == log;
  }

  lemma CountedStep(c: Cache, act: Act, c': Cache)
    requires Counted(c) && Apply(c, act) == Some(c')
    ensures Counted(c') && c.published <= c'.published && c.dirty <= c'.dirty
    ensures c.log <= c'.log
  {
    if |c'.log| > |c.log| { LogGrows(c.log, c'.log[|c.log|]); }
  }

  lemma ImageStays(c: Cache, c': Cache, count: nat)
    requires InImage(c, count) && c.log <= c'.log && c'.image == c.image && c'.published == c.published
    ensures InImage(c', count)
  {
    assert c'.log[..count] == c.log[..count];
  }

  lemma LayersStep(c: Cache, act: Act, c': Cache)
    requires c.layers == Replay(c.log) && Apply(c, act) == Some(c')
    ensures c'.layers == Replay(c'.log)
  {
    if |c'.log| > |c.log| { LogGrows(c.log, c'.log[|c.log|]); }
  }

  lemma StepInv(c: Cache, act: Act, c': Cache)
    requires Inv(c) && Apply(c, act) == Some(c')
    ensures Inv(c') && c.published <= c'.published && c.dirty <= c'.dirty
  {
    CountedStep(c, act, c');
    LayersStep(c, act, c');
    var count: nat :| InImage(c, count);
    if c'.published == c.published {
      ImageStays(c, c', count);
    } else {
      assert c'.log[..|c'.log|] == c'.log;
      assert InImage(c', |c'.log|);
    }
  }

  function Play(c: Cache, acts: seq<Act>): Option<Cache>
    decreases |acts|
  {
    if acts == [] then Some(c)
    else
      var next := Apply(c, acts[0]);
      if next.None? then None else Play(next.value, acts[1..])
  }

  lemma {:induction false} PlayInv(c: Cache, acts: seq<Act>, c': Cache)
    requires Inv(c) && Play(c, acts) == Some(c')
    ensures Inv(c') && c.published <= c'.published <= c'.dirty
    decreases |acts|
  {
    if acts != [] {
      var next := Apply(c, acts[0]).value;
      StepInv(c, acts[0], next);
      PlayInv(next, acts[1..], c');
    }
  }

  lemma EmptyInv()
    ensures Inv(EMPTY)
  {
    assert InImage(EMPTY, 0);
  }

  /** However everything interleaves: the published generation only grows, never passes the dirty one,
      and the image holds every event up to some moment by which all published generations were raised. */
  lemma PublishedIsDurable(first: seq<Act>, rest: seq<Act>, middle: Cache, c: Cache)
    requires Play(EMPTY, first) == Some(middle) && Play(middle, rest) == Some(c)
    ensures middle.published <= c.published <= c.dirty == Raises(c.log)
    ensures exists count: nat :: InImage(c, count)
  {
    EmptyInv();
    PlayInv(EMPTY, first, middle);
    PlayInv(middle, rest, c);
  }

  /** An event that leaves an address alone. */
  predicate Spares(event: Event, address: Address) {
    match event
    case Stored(a, _) => a != address
    case Raised => true
    case Cleared => false
    case Dropped(addresses) => address !in addresses
  }

  lemma {:induction false} ReplaySpared(log: seq<Event>, k: nat)
    requires k < |log| && log[k].Stored?
    requires forall j: nat | k < j < |log| :: Spares(log[j], log[k].address)
    ensures log[k].address in Replay(log) && Replay(log)[log[k].address] == log[k].entry
    decreases |log|
  {
    if k < |log| - 1 {
      assert log[..|log| - 1][k] == log[k];
      ReplaySpared(log[..|log| - 1], k);
    }
  }

  lemma {:induction false} RaisesGrow(log: seq<Event>, k: nat, count: nat)
    requires k <= count <= |log|
    ensures Raises(log[..k]) <= Raises(log[..count])
    decreases count - k
  {
    if k < count {
      RaisesGrow(log, k, count - 1);
      assert log[..count][..count - 1] == log[..count - 1];
    }
  }

  /** A published store is in the image unless its address was stored, cleared or dropped since. */
  lemma PublishedStoreInImage(acts: seq<Act>, c: Cache, k: nat)
    requires Play(EMPTY, acts) == Some(c)
    requires k < |c.log| && c.log[k].Stored? && Raises(c.log[..k + 1]) <= c.published
    requires forall j: nat | k < j < |c.log| :: Spares(c.log[j], c.log[k].address)
    ensures c.log[k].address in c.image && c.image[c.log[k].address] == c.log[k].entry
  {
    EmptyInv();
    PlayInv(EMPTY, acts, c);
    var count: nat :| InImage(c, count);
    assert c.log[..k + 1][..k] == c.log[..k];
    if count <= k { RaisesGrow(c.log, count, k); }
    assert k < count;
    var prefix := c.log[..count];
    assert forall j: nat | k < j < count :: Spares(prefix[j], prefix[k].address);
    ReplaySpared(prefix, k);
  }

  /** Past an image that has every generation, there are only events that raise none. */
  lemma {:induction false} NothingRaisedSince(log: seq<Event>, count: nat, k: nat)
    requires count <= k < |log| && Raises(log) <= Raises(log[..count])
    ensures !log[k].Raises()
    decreases |log| - k
  {
    RaisesGrow(log, count, k);
    RaisesGrow(log, k + 1, |log|);
    assert log[..|log|] == log && log[..k + 1][..k] == log[..k];
  }

  /** `pending_generation` answers None exactly when, at its second load, the value it loaded first has
      reached the dirty generation; then every store so far was in the image when it was written. */
  lemma NoneMeansNothingPending(acts: seq<Act>, c: Cache, p: nat, c': Cache, k: nat)
    requires Play(EMPTY, acts) == Some(c) && Apply(c, LoadDirty(p)) == Some(c')
    ensures p in c'.processes <==> c.processes[p].published < c.dirty
    ensures p in c'.processes ==> c'.processes[p] == Holds(c.dirty)
    ensures p !in c'.processes ==> c.published == c.dirty
    ensures p !in c'.processes && k < |c.log| && c.log[k].Stored? ==>
              exists count: nat :: k < count && InImage(c, count)
  {
    EmptyInv();
    PlayInv(EMPTY, acts, c);
    if p !in c'.processes && k < |c.log| && c.log[k].Stored? {
      var count: nat :| InImage(c, count);
      if count <= k { NothingRaisedSince(c.log, count, k); }
      assert k < count && InImage(c, count);
    }
  }

  /** A publication that succeeds reaches the generation it was asked for, and writes unless it was reached before. */
  lemma PublicationReaches(c: Cache, p: nat, succeeds: bool, dropped: set<Address>, c': Cache)
    requires Apply(c, Publish(p, succeeds, dropped)) == Some(c')
    ensures var target := c.processes[p].target;
            && (succeeds ==> c'.published >= target)
            && (succeeds && target > c.published ==> c'.published == target && c'.image == c.layers - dropped && c'.layers == c'.image)
            && (!succeeds || target <= c.published ==> c' == c.(processes := c.processes - {p}))
  {
  }

  /** The same two loads in the other order: dirty first, published second. */
  function ReversedAnswer(atFirst: Cache, atSecond: Cache): Option<nat> {
    if atFirst.dirty > atSecond.published then Some(atFirst.dirty) else None
  }

  /** Loading dirty first would hide a store that lands between the loads. */
  lemma ReversedOrderHidesStore() returns (atFirst: Cache, atSecond: Cache)
    ensures Play(EMPTY, []) == Some(atFirst)
    ensures Play(EMPTY, [Store("a", "v")]) == Some(atSecond)
    ensures ReversedAnswer(atFirst, atSecond) == None && atSecond.dirty > atSecond.published
  {
    atFirst := EMPTY;
    atSecond := Apply(EMPTY, Store("a", "v")).value;
    assert [Store("a", "v")][1..] == [];
  }
}
