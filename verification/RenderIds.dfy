/** Render ids: short readable names where they are free, renamed or numbered where they are not. */
module RenderIds {
  import opened Options
  import opened Sequences

  datatype Name = Name(short: string, full: string)

  datatype Candidate = Candidate(item: nat, name: Name)

  datatype RenderId = Text(text: string) | Number(n: nat)
  {
    function Printed(): string { if Text? then text else Decimal(n) }
  }

  // ---- decimal numerals are injective ----

  function Decimal(n: nat): (digits: string)
    ensures |digits| > 0 && (|digits| == 1 <==> n < 10)
  {
    if n < 10 then [DigitChar(n)] else Decimal(n / 10) + [DigitChar(n % 10)]
  }

  function DigitChar(d: nat): char
    requires d < 10
  {
    "0123456789"[d]
  }

  lemma {:induction false} DecimalInjective(m: nat, n: nat)
    requires Decimal(m) == Decimal(n)
    ensures m == n
  {
    var a, b := Decimal(m), Decimal(n);
    assert a[|a| - 1] == DigitChar(m % 10) && b[|b| - 1] == DigitChar(n % 10);
    if m >= 10 && n >= 10 {
      assert a[..|a| - 1] == Decimal(m / 10) && b[..|b| - 1] == Decimal(n / 10);
      DecimalInjective(m / 10, n / 10);
    }
  }

  // ---- the first free name ----

  function Numbered(prefix: string, k: nat): string { prefix + Decimal(k) }

  lemma NumberedInjective(prefix: string, j: nat, k: nat)
    requires Numbered(prefix, j) == Numbered(prefix, k)
    ensures j == k
  {
    assert Numbered(prefix, j)[|prefix|..] == Decimal(j) && Numbered(prefix, k)[|prefix|..] == Decimal(k);
    DecimalInjective(j, k);
  }

  /** The names of this prefix tried before `index`. */
  ghost function Tried(prefix: string, index: nat): set<string> {
    set k: nat | k < index :: Numbered(prefix, k)
  }

  ghost function Untried(prefix: string, index: nat, used: set<string>): nat {
    |used - Tried(prefix, index)|
  }

  /** One more name tried in vain leaves fewer used names untried: the search ends by pigeonhole. */
  lemma FewerUntried(prefix: string, index: nat, used: set<string>)
    requires Numbered(prefix, index) in used
    ensures Untried(prefix, index + 1, used) < Untried(prefix, index, used)
  {
    var name := Numbered(prefix, index);
    if name in Tried(prefix, index) {
      var k: nat :| k < index && Numbered(prefix, k) == name;
      NumberedInjective(prefix, k, index);
    }
    var before, after := used - Tried(prefix, index), used - Tried(prefix, index + 1);
    assert after <= before - {name};
    Smaller(after, before - {name});
  }

  lemma {:induction false} Smaller(a: set<string>, b: set<string>)
    requires a <= b
    ensures |a| <= |b|
  {
    assert b == a + (b - a);
  }

  function FirstFree(prefix: string, index: nat, used: set<string>): (k: nat)
    ensures index <= k && Numbered(prefix, k) !in used
    decreases Untried(prefix, index, used)
  {
    if Numbered(prefix, index) !in used then index
    else
      FewerUntried(prefix, index, used);
      FirstFree(prefix, index + 1, used)
  }

  /** Nothing free is passed over. */
  lemma {:induction false} FirstFreeIsFirst(prefix: string, index: nat, used: set<string>, j: nat)
    requires index <= j < FirstFree(prefix, index, used)
    ensures Numbered(prefix, j) in used
    decreases j - index
  {
    if index < j { FirstFreeIsFirst(prefix, index + 1, used, j); }
  }

  // ---- naming in sorted order ----

  function Renamed(base: string, used: set<string>): (name: string)
    ensures name !in used
  {
    if base !in used then base else Numbered(base + "-", FirstFree(base + "-", 0, used))
  }

  /** No neighbour shares the short name: in sorted order, nobody does. */
  predicate Solo(names: seq<Name>, i: nat)
    requires i < |names|
  {
    && (i > 0 ==> names[i - 1].short != names[i].short)
    && (i + 1 < |names| ==> names[i + 1].short != names[i].short)
  }

  /** The name with the hash of what tells it apart. */
  function Suffixed(n: Name, suffix: string -> string): string {
    n.short + "-" + suffix(n.full)
  }

  function NameOf(names: seq<Name>, i: nat, suffix: string -> string, used: set<string>): (name: string)
    requires i < |names|
    ensures name !in used
  {
    var n := names[i];
    if Solo(names, i) && n.short !in used then n.short else Renamed(Suffixed(n, suffix), used)
  }

  datatype Naming = Naming(ids: seq<RenderId>, next: nat, used: set<string>)

  /** The names from one position to another, each taken from what is still unused. */
  function Named(names: seq<Name>, from: nat, upto: nat, suffix: string -> string, reserved: set<string>): (n: Naming)
    requires from <= upto <= |names|
    ensures |n.ids| == upto - from
    decreases upto
  {
    if from == upto then Naming([], 0, reserved)
    else
      var before := Named(names, from, upto - 1, suffix, reserved);
      var name := NameOf(names, upto - 1, suffix, before.used);
      Naming(before.ids + [Text(name)], 0, before.used + {name})
  }

  function FreeNumber(next: nat, used: set<string>): (n: nat)
    ensures next <= n && Number(n).Printed() !in used
  {
    var n := FirstFree("", next, used);
    assert Numbered("", n) == Decimal(n);
    n
  }

  /** Ascending numbers, passing over those that are used as names. */
  function Numbers(count: nat, reserved: set<string>): (n: Naming)
    ensures |n.ids| == count
  {
    if count == 0 then Naming([], 0, reserved)
    else
      var before := Numbers(count - 1, reserved);
      var id := Number(FreeNumber(before.next, before.used));
      Naming(before.ids + [id], id.n + 1, before.used + {id.Printed()})
  }

  function PrintedSet(ids: seq<RenderId>): set<string> {
    set id | id in ids :: id.Printed()
  }

  /** In sorted order the names without a short form come first; they are numbered last. */
  function Unnamed(names: seq<Name>): (k: nat)
    ensures k <= |names|
    ensures forall i: nat | i < k :: names[i].short == ""
    ensures k < |names| ==> names[k].short != ""
  {
    if names == [] || names[0].short != "" then 0 else 1 + Unnamed(names[1..])
  }

  function IdsFor(names: seq<Name>, suffix: string -> string, reserved: set<string>): (ids: seq<RenderId>)
    ensures |ids| == |names|
  {
    var k := Unnamed(names);
    var named := Named(names, k, |names|, suffix, reserved);
    Numbers(k, named.used).ids + named.ids
  }

  // ---- ids are distinct ----

  ghost predicate Fresh(ids: seq<RenderId>, used: set<string>) {
    && (forall i: nat | i < |ids| :: ids[i].Printed() !in used)
    && (forall i: nat, j: nat | i < j < |ids| :: ids[i].Printed() != ids[j].Printed())
  }

  /** Used is what was reserved and what was printed since. */
  ghost predicate Extends(n: Naming, reserved: set<string>) {
    Fresh(n.ids, reserved) && n.used == reserved + PrintedSet(n.ids)
  }

  lemma FreshSnoc(ids: seq<RenderId>, id: RenderId, reserved: set<string>)
    requires Fresh(ids, reserved) && id.Printed() !in reserved + PrintedSet(ids)
    ensures Fresh(ids + [id], reserved) && PrintedSet(ids + [id]) == PrintedSet(ids) + {id.Printed()}
  {
    assert forall x :: x in ids + [id] <==> x in ids || x == id;
    forall i: nat | i < |ids| ensures ids[i].Printed() != id.Printed() {
      assert ids[i] in ids;
    }
  }

  lemma FreshConcat(first: seq<RenderId>, second: seq<RenderId>, used: set<string>)
    requires Fresh(second, used) && Fresh(first, used + PrintedSet(second))
    ensures Fresh(first + second, used)
  {
    var ids := first + second;
    forall i: nat, j: nat | i < j < |ids| ensures ids[i].Printed() != ids[j].Printed() {
      if i < |first| <= j { assert second[j - |first|] in second; assert ids[j].Printed() in PrintedSet(second); }
    }
  }

  lemma {:induction false} NamedExtends(names: seq<Name>, from: nat, upto: nat, suffix: string -> string, reserved: set<string>)
    requires from <= upto <= |names|
    ensures Extends(Named(names, from, upto, suffix, reserved), reserved)
    decreases upto
  {
    if from < upto {
      NamedExtends(names, from, upto - 1, suffix, reserved);
      var before := Named(names, from, upto - 1, suffix, reserved);
      FreshSnoc(before.ids, Text(NameOf(names, upto - 1, suffix, before.used)), reserved);
    }
  }

  lemma {:induction false} NumbersExtends(count: nat, reserved: set<string>)
    ensures Extends(Numbers(count, reserved), reserved)
  {
    if count > 0 {
      NumbersExtends(count - 1, reserved);
      var before := Numbers(count - 1, reserved);
      FreshSnoc(before.ids, Number(FreeNumber(before.next, before.used)), reserved);
    }
  }

  /** As printed, no two ids are the same, strings and numbers together, and none is reserved. */
  lemma IdsDistinct(names: seq<Name>, suffix: string -> string, reserved: set<string>)
    ensures Fresh(IdsFor(names, suffix, reserved), reserved)
  {
    var k := Unnamed(names);
    var named := Named(names, k, |names|, suffix, reserved);
    NamedExtends(names, k, |names|, suffix, reserved);
    NumbersExtends(k, named.used);
    FreshConcat(Numbers(k, named.used).ids, named.ids, reserved);
  }

  // ---- ids are readable ----

  /** The text begins with the other text. */
  predicate BeginsWith(text: string, head: string) {
    |head| <= |text| && text[..|head|] == head
  }

  lemma RenamedBegins(base: string, used: set<string>, head: string)
    requires BeginsWith(base, head)
    ensures BeginsWith(Renamed(base, used), head)
  {
    if base in used {
      var k := FirstFree(base + "-", 0, used);
      assert Numbered(base + "-", k)[..|base|] == base;
      assert base[..|head|] == Numbered(base + "-", k)[..|head|];
    }
  }

  /** Every id begins with its short name; where nobody shares it and it is free, it is the short name. */
  lemma {:induction false} NamedReadable(names: seq<Name>, from: nat, upto: nat, suffix: string -> string, reserved: set<string>, i: nat)
    requires from <= i < upto <= |names|
    ensures var id := Named(names, from, upto, suffix, reserved).ids[i - from];
            && id.Text? && BeginsWith(id.text, names[i].short)
            && (Solo(names, i) && names[i].short !in Named(names, from, i, suffix, reserved).used ==>
                  id.text == names[i].short)
    decreases upto
  {
    if i < upto - 1 {
      NamedReadable(names, from, upto - 1, suffix, reserved, i);
    } else {
      var base := Suffixed(names[i], suffix);
      assert base[..|names[i].short|] == names[i].short;
      RenamedBegins(base, Named(names, from, i, suffix, reserved).used, names[i].short);
    }
  }

  /** The name is free, and no smaller number behind the base is. */
  ghost predicate FirstFreeBehind(base: string, text: string, used: set<string>) {
    text !in used && exists k: nat :: NumberedFirst(base, k, text, used)
  }

  predicate NumberedFirst(base: string, k: nat, text: string, used: set<string>) {
    text == base + Decimal(k) && forall j: nat | j < k :: base + Decimal(j) in used
  }

  /**
   * What a name becomes, against the names used before it: its short name if nobody shares that and it
   * is free; else the short name with the hash of the full one; else that with the first free number.
   */
  lemma {:induction false} NamedExact(names: seq<Name>, from: nat, upto: nat, suffix: string -> string, reserved: set<string>, i: nat)
    requires from <= i < upto <= |names|
    ensures var text := Named(names, from, upto, suffix, reserved).ids[i - from].Printed();
            var used := reserved + PrintedSet(Named(names, from, i, suffix, reserved).ids);
            var base := names[i].short + "-" + suffix(names[i].full);
            if Solo(names, i) && names[i].short !in used then text == names[i].short
            else if base !in used then text == base
            else FirstFreeBehind(base + "-", text, used)
    decreases upto
  {
    if i < upto - 1 {
      NamedExact(names, from, upto - 1, suffix, reserved, i);
    } else {
      NamedExtends(names, from, i, suffix, reserved);
      var used := Named(names, from, i, suffix, reserved).used;
      var base := names[i].short + "-" + suffix(names[i].full);
      if base in used { RenamedExact(base, used); }
    }
  }

  lemma RenamedExact(base: string, used: set<string>)
    requires base in used
    ensures FirstFreeBehind(base + "-", Renamed(base, used), used)
  {
    var k := FirstFree(base + "-", 0, used);
    forall j: nat | j < k ensures base + "-" + Decimal(j) in used { FirstFreeIsFirst(base + "-", 0, used, j); }
    assert NumberedFirst(base + "-", k, Renamed(base, used), used);
  }

  /** The unnamed get ascending numbers, none of which passes over a free one. */
  lemma {:induction false} NumbersExact(count: nat, reserved: set<string>, i: nat)
    requires i < count
    ensures var ids := Numbers(count, reserved).ids;
            && ids[i].Number? && Decimal(ids[i].n) !in reserved
            && (i > 0 ==> ids[i - 1].Number? && ids[i - 1].n < ids[i].n)
            && forall j: nat | (if i == 0 then 0 else ids[i - 1].n + 1) <= j < ids[i].n ::
                 Decimal(j) in reserved + PrintedSet(Numbers(i, reserved).ids)
    decreases count
  {
    if i < count - 1 {
      NumbersExact(count - 1, reserved, i);
    } else {
      NumbersExtends(i, reserved);
      var before := Numbers(i, reserved);
      var n := FreeNumber(before.next, before.used);
      NextNumber(i, reserved);
      forall j: nat | before.next <= j < n ensures Decimal(j) in before.used {
        FirstFreeIsFirst("", before.next, before.used, j);
        assert Numbered("", j) == Decimal(j);
      }
      assert Number(n).Printed() == Decimal(n);
    }
  }

  lemma NextNumber(count: nat, reserved: set<string>)
    ensures var n := Numbers(count, reserved);
            n.next == if count == 0 then 0 else if n.ids[count - 1].Number? then n.ids[count - 1].n + 1 else n.next
    ensures count > 0 ==> Numbers(count, reserved).ids[count - 1].Number?
  {
  }

  predicate DistinctShorts(names: seq<Name>) {
    forall i: nat, j: nat | i < j < |names| :: names[i].short != names[j].short
  }

  /** Short names that nobody shares and that are not reserved are all kept as they are. */
  lemma {:induction false} DistinctShortsKept(names: seq<Name>, upto: nat, suffix: string -> string, reserved: set<string>)
    requires upto <= |names| && DistinctShorts(names)
    requires forall i: nat | i < upto :: names[i].short !in reserved
    ensures var named := Named(names, 0, upto, suffix, reserved);
            && (forall i: nat | i < upto :: named.ids[i] == Text(names[i].short))
            && named.used == reserved + set i: nat | i < upto :: names[i].short
    decreases upto
  {
    if upto > 0 {
      DistinctShortsKept(names, upto - 1, suffix, reserved);
    }
  }

  // ---- the sorting order ----

  function Codes(s: string): seq<nat> {
    seq(|s|, i requires 0 <= i < |s| => s[i] as nat)
  }

  predicate Less(a: string, b: string) {
    SequenceLess(Codes(a), Codes(b))
  }

  lemma LessTotal(a: string, b: string)
    ensures Less(a, b) || Less(b, a) || a == b
    ensures !(Less(a, b) && Less(b, a)) && (a == b ==> !Less(a, b))
  {
    SequenceLessTotal(Codes(a), Codes(b));
    if Codes(a) == Codes(b) {
      assert |Codes(a)| == |a| && |Codes(b)| == |b|;
      forall i | 0 <= i < |a| ensures a[i] == b[i] { assert Codes(a)[i] == Codes(b)[i]; }
      assert a == b;
    }
  }

  lemma LessTransitive(a: string, b: string, c: string)
    requires Less(a, b) && Less(b, c)
    ensures Less(a, c)
  {
    SequenceLessTransitive(Codes(a), Codes(b), Codes(c));
  }

  predicate NameLess(a: Name, b: Name) {
    Less(a.short, b.short) || (a.short == b.short && Less(a.full, b.full))
  }

  lemma NameLessTotal(a: Name, b: Name)
    ensures NameLess(a, b) || NameLess(b, a) || a == b
    ensures !(NameLess(a, b) && NameLess(b, a)) && (a == b ==> !NameLess(a, b))
  {
    LessTotal(a.short, b.short);
    LessTotal(a.full, b.full);
  }

  lemma NameLessTransitive(a: Name, b: Name, c: Name)
    requires NameLess(a, b) && NameLess(b, c)
    ensures NameLess(a, c)
  {
    if Less(a.short, b.short) && Less(b.short, c.short) { LessTransitive(a.short, b.short, c.short); }
    if Less(a.full, b.full) && Less(b.full, c.full) { LessTransitive(a.full, b.full, c.full); }
  }

  /** By short name, then full name, then item. */
  predicate Before(c: Candidate, d: Candidate) {
    NameLess(c.name, d.name) || (c.name == d.name && c.item < d.item)
  }

  lemma BeforeTransitive(a: Candidate, b: Candidate, c: Candidate)
    requires Before(a, b) && Before(b, c)
    ensures Before(a, c)
  {
    if NameLess(a.name, b.name) && NameLess(b.name, c.name) { NameLessTransitive(a.name, b.name, c.name); }
  }

  predicate InOrder(sorted: seq<Candidate>) {
    forall i: nat, j: nat | i < j < |sorted| :: Before(sorted[i], sorted[j])
  }

  function InsertSorted(sorted: seq<Candidate>, c: Candidate): seq<Candidate> {
    if sorted == [] || Before(c, sorted[0]) then [c] + sorted else [sorted[0]] + InsertSorted(sorted[1..], c)
  }

  function Sorted(candidates: seq<Candidate>): seq<Candidate> {
    if candidates == [] then []
    else InsertSorted(Sorted(candidates[..|candidates| - 1]), candidates[|candidates| - 1])
  }

  predicate DistinctItems(candidates: seq<Candidate>) {
    forall i: nat, j: nat | i < j < |candidates| :: candidates[i].item != candidates[j].item
  }

  lemma {:induction false} InsertSortedMembers(sorted: seq<Candidate>, c: Candidate)
    ensures |InsertSorted(sorted, c)| == |sorted| + 1
    ensures forall d :: d in InsertSorted(sorted, c) <==> d in sorted || d == c
  {
    if sorted != [] && !Before(c, sorted[0]) {
      InsertSortedMembers(sorted[1..], c);
      assert forall d :: d in sorted <==> d == sorted[0] || d in sorted[1..];
    }
  }

  lemma {:induction false} InsertSortedInOrder(sorted: seq<Candidate>, c: Candidate)
    requires InOrder(sorted) && forall d | d in sorted :: d.item != c.item
    ensures InOrder(InsertSorted(sorted, c))
  {
    var after := InsertSorted(sorted, c);
    if sorted != [] && Before(c, sorted[0]) {
      forall j: nat | j < |sorted| ensures Before(c, sorted[j]) {
        if j > 0 { BeforeTransitive(c, sorted[0], sorted[j]); }
      }
    } else if sorted != [] {
      var rest := sorted[1..];
      InsertSortedInOrder(rest, c);
      InsertSortedMembers(rest, c);
      NameLessTotal(c.name, sorted[0].name);
      forall j: nat | 0 < j < |after| ensures Before(sorted[0], after[j]) {
        assert after[j] == InsertSorted(rest, c)[j - 1] && after[j] in InsertSorted(rest, c);
        if after[j] != c {
          var k: nat :| k < |rest| && rest[k] == after[j];
          assert after[j] == sorted[k + 1];
        }
      }
      forall i: nat, j: nat | 0 < i < j < |after| ensures Before(after[i], after[j]) {
        assert after[i] == InsertSorted(rest, c)[i - 1] && after[j] == InsertSorted(rest, c)[j - 1];
      }
    }
  }

  lemma {:induction false} SortedSorts(candidates: seq<Candidate>)
    requires DistinctItems(candidates)
    ensures InOrder(Sorted(candidates)) && |Sorted(candidates)| == |candidates|
    ensures forall c :: c in Sorted(candidates) <==> c in candidates
    decreases |candidates|
  {
    if candidates != [] {
      var before := candidates[..|candidates| - 1];
      var c := candidates[|candidates| - 1];
      SortedSorts(before);
      forall d | d in Sorted(before) ensures d.item != c.item {
        var k: nat :| k < |before| && before[k] == d;
      }
      InsertSortedInOrder(Sorted(before), c);
      InsertSortedMembers(Sorted(before), c);
      assert forall d :: d in candidates <==> d in before || d == c;
    }
  }

  // ---- assignment ----

  function NamesOf(candidates: seq<Candidate>): seq<Name> {
    seq(|candidates|, i requires 0 <= i < |candidates| => candidates[i].name)
  }

  function SpecIds(candidates: seq<Candidate>, suffix: string -> string, reserved: set<string>): (ids: seq<RenderId>)
    ensures |ids| == |NamesOf(Sorted(candidates))|
  {
    IdsFor(NamesOf(Sorted(candidates)), suffix, reserved)
  }

  /** Each candidate's item has the id of its position in sorted order, and no other item has one. */
  ghost predicate Assigns(candidates: seq<Candidate>, suffix: string -> string, reserved: set<string>,
                          table: map<nat, RenderId>)
  {
    && |Sorted(candidates)| == |SpecIds(candidates, suffix, reserved)|
    && (forall item :: item in table <==> exists c :: c in candidates && c.item == item)
    && (forall i: nat | i < |Sorted(candidates)| ::
          var item := Sorted(candidates)[i].item;
          item in table && table[item] == SpecIds(candidates, suffix, reserved)[i])
  }

  /** The first free name, tried one number after the other. */
  method Rename(base: string, used: set<string>) returns (name: string)
    ensures name == Renamed(base, used)
  {
    name := base;
    var index := 0;
    while name in used
      invariant index == 0 ==> name == base
      invariant index > 0 ==> base in used && name == Numbered(base + "-", index - 1)
      invariant index > 0 ==> FirstFree(base + "-", 0, used) == FirstFree(base + "-", index - 1, used)
      decreases index == 0, Untried(base + "-", if index == 0 then 0 else index - 1, used)
    {
      if index > 0 { FewerUntried(base + "-", index - 1, used); }
      name := base + "-" + Decimal(index);
      index := index + 1;
    }
  }

  predicate SameShort(names: seq<Name>, start: nat, end: nat)
    requires start < end <= |names|
  {
    forall p: nat | start <= p < end :: names[p].short == names[start].short
  }

  /** `n` is where naming stands after the position `upto`. */
  ghost predicate NamedUpTo(n: Naming, names: seq<Name>, from: nat, upto: nat, suffix: string -> string, reserved: set<string>) {
    from <= upto <= |names| && n == Named(names, from, upto, suffix, reserved)
  }

  lemma RenamedInGroup(names: seq<Name>, start: nat, end: nat, p: nat, suffix: string -> string, used: set<string>)
    requires start <= p < end <= |names|
    requires SameShort(names, start, end)
    requires end - start == 1 ==> names[start].short in used
    ensures NameOf(names, p, suffix, used) == Renamed(Suffixed(names[p], suffix), used)
  {
    assert end - start > 1 ==> !Solo(names, p);
  }

  method RenameOne(names: seq<Name>, from: nat, start: nat, end: nat, p: nat, suffix: string -> string,
                   reserved: set<string>, before: Naming)
    returns (after: Naming)
    requires from <= start <= p < end <= |names| && NamedUpTo(before, names, from, p, suffix, reserved)
    requires SameShort(names, start, end)
    requires end - start == 1 ==> names[start].short in before.used
    ensures NamedUpTo(after, names, from, p + 1, suffix, reserved)
  {
    RenamedInGroup(names, start, end, p, suffix, before.used);
    var name := Rename(Suffixed(names[p], suffix), before.used);
    after := Naming(before.ids + [Text(name)], 0, before.used + {name});
  }

  /** The group is named, each candidate from what the ones before left unused. */
  method RenameGroup(names: seq<Name>, from: nat, start: nat, end: nat, suffix: string -> string, reserved: set<string>,
                     before: Naming)
    returns (after: Naming)
    requires from <= start < end <= |names| && NamedUpTo(before, names, from, start, suffix, reserved)
    requires SameShort(names, start, end)
    requires end - start == 1 ==> names[start].short in before.used
    ensures NamedUpTo(after, names, from, end, suffix, reserved)
  {
    after := before;
    var p := start;
    while p < end
      invariant start <= p <= end && NamedUpTo(after, names, from, p, suffix, reserved)
    {
      after := RenameOne(names, from, start, end, p, suffix, reserved, after);
      p := p + 1;
    }
  }

  /** A short name that is alone in its group and free is kept. */
  method NameGroup(names: seq<Name>, from: nat, start: nat, end: nat, suffix: string -> string, reserved: set<string>,
                   before: Naming)
    returns (after: Naming)
    requires from <= start < end <= |names| && NamedUpTo(before, names, from, start, suffix, reserved)
    requires SameShort(names, start, end)
    requires start > 0 ==> names[start - 1].short != names[start].short
    requires end < |names| ==> names[end].short != names[start].short
    ensures NamedUpTo(after, names, from, end, suffix, reserved)
  {
    var short := names[start].short;
    if end - start == 1 && short !in before.used {
      after := Naming(before.ids + [Text(short)], 0, before.used + {short});
    } else {
      after := RenameGroup(names, from, start, end, suffix, reserved, before);
    }
  }

  method NameAll(names: seq<Name>, from: nat, suffix: string -> string, reserved: set<string>)
    returns (named: Naming)
    requires from <= |names| && (0 < from < |names| ==> names[from - 1].short != names[from].short)
    ensures named == Named(names, from, |names|, suffix, reserved)
  {
    named := Naming([], 0, reserved);
    var start := from;
    while start < |names|
      invariant from <= start <= |names| && named == Named(names, from, start, suffix, reserved)
      invariant 0 < start < |names| ==> names[start - 1].short != names[start].short
    {
      var end := GroupEnd(names, start);
      named := NameGroup(names, from, start, end, suffix, reserved, named);
      start := end;
    }
  }

  method GroupEnd(names: seq<Name>, start: nat) returns (end: nat)
    requires start < |names|
    ensures start < end <= |names|
    ensures SameShort(names, start, end)
    ensures end < |names| ==> names[end].short != names[start].short
  {
    end := start + 1;
    while end < |names| && names[end].short == names[start].short
      invariant start < end <= |names|
      invariant forall p: nat | start <= p < end :: names[p].short == names[start].short
    {
      end := end + 1;
    }
  }

  method NextFree(start: nat, used: set<string>) returns (next: nat)
    ensures next == FreeNumber(start, used)
  {
    next := start;
    while Numbered("", next) in used
      invariant FirstFree("", start, used) == FirstFree("", next, used)
      decreases Untried("", next, used)
    {
      FewerUntried("", next, used);
      next := next + 1;
    }
  }

  method NumberUnnamed(count: nat, reserved: set<string>) returns (numbers: Naming)
    ensures numbers == Numbers(count, reserved)
  {
    numbers := Naming([], 0, reserved);
    var i := 0;
    while i < count
      invariant i <= count && numbers == Numbers(i, reserved)
    {
      var n := NextFree(numbers.next, numbers.used);
      numbers := Naming(numbers.ids + [Number(n)], n + 1, numbers.used + {Number(n).Printed()});
      i := i + 1;
    }
  }

  method AssignNamedIdsWithReserved(candidates: seq<Candidate>, suffix: string -> string, reserved: set<string>)
    returns (table: map<nat, RenderId>, used: set<string>)
    requires DistinctItems(candidates)
    ensures Assigns(candidates, suffix, reserved, table)
    ensures used == PrintedSet(SpecIds(candidates, suffix, reserved))
  {
    var sorted := Sorted(candidates);
    var names := NamesOf(sorted);
    var unnamed := Unnamed(names);
    var named := NameAll(names, unnamed, suffix, reserved);
    var numbers := NumberUnnamed(unnamed, named.used);
    var ids := numbers.ids + named.ids;
    SortedSorts(candidates);
    assert ids == SpecIds(candidates, suffix, reserved);
    table := Zip(candidates, ids);
    used := PrintedSet(ids);
  }

  method Zip(candidates: seq<Candidate>, ids: seq<RenderId>) returns (table: map<nat, RenderId>)
    requires DistinctItems(candidates) && |ids| == |candidates|
    ensures |Sorted(candidates)| == |ids|
    ensures forall item :: item in table <==> exists c :: c in candidates && c.item == item
    ensures forall i: nat | i < |ids| ::
              Sorted(candidates)[i].item in table && table[Sorted(candidates)[i].item] == ids[i]
  {
    var sorted := Sorted(candidates);
    SortedSorts(candidates);
    SortedItemsDistinct(candidates);
    table := map[];
    var i := 0;
    while i < |sorted|
      invariant i <= |sorted|
      invariant forall item :: item in table <==> exists k: nat :: k < i && sorted[k].item == item
      invariant forall k: nat | k < i :: sorted[k].item in table && table[sorted[k].item] == ids[k]
    {
      table := table[sorted[i].item := ids[i]];
      i := i + 1;
    }
    forall item ensures item in table <==> exists c :: c in candidates && c.item == item {
      if item in table {
        var k: nat :| k < |sorted| && sorted[k].item == item;
        assert sorted[k] in candidates;
      }
      if c :| c in candidates && c.item == item {
        var k: nat :| k < |sorted| && sorted[k] == c;
      }
    }
  }

  lemma {:induction false} InsertSortedItems(sorted: seq<Candidate>, c: Candidate)
    requires DistinctItems(sorted) && forall d | d in sorted :: d.item != c.item
    ensures DistinctItems(InsertSorted(sorted, c))
  {
    if sorted != [] && !Before(c, sorted[0]) {
      var rest := sorted[1..];
      InsertSortedItems(rest, c);
      InsertSortedMembers(rest, c);
      var after := InsertSorted(rest, c);
      forall j: nat | j < |after| ensures after[j].item != sorted[0].item {
        assert after[j] in after;
        if after[j] != c {
          var k: nat :| k < |rest| && rest[k] == after[j];
          assert sorted[k + 1] == after[j];
        }
      }
    }
  }

  lemma {:induction false} SortedItemsDistinct(candidates: seq<Candidate>)
    requires DistinctItems(candidates)
    ensures DistinctItems(Sorted(candidates))
    decreases |candidates|
  {
    if candidates != [] {
      var before := candidates[..|candidates| - 1];
      SortedItemsDistinct(before);
      SortedSorts(before);
      forall d | d in Sorted(before) ensures d.item != candidates[|candidates| - 1].item {
        var k: nat :| k < |before| && before[k] == d;
      }
      InsertSortedItems(Sorted(before), candidates[|candidates| - 1]);
    }
  }

  // ---- what the ids depend on ----

  predicate NamesInOrder(names: seq<Name>) {
    forall i: nat, j: nat | i < j < |names| :: NameLess(names[i], names[j])
  }

  ghost predicate Mentions(candidates: seq<Candidate>, n: Name) {
    exists c :: c in candidates && c.name == n
  }

  predicate DistinctNames(candidates: seq<Candidate>) {
    forall i: nat, j: nat | i < j < |candidates| :: candidates[i].name != candidates[j].name
  }

  lemma SortedNamesInOrder(candidates: seq<Candidate>)
    requires DistinctItems(candidates) && DistinctNames(candidates)
    ensures NamesInOrder(NamesOf(Sorted(candidates)))
    ensures forall n :: n in NamesOf(Sorted(candidates)) <==> Mentions(candidates, n)
  {
    SortedSorts(candidates);
    SortedItemsDistinct(candidates);
    var sorted := Sorted(candidates);
    forall i: nat, j: nat | i < j < |sorted| ensures NameLess(sorted[i].name, sorted[j].name) {
      assert Before(sorted[i], sorted[j]) && sorted[i] in candidates && sorted[j] in candidates;
      var p: nat :| p < |candidates| && candidates[p] == sorted[i];
      var q: nat :| q < |candidates| && candidates[q] == sorted[j];
      assert p != q;
    }
    forall n ensures n in NamesOf(sorted) <==> Mentions(candidates, n) {
      if c :| c in candidates && c.name == n {
        var k: nat :| k < |sorted| && sorted[k] == c;
        assert NamesOf(sorted)[k] == n;
      }
      if n in NamesOf(sorted) {
        var k: nat :| k < |sorted| && NamesOf(sorted)[k] == n;
        assert sorted[k] in candidates;
      }
    }
  }

  lemma SomeMember(names: seq<Name>)
    ensures names == [] || exists n :: n in names
  {
    if names != [] { assert names[0] in names; }
  }

  /** A set of names has one sorted listing. */
  lemma {:induction false} OneOrder(a: seq<Name>, b: seq<Name>)
    requires NamesInOrder(a) && NamesInOrder(b) && forall n :: n in a <==> n in b
    ensures a == b
    decreases |a|
  {
    if a == [] {
      SomeMember(b);
    } else {
      assert a[0] in b && b != [] && b[0] in a;
      var i: nat :| i < |b| && b[i] == a[0];
      var j: nat :| j < |a| && a[j] == b[0];
      NameLessTotal(a[0], b[0]);
      forall n ensures n in a[1..] <==> n in b[1..] {
        TailMember(a, n);
        TailMember(b, n);
      }
      OneOrder(a[1..], b[1..]);
      assert a == [a[0]] + a[1..] && b == [b[0]] + b[1..];
    }
  }

  lemma TailMember(names: seq<Name>, n: Name)
    requires NamesInOrder(names) && names != []
    ensures n in names[1..] <==> n in names && n != names[0]
  {
    NameLessTotal(names[0], names[0]);
    assert names == [names[0]] + names[1..];
    if n in names[1..] {
      var k: nat :| k < |names[1..]| && names[1..][k] == n;
      assert names[k + 1] == n && NameLess(names[0], names[k + 1]);
    }
  }

  /** With distinct names an id depends only on the set of names: not on handles, nor on the input order. */
  lemma IdsDependOnNames(a: seq<Candidate>, b: seq<Candidate>, suffix: string -> string, reserved: set<string>,
                         first: map<nat, RenderId>, second: map<nat, RenderId>, c: Candidate, d: Candidate)
    requires DistinctItems(a) && DistinctNames(a) && DistinctItems(b) && DistinctNames(b)
    requires forall n :: Mentions(a, n) <==> Mentions(b, n)
    requires Assigns(a, suffix, reserved, first) && Assigns(b, suffix, reserved, second)
    requires c in a && d in b && c.name == d.name
    ensures c.item in first && d.item in second && first[c.item] == second[d.item]
  {
    SortedNamesInOrder(a);
    SortedNamesInOrder(b);
    OneOrder(NamesOf(Sorted(a)), NamesOf(Sorted(b)));
    var i := IdOfCandidate(a, suffix, reserved, first, c);
    var j := IdOfCandidate(b, suffix, reserved, second, d);
    SamePlace(NamesOf(Sorted(a)), i, j);
  }

  lemma IdOfCandidate(candidates: seq<Candidate>, suffix: string -> string, reserved: set<string>,
                      table: map<nat, RenderId>, c: Candidate) returns (i: nat)
    requires DistinctItems(candidates) && Assigns(candidates, suffix, reserved, table) && c in candidates
    ensures i < |Sorted(candidates)| && Sorted(candidates)[i] == c && NamesOf(Sorted(candidates))[i] == c.name
    ensures c.item in table && table[c.item] == SpecIds(candidates, suffix, reserved)[i]
  {
    SortedSorts(candidates);
    i :| i < |Sorted(candidates)| && Sorted(candidates)[i] == c;
  }

  lemma SamePlace(names: seq<Name>, i: nat, j: nat)
    requires NamesInOrder(names) && i < |names| && j < |names| && names[i] == names[j]
    ensures i == j
  {
    NameLessTotal(names[i], names[j]);
  }

  /** Every candidate has one id, and no two have ids that print alike, or print as a reserved name. */
  lemma AssignedDistinct(candidates: seq<Candidate>, suffix: string -> string, reserved: set<string>,
                         table: map<nat, RenderId>, x: nat, y: nat)
    requires DistinctItems(candidates) && Assigns(candidates, suffix, reserved, table)
    requires x in table && y in table
    ensures table[x].Printed() !in reserved && (x != y ==> table[x].Printed() != table[y].Printed())
    ensures table[x].Printed() in PrintedSet(SpecIds(candidates, suffix, reserved))
  {
    var c :| c in candidates && c.item == x;
    var d :| d in candidates && d.item == y;
    var i := IdOfCandidate(candidates, suffix, reserved, table, c);
    var j := IdOfCandidate(candidates, suffix, reserved, table, d);
    IdsDistinct(NamesOf(Sorted(candidates)), suffix, reserved);
    var ids := SpecIds(candidates, suffix, reserved);
    assert ids[i] in ids;
    assert x != y ==> i != j;
  }

  // ---- chunks: names of entries are assigned first and reserved ----

  method AssignChunkRenderIds(entries: seq<Candidate>, async: seq<Candidate>, suffix: string -> string)
    returns (table: map<nat, RenderId>)
    requires DistinctItems(entries + async)
    ensures forall item :: item in table <==> exists c :: c in entries + async && c.item == item
    ensures forall x, y | x in table && y in table && x != y :: table[x].Printed() != table[y].Printed()
  {
    assert DistinctItems(entries) by {
      forall i: nat, j: nat | i < j < |entries| ensures entries[i].item != entries[j].item {
        assert (entries + async)[i] == entries[i] && (entries + async)[j] == entries[j];
      }
    }
    assert DistinctItems(async) by {
      forall i: nat, j: nat | i < j < |async| ensures async[i].item != async[j].item {
        assert (entries + async)[|entries| + i] == async[i] && (entries + async)[|entries| + j] == async[j];
      }
    }
    var first, reserved := AssignNamedIdsWithReserved(entries, suffix, {});
    var second, _ := AssignNamedIdsWithReserved(async, suffix, reserved);
    table := first + second;
    ChunksDistinct(entries, async, suffix, first, second);
  }

  lemma ChunksDistinct(entries: seq<Candidate>, async: seq<Candidate>, suffix: string -> string,
                       first: map<nat, RenderId>, second: map<nat, RenderId>)
    requires DistinctItems(entries) && DistinctItems(async) && Assigns(entries, suffix, {}, first)
    requires Assigns(async, suffix, PrintedSet(SpecIds(entries, suffix, {})), second)
    ensures var table := first + second;
            && (forall item :: item in table <==> exists c :: c in entries + async && c.item == item)
            && forall x, y | x in table && y in table && x != y :: table[x].Printed() != table[y].Printed()
  {
    var table := first + second;
    forall item ensures item in table <==> exists c :: c in entries + async && c.item == item {
      assert forall c :: c in entries + async <==> c in entries || c in async;
    }
    var reserved := PrintedSet(SpecIds(entries, suffix, {}));
    forall x, y | x in table && y in table && x != y ensures table[x].Printed() != table[y].Printed() {
      if x in second { AssignedDistinct(async, suffix, reserved, second, x, if y in second then y else x); }
      else { AssignedDistinct(entries, suffix, {}, first, x, if y in second then x else y); }
      if y in second { AssignedDistinct(async, suffix, reserved, second, y, y); }
      else { AssignedDistinct(entries, suffix, {}, first, y, y); }
    }
  }
}
