/** Word-indexed module masks, and the proof that word-wise equality, AND and OR-a-bit
    are set equality, intersection and insertion on the set of module handles. */
module ModuleMasks {
  import opened Words64

  /** The module handles a word sequence stands for. */
  ghost function Elements(words: seq<Word>): set<nat> {
    set handle: nat | handle < |words| * 64 && Bit(words[handle / 64], handle % 64)
  }

  lemma ElementAt(words: seq<Word>, word: nat, index: nat)
    requires word < |words| && index < 64
    ensures word * 64 + index in Elements(words) <==> Bit(words[word], index)
  {
    var handle := word * 64 + index;
    assert handle / 64 == word && handle % 64 == index;
  }

  /** Word equality is set equality: the test behind "did this mask change". */
  lemma ElementsInjective(a: seq<Word>, b: seq<Word>)
    requires |a| == |b|
    ensures a == b <==> Elements(a) == Elements(b)
  {
    if Elements(a) == Elements(b) {
      forall word: nat | word < |a|
        ensures a[word] == b[word]
      {
        forall index: nat | index < 64
          ensures Bit(a[word], index) == Bit(b[word], index)
        {
          ElementAt(a, word, index);
          ElementAt(b, word, index);
        }
        WordExtensional(a[word], b[word]);
      }
    }
  }

  lemma InsertElements(words: seq<Word>, handle: nat)
    requires handle / 64 < |words|
    ensures var w := handle / 64;
            Elements(words[w := Or(words[w], OneShifted(handle % 64))]) == Elements(words) + {handle}
  {
    var w := handle / 64;
    var updated := words[w := Or(words[w], OneShifted(handle % 64))];
    forall other: nat | other < |words| * 64
      ensures other in Elements(updated) <==> other in Elements(words) || other == handle
    {
      OrOneBit(words[w], handle % 64, other % 64);
      if other / 64 == w && other % 64 == handle % 64 {
        assert other == handle;
      }
    }
    assert handle < |words| * 64;
  }

  lemma IntersectElements(a: seq<Word>, b: seq<Word>, meet: seq<Word>)
    requires |a| == |b| == |meet|
    requires forall i | 0 <= i < |a| :: meet[i] == And(a[i], b[i])
    ensures Elements(meet) == Elements(a) * Elements(b)
  {
    forall handle: nat | handle < |a| * 64
      ensures handle in Elements(meet) <==> handle in Elements(a) && handle in Elements(b)
    {
      var w := handle / 64;
      assert meet[w] == And(a[w], b[w]);
      AndBit(a[w], b[w], handle % 64);
    }
  }

  lemma ZeroElements(words: seq<Word>)
    requires forall i | 0 <= i < |words| :: words[i] == 0
    ensures Elements(words) == {}
  {
    forall handle: nat | handle < |words| * 64
      ensures handle !in Elements(words)
    {
      assert words[handle / 64] == 0;
      ZeroBit(handle % 64);
    }
  }

  /** Membership, also beyond the last word. */
  function Has(words: seq<Word>, handle: nat): (present: bool)
    ensures present <==> handle in Elements(words)
  {
    handle / 64 < |words| &&
    (TestOneBit(words[handle / 64], handle % 64);
     And(words[handle / 64], OneShifted(handle % 64)) != 0)
  }

  function WordCount(modules: nat): (count: nat)
    ensures modules <= count * 64
  {
    (modules + 64 - 1) / 64
  }

  class ModuleMask {
    const words: array<Word>

    ghost function Contents(): set<nat>
      reads words
    {
      Elements(words[..])
    }

    constructor (moduleCount: nat)
      ensures fresh(words) && words.Length == WordCount(moduleCount)
      ensures Contents() == {}
    {
      words := new Word[WordCount(moduleCount)](_ => 0);
      new;
      ZeroElements(words[..]);
    }

    /** A mask of its own with the same words. */
    constructor Of(source: seq<Word>)
      ensures fresh(words) && words[..] == source
    {
      words := new Word[|source|](i requires 0 <= i < |source| => source[i]);
    }

    /** Sets one bit; the result says whether the module was new. */
    method Insert(handle: nat) returns (changed: bool)
      requires handle / 64 < words.Length
      modifies words
      ensures Contents() == old(Contents()) + {handle}
      ensures changed <==> handle !in old(Contents())
    {
      var word := handle / 64;
      var bit := OneShifted(handle % 64);
      changed := And(words[word], bit) == 0;
      TestOneBit(words[word], handle % 64);
      InsertElements(words[..], handle);
      ghost var before := words[..];
      words[word] := Or(words[word], bit);
      assert words[..] == before[word := Or(before[word], bit)];
      assert handle < |before| * 64;
    }

    method Contains(handle: nat) returns (present: bool)
      ensures present <==> handle in Contents()
    {
      present := Has(words[..], handle);
    }

    method IntersectWith(other: ModuleMask)
      requires other.words.Length == words.Length && other.words != words
      modifies words
      ensures Contents() == old(Contents()) * other.Contents()
    {
      ghost var before := words[..];
      for i := 0 to words.Length
        invariant forall k | 0 <= k < i :: words[k] == And(before[k], other.words[k])
        invariant forall k | i <= k < words.Length :: words[k] == before[k]
        invariant other.words[..] == old(other.words[..])
      {
        words[i] := And(words[i], other.words[i]);
      }
      IntersectElements(before, other.words[..], words[..]);
    }

    /** Derived equality compares words; on masks of one graph it is set equality. */
    method Equals(other: ModuleMask) returns (same: bool)
      requires other.words.Length == words.Length
      ensures same <==> Contents() == other.Contents()
    {
      same := words[..] == other.words[..];
      ElementsInjective(words[..], other.words[..]);
    }
  }

  method FromModules(moduleCount: nat, modules: seq<nat>) returns (mask: ModuleMask)
    requires forall i | 0 <= i < |modules| :: modules[i] < moduleCount
    ensures fresh(mask) && fresh(mask.words)
    ensures mask.words.Length == WordCount(moduleCount)
    ensures mask.Contents() == set handle | handle in modules
  {
    mask := new ModuleMask(moduleCount);
    for i := 0 to |modules|
      invariant mask.Contents() == set handle | handle in modules[..i]
    {
      var _ := mask.Insert(modules[i]);
      assert modules[..i + 1] == modules[..i] + [modules[i]];
    }
    assert modules[..|modules|] == modules;
  }
}
