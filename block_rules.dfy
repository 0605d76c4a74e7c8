/**
 * Client fixed chain specification rules: the registry a block importer
 * consults to learn whether a block is known bad, known never to be
 * finalized, or on the wrong side of a fork the chain spec pins down.
 *
 * Block heights and block hashes are type parameters; the registry only
 * ever compares them for equality.
 */
module ChainSpecRules {
  import opened Wrappers

  /** The verdict of a rules lookup. */
  datatype LookupResult<Hash> =
    | NotSpecial              // no rule says anything about this block
    | KnownBad                // the block must not be imported
    | KnownUnfinalized        // the block may exist but must never be finalized
    | Expected(expected: Hash) // another hash is the canonical one at this height
  {
    /** Whether the verdict forbids finalizing the block. */
    function IsUnfinalized(): (b: bool)
      ensures b <==> this.KnownUnfinalized?
    {
      match this
      case KnownUnfinalized => true
      case _ => false
    }
  }

  /** No pair after position `i` has the same height as the pair at `i`. */
  ghost predicate IsLastAt<Number, Hash>(pairs: seq<(Number, Hash)>, i: int)
    requires 0 <= i < |pairs|
  {
    forall j :: i < j < |pairs| ==> pairs[j].0 != pairs[i].0
  }

  /** No height occurs twice in `pairs`. */
  ghost predicate DistinctHeights<Number, Hash>(pairs: seq<(Number, Hash)>) {
    forall i, j :: 0 <= i < j < |pairs| ==> pairs[i].0 != pairs[j].0
  }

  /** The heights that occur in `pairs`. */
  ghost function Heights<Number, Hash>(pairs: seq<(Number, Hash)>): set<Number> {
    set i | 0 <= i < |pairs| :: pairs[i].0
  }

  /**
   * The fork map collected from the chain spec's (height, hash) pairs, in
   * order: each pair is inserted in turn, so where a height repeats the last
   * pair with that height wins (see CollectForksLastWins).
   */
  function CollectForks<Number(==), Hash>(pairs: seq<(Number, Hash)>): (m: map<Number, Hash>)
    ensures m.Keys == Heights(pairs)
  {
    if pairs == [] then map[]
    else
      var init, last := pairs[..|pairs| - 1], pairs[|pairs| - 1];
      assert Heights(pairs) == Heights(init) + {last.0} by {
        assert forall i | 0 <= i < |init| :: init[i] == pairs[i];
      }
      CollectForks(init)[last.0 := last.1]
  }

  /** The chain-specific block filtering rules: known bad blocks, blocks
      that must stay unfinalized, and the canonical hash at pinned heights.
      Heights and hashes are plain values; only `unfinalized` changes after
      construction. */
  class BlockRules<Number(==,!new), Hash(==,!new)> {
    const bad: set<Hash>
    var unfinalized: set<Hash>
    const forks: map<Number, Hash>

    /** Rules from the chain spec; a missing list or set means an empty one. */
    constructor (forkBlocks: Option<seq<(Number, Hash)>>, badBlocks: Option<set<Hash>>)
      ensures badBlocks.None? ==> bad == {}
      ensures badBlocks.Some? ==> bad == badBlocks.value
      ensures forkBlocks.None? ==> forks == map[]
      ensures forkBlocks.Some? ==> forks == CollectForks(forkBlocks.value)
      ensures unfinalized == {}
    {
      bad := badBlocks.GetOr({});
      forks := CollectForks(forkBlocks.GetOr([]));
      unfinalized := {};
    }

    /** The fork rule does not object to `hash` at height `number`. */
    ghost predicate ForkAllows(number: Number, hash: Hash)
      reads this
    {
      number !in forks || forks[number] == hash
    }

    /** Marks a block as one that must never be finalized. */
    method MarkUnfinalized(hash: Hash)
      modifies this
      ensures unfinalized == old(unfinalized) + {hash}
      ensures hash in old(unfinalized) ==> unfinalized == old(unfinalized)
      ensures hash !in bad ==> LookupHash(hash) == KnownUnfinalized
      ensures forall h :: (LookupHash(h) == old(LookupHash(h)) ||
        (h == hash && old(LookupHash(h)) == NotSpecial && LookupHash(h) == KnownUnfinalized))
      ensures forall n, h :: (Lookup(n, h) == old(Lookup(n, h)) ||
        (h == hash && old(Lookup(n, h)) == NotSpecial && Lookup(n, h) == KnownUnfinalized))
    {
      unfinalized := unfinalized + {hash};
    }

    /** The rule that applies to the block `hash` at height `number`. */
    function Lookup(number: Number, hash: Hash): (r: LookupResult<Hash>)
      reads this
      ensures !ForkAllows(number, hash) ==> r == Expected(forks[number])
      ensures ForkAllows(number, hash) ==> r == LookupHash(hash)
      ensures r.Expected? <==> !ForkAllows(number, hash)
    {
      if number in forks && forks[number] != hash then
        Expected(forks[number])
      else if hash in bad then
        KnownBad
      else if hash in unfinalized then
        KnownUnfinalized
      else
        NotSpecial
    }

    /** The rule that applies to the block `hash`, height unknown. */
    function LookupHash(hash: Hash): (r: LookupResult<Hash>)
      reads this
      ensures !r.Expected?
      ensures r == KnownBad <==> hash in bad
      ensures r == KnownUnfinalized <==> hash !in bad && hash in unfinalized
      ensures r == NotSpecial <==> hash !in bad && hash !in unfinalized
    {
      if hash in bad then
        KnownBad
      else if hash in unfinalized then
        KnownUnfinalized
      else
        NotSpecial
    }
  }

  /** The pair at position `i` is the last one with its height, so its
      hash is what the fork map holds for that height. */
  lemma {:induction false} CollectForksLastWins<Number, Hash>(pairs: seq<(Number, Hash)>, i: int)
    requires 0 <= i < |pairs| && IsLastAt(pairs, i)
    ensures pairs[i].0 in CollectForks(pairs)
    ensures CollectForks(pairs)[pairs[i].0] == pairs[i].1
  {
    var init := pairs[..|pairs| - 1];
    if i < |pairs| - 1 {
      assert init[i] == pairs[i];
      assert IsLastAt(init, i);
      CollectForksLastWins(init, i);
    }
  }

  /** Every height in the fork map got its hash from the last pair with that
      height; `i` is the position of that pair. */
  lemma {:induction false} CollectForksFromLast<Number, Hash>(pairs: seq<(Number, Hash)>, n: Number)
    returns (i: int)
    requires n in CollectForks(pairs)
    ensures 0 <= i < |pairs| && IsLastAt(pairs, i)
    ensures pairs[i] == (n, CollectForks(pairs)[n])
  {
    var init, last := pairs[..|pairs| - 1], pairs[|pairs| - 1];
    if last.0 == n {
      i := |pairs| - 1;
    } else {
      i := CollectForksFromLast(init, n);
      assert init[i] == pairs[i];
    }
  }

  /** Updating a union is updating its right-hand side. */
  lemma UnionThenUpdate<K, V>(left: map<K, V>, right: map<K, V>, k: K, v: V)
    ensures (left + right)[k := v] == left + right[k := v]
  {
  }

  /** Collecting one more pair overrides its height with its hash. */
  lemma CollectForksSnoc<Number, Hash>(pairs: seq<(Number, Hash)>, pair: (Number, Hash))
    ensures CollectForks(pairs + [pair]) == CollectForks(pairs)[pair.0 := pair.1]
  {
    assert (pairs + [pair])[..|pairs|] == pairs;
  }

  /** Collecting a concatenation of pair lists is the union of the two fork
      maps, the later list overriding the earlier one on shared heights. */
  lemma {:induction false} CollectForksAppend<Number, Hash>(
    front: seq<(Number, Hash)>, back: seq<(Number, Hash)>)
    ensures CollectForks(front + back) == CollectForks(front) + CollectForks(back)
  {
    if back == [] {
      assert front + back == front;
    } else {
      var init, last := back[..|back| - 1], back[|back| - 1];
      assert back == init + [last];
      assert front + back == (front + init) + [last];
      CollectForksAppend(front, init);
      CollectForksSnoc(front + init, last);
      CollectForksSnoc(init, last);
      UnionThenUpdate(CollectForks(front), CollectForks(init), last.0, last.1);
    }
  }

  /** With no repeated height, the fork map holds exactly the given pairs,
      whatever their order. */
  lemma CollectForksDistinct<Number, Hash>(pairs: seq<(Number, Hash)>)
    requires DistinctHeights(pairs)
    ensures forall n, h :: n in CollectForks(pairs) && CollectForks(pairs)[n] == h <==> (n, h) in pairs
  {
    var m := CollectForks(pairs);
    forall n, h ensures n in m && m[n] == h <==> (n, h) in pairs {
      if (n, h) in pairs {
        var i :| 0 <= i < |pairs| && pairs[i] == (n, h);
        CollectForksLastWins(pairs, i);
      }
      if n in m {
        var i := CollectForksFromLast(pairs, n);
      }
    }
  }

  /** Marking `hash` unfinalized (the state change MarkUnfinalized makes)
      changes no verdict except that `hash`, when no other rule applies to
      it, goes from NotSpecial to KnownUnfinalized. */
  lemma MarkUnfinalizedEffect<Number(!new), Hash(!new)>(
    before: BlockRules<Number, Hash>, after: BlockRules<Number, Hash>, hash: Hash)
    requires after.bad == before.bad && after.forks == before.forks
    requires after.unfinalized == before.unfinalized + {hash}
    ensures forall h :: (after.LookupHash(h) == before.LookupHash(h) ||
      (h == hash && before.LookupHash(h) == NotSpecial && after.LookupHash(h) == KnownUnfinalized))
    ensures forall n, h :: (after.Lookup(n, h) == before.Lookup(n, h) ||
      (h == hash && before.Lookup(n, h) == NotSpecial && after.Lookup(n, h) == KnownUnfinalized))
  {
  }

  /** The four verdicts of `Lookup`, each with exactly the condition that
      yields it: a fork mismatch first, then badness, then unfinality. */
  lemma LookupDecisionTable<Number(!new), Hash(!new)>(rules: BlockRules<Number, Hash>, number: Number, hash: Hash)
    ensures forall h :: rules.Lookup(number, hash) == Expected(h) <==>
      number in rules.forks && rules.forks[number] == h && h != hash
    ensures rules.Lookup(number, hash) == KnownBad <==>
      rules.ForkAllows(number, hash) && hash in rules.bad
    ensures rules.Lookup(number, hash) == KnownUnfinalized <==>
      rules.ForkAllows(number, hash) && hash !in rules.bad && hash in rules.unfinalized
    ensures rules.Lookup(number, hash) == NotSpecial <==>
      rules.ForkAllows(number, hash) && hash !in rules.bad && hash !in rules.unfinalized
  {
  }
}
