/**
 * Clients of the block rules: small registries built the way the chain-spec
 * loader builds them, queried the way the block importer queries them, with
 * heights and hashes written as small integers.
 */
module ChainSpecRulesScenarios {
  import opened Wrappers
  import opened ChainSpecRules

  /** With neither list given, no rule applies to any block. */
  method EmptyRegistry<Number(==,!new), Hash(==,!new)>(number: Number, hash: Hash)
    returns (byHeight: LookupResult<Hash>, byHash: LookupResult<Hash>)
    ensures byHeight == NotSpecial && byHash == NotSpecial
  {
    var rules := new BlockRules<Number, Hash>(None, None);
    byHeight := rules.Lookup(number, hash);
    byHash := rules.LookupHash(hash);
  }

  /** A bad hash is rejected at any height; other hashes are not. */
  method BadBlock() returns (bad: LookupResult<int>, other: LookupResult<int>, badByHash: LookupResult<int>)
    ensures bad == KnownBad && other == NotSpecial && badByHash == KnownBad
  {
    var rules := new BlockRules<int, int>(None, Some({1}));
    bad := rules.Lookup(7, 1);
    other := rules.Lookup(7, 2);
    badByHash := rules.LookupHash(1);
  }

  /** A pinned height names its canonical hash to any other hash, even a
      bad one, and only at that height. */
  method ForkMismatch()
    returns (mismatch: LookupResult<int>, canonical: LookupResult<int>, otherHeight: LookupResult<int>)
    ensures mismatch == Expected(10) && canonical == NotSpecial && otherHeight == KnownBad
  {
    var rules := new BlockRules<int, int>(Some([(5, 10)]), Some({11}));
    mismatch := rules.Lookup(5, 11);
    canonical := rules.Lookup(5, 10);
    otherHeight := rules.Lookup(6, 11);
  }

  /** Of two pairs for the same height, the later one is the rule. */
  method DuplicateHeight() returns (first: LookupResult<int>, second: LookupResult<int>)
    ensures first == Expected(20) && second == NotSpecial
  {
    CollectForksLastWins([(5, 10), (5, 20)], 1);
    var rules := new BlockRules<int, int>(Some([(5, 10), (5, 20)]), None);
    first := rules.Lookup(5, 10);
    second := rules.Lookup(5, 20);
  }

  /** Marking a hash at runtime shows in every later lookup of it; marking
      it again changes nothing. */
  method RuntimeMarking()
    returns (before: LookupResult<int>, after: LookupResult<int>, byHash: LookupResult<int>, flagged: bool)
    ensures before == NotSpecial && after == KnownUnfinalized && byHash == KnownUnfinalized && flagged
  {
    var rules := new BlockRules<int, int>(None, None);
    before := rules.Lookup(3, 1);
    rules.MarkUnfinalized(1);
    rules.MarkUnfinalized(1);
    after := rules.Lookup(3, 1);
    byHash := rules.LookupHash(1);
    flagged := after.IsUnfinalized();
  }

  /** A bad hash stays bad after it is also marked unfinalized. */
  method BadBeatsUnfinalized() returns (byHash: LookupResult<int>, flagged: bool)
    ensures byHash == KnownBad && !flagged
  {
    var rules := new BlockRules<int, int>(None, Some({1}));
    rules.MarkUnfinalized(1);
    byHash := rules.LookupHash(1);
    flagged := byHash.IsUnfinalized();
  }
}
