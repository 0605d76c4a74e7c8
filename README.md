# Block rules registry

A Dafny model of the client's fixed chain-specification rules
(`client/service/src/client/block_rules.rs`): the registry the block importer
asks, for a block given by height and hash, whether the chain spec says
anything about it.

The registry holds three collections:

- `bad`: the hashes of blocks that must not be imported.
- `unfinalized`: the hashes of blocks that must never be finalized. This is the only collection that changes after construction.
- `forks`: the canonical hash at each pinned height.

A lookup returns one of four verdicts (`LookupResult`): `NotSpecial`, `KnownBad`,
`KnownUnfinalized` or `Expected(h)`.

Files:

- `wrappers.dfy`: module `Wrappers`. The optional inputs and `GetOr`, which plays the part of Rust's `unwrap_or`.
- `block_rules.dfy`: module `ChainSpecRules`. The verdict datatype and `CollectForks`, the fold of the fork pairs into a map. Also the class `BlockRules` with its constructor, `MarkUnfinalized`, `Lookup` and `LookupHash`, and the lemmas about them.
- `scenarios.dfy`: module `ChainSpecRulesScenarios`. Client methods that build small registries and prove the verdicts they get back.

Block heights and hashes are type parameters that are plain values compared only for equality (`Number(==,!new)`, `Hash(==,!new)`).
`bad` and `forks` are `const` fields, fixed at construction; `unfinalized` is the one mutable field.
`HashSet` and `HashMap` become Dafny's `set` and `map`.
A repeated height in the fork list is resolved the way `collect` into a `HashMap` resolves it: pairs are inserted in order, so the last pair wins.

## Model

| member | source | states |
|---|---|---|
| `ChainSpecRules.LookupResult.IsUnfinalized` | client/service/src/client/block_rules.rs:41-48 | true exactly for the `KnownUnfinalized` verdict, false for the other three |
| `Wrappers.Option.GetOr` | client/service/src/client/block_rules.rs:68-69 | a present input gives its value; a missing one gives the default (the empty set or list) |
| `ChainSpecRules.CollectForks` | client/service/src/client/block_rules.rs:69 | the fork map has a key for exactly the heights that occur in the pair list |
| `ChainSpecRules.CollectForksLastWins` | client/service/src/client/block_rules.rs:69 | if a pair is the last one with its height, the map gives that pair's hash for that height |
| `ChainSpecRules.CollectForksFromLast` | client/service/src/client/block_rules.rs:69 | every entry of the fork map comes from the last pair with that height |
| `ChainSpecRules.CollectForksAppend` | client/service/src/client/block_rules.rs:69 | folding a concatenation gives the union of the two maps; on shared heights the later list overrides the earlier |
| `ChainSpecRules.CollectForksDistinct` | client/service/src/client/block_rules.rs:69 | with no repeated height, the map holds exactly the given pairs, whatever their order |
| `ChainSpecRules.BlockRules.constructor` | client/service/src/client/block_rules.rs:62-72 | a missing bad set gives an empty `bad`, otherwise the given set. A missing fork list gives an empty `forks`, otherwise the folded pairs. `unfinalized` starts empty |
| `ChainSpecRules.BlockRules.MarkUnfinalized` | client/service/src/client/block_rules.rs:74-77 | `unfinalized` becomes the old set plus the hash (`bad` and `forks` are constant). Marking an already-marked hash changes nothing. Afterwards `LookupHash` of the hash is `KnownUnfinalized` unless the hash is bad. No verdict of either lookup changes, except that the marked hash can go from `NotSpecial` to `KnownUnfinalized` |
| `ChainSpecRules.MarkUnfinalizedEffect` | client/service/src/client/block_rules.rs:75-109 | for two registries that differ only by one hash added to `unfinalized`, no verdict differs except that hash's, from `NotSpecial` to `KnownUnfinalized` |
| `ChainSpecRules.BlockRules.Lookup` | client/service/src/client/block_rules.rs:79-96 | a fork entry at the height with a different hash yields `Expected` of the entry's hash, whether or not the hash is bad or unfinalized. Otherwise (no entry, or the entry is this hash) the verdict equals `LookupHash`'s. The result is `Expected` only on a fork mismatch |
| `ChainSpecRules.BlockRules.LookupHash` | client/service/src/client/block_rules.rs:98-109 | never `Expected`. `KnownBad` iff the hash is bad. `KnownUnfinalized` iff it is unfinalized and not bad. `NotSpecial` iff it is in neither set |
| `ChainSpecRules.LookupDecisionTable` | client/service/src/client/block_rules.rs:80-95 | each of `Lookup`'s four verdicts, with the exact condition that yields it: fork mismatch first, then bad, then unfinalized |
| `ChainSpecRulesScenarios.EmptyRegistry` | client/service/src/client/block_rules.rs:63-72 | with both inputs missing, both lookups return `NotSpecial` for any block |
| `ChainSpecRulesScenarios.BadBlock` | client/service/src/client/block_rules.rs:87-89 | a bad hash is `KnownBad` by height and by hash; another hash at the same height is `NotSpecial` |
| `ChainSpecRulesScenarios.ForkMismatch` | client/service/src/client/block_rules.rs:81-89 | a bad hash at a pinned height gets `Expected(canonical)`. The canonical hash gets `NotSpecial`. The bad hash at another height gets `KnownBad` |
| `ChainSpecRulesScenarios.DuplicateHeight` | client/service/src/client/block_rules.rs:69 | of two fork pairs for one height, the later one decides the lookups |
| `ChainSpecRulesScenarios.RuntimeMarking` | client/service/src/client/block_rules.rs:75-106 | a hash marked (twice) at runtime goes from `NotSpecial` to `KnownUnfinalized` in both lookups, and `IsUnfinalized` holds of the verdict |
| `ChainSpecRulesScenarios.BadBeatsUnfinalized` | client/service/src/client/block_rules.rs:100-106 | a bad hash that is also marked unfinalized is still `KnownBad` |

## Left out

- Locking and sharing of the registry: any `RwLock` is held by callers outside this file, so calls are modelled as sequential.
- Hash-table internals (hash functions, buckets) and `Clone` of hashes: sets and maps are mathematical and use equality only.
- The `Block`/`NumberFor` trait machinery and the `ForkBlocks`/`BadBlocks` aliases. These become type parameters plus `Option<seq<(Number, Hash)>>` and `Option<set<Hash>>`.
- The ordering of heights: the source only uses heights as map keys, so the model does not need it.
- Chain-spec parsing that produces the inputs, and the block import that acts on the verdicts (rejection, peer reputation, finality). They are not part of this model.
