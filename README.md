# ocean: the beach and its clans, in Dafny

This project models the two collections of the `ocean` crate.

- **`Beach`** is an append-only list of crabs. It owns one clan system. It offers indexed access, a scan for the fastest crab, filtering by name, and breeding. Breeding builds a child from two indexed parents and may append it. It also runs a competition between two clans, decided by the members' average speed.
- **`ClanSystem`** maps a clan id to the ordered list of its member names. Lookups treat an unknown id as an empty clan. It also has a clan count, a largest-clan query and an append-or-create insert.

Files:

- `wrappers.dfy` holds `Option` and `Result`.
- `crabs.dfy` holds the `Crab` record. `Color` and `Diet` are abstract types there.
- `clans.dfy` holds the class `ClanSystem`. Its invariant `Valid()` says that no stored member list is empty. `Beach.Valid()` is that invariant on the owned clan system. Every beach operation keeps it, and on a valid beach the competition never compares a mean with count 0.
- `beach_spec.dfy` holds the specification functions over the crab sequence and the lemmas about them. These are the fastest-crab index, the filter by name, the speed totals, exact means, and the competition outcome.
- `beach.dfy` holds the class `Beach`. Its loops are proved against the functions in `beach_spec.dfy`.
- `scenarios.dfy` holds concrete beaches and clans on which those functions are evaluated.

Collaborators outside the core are passed in:

- Colour crossing is the function parameter `cross` of `Breed` and `BreedCrabs`.
- The randomly drawn diet is their `diet` parameter.

A panic in the source becomes a `requires`. These are a bad index in `get_crab` and `breed`, and the explicit check in `breed_crabs`.

`average_speed` returns an `f64` in the source. Here it returns `Mean(total, count)`, and two means are compared exactly by cross-multiplication (`Below`). A mean with count 0 stands for the quotient 0.0 / 0.0 (NaN), so every comparison with it is false. This is why `GetWinnerClan` needs no precondition.

`average_speed` adds up the speeds of every crab that carries a member's name, not only the first crab found with that name. The model follows the code. `TotalSpeedIsWeighted` states it: each crab counts once for every time its name is listed.

## Model

| member | source | states |
|---|---|---|
| `Clans.ClanSystem.constructor` | ocean/src/clans.rs:10-12 | a new clan system has no clans and satisfies the non-empty-lists invariant |
| `Clans.ClanSystem.Valid` | ocean/src/clans.rs:58-66 | the class invariant: every stored member list is non-empty, since the only insertion path creates or extends a list |
| `Clans.ClanSystem.GetClanMemberNames` | ocean/src/clans.rs:17-23 | the stored list for a known id, the empty list for an unknown one; under the invariant the result is empty exactly when the id is unknown |
| `Clans.ClanSystem.GetClanCount` | ocean/src/clans.rs:28-30 | the number of distinct clan ids, zero exactly when there are no clans |
| `Clans.ClanSystem.GetClanMemberCount` | ocean/src/clans.rs:35-41 | the length of the member-name list, 0 for an unknown id; under the invariant 0 exactly for an unknown id |
| `Clans.ClanSystem.GetLargestClanId` | ocean/src/clans.rs:46-56 | None exactly when every list is empty (under the invariant: when there are no clans); otherwise some clan whose list is at least as long as every other, whichever the unordered scan meets first |
| `Clans.ClanSystem.AddMemberToClan` | ocean/src/clans.rs:58-66 | appends the name to an existing clan or creates the clan with a one-element list; other clans are unchanged; the clan count grows by one exactly for a new id; the invariant is preserved |
| `Scenarios.LargestOfTwoClans` | ocean/src/clans.rs:46-56 | with a = [x] and b = [x, y], b is the one and only largest clan |
| `Scenarios.LargestOfTwoClansScan` | ocean/src/clans.rs:46-66 | building a = [x] and b = [x, y] with the insert and then scanning returns b |
| `Beaches.Beach.constructor` | ocean/src/beach.rs:15-17 | an empty beach with a fresh, empty clan system |
| `Beaches.Beach.Size` | ocean/src/beach.rs:22-24 | the number of crabs, zero exactly on an empty beach |
| `Beaches.Beach.AddCrab` | ocean/src/beach.rs:33-35 | the size grows by one, the new crab is last and the earlier crabs are unchanged; the beach invariant is kept |
| `Beaches.Beach.GetCrab` | ocean/src/beach.rs:37-39 | the crab at an in-range index; an out-of-range index is excluded because it panics |
| `Beaches.Beach.Crabs` | ocean/src/beach.rs:41-43 | all crabs, one per index and in index order |
| `Beaches.Beach.GetFastestCrab` | ocean/src/beach.rs:50-60 | None exactly when every crab has speed 0; otherwise the first crab that reaches the maximum speed |
| `BeachSpec.FastestIndex` | ocean/src/beach.rs:50-60 | the scan lands, if anywhere, on an in-range crab of non-zero speed |
| `BeachSpec.FastestCrab` | ocean/src/beach.rs:50-60 | the crab the scan returns, if any, is one of the beach's crabs |
| `BeachSpec.FastestIndexSound` | ocean/src/beach.rs:50-60 | the scan finds nothing exactly when all speeds are 0, and otherwise finds the first fastest crab |
| `BeachSpec.FirstFastestUnique` | ocean/src/beach.rs:50-60 | at most one index is the first crab with the maximum speed |
| `BeachSpec.FastestIndexIff` | ocean/src/beach.rs:50-60 | the scan picks index k exactly when k is the first crab with the maximum non-zero speed |
| `Scenarios.FastestIsFirstOfTie` | ocean/src/beach.rs:50-60 | with Alice 5, Bob 9 and Cara 9, the fastest crab is Bob, not Cara |
| `Beaches.Beach.FindCrabsByName` | ocean/src/beach.rs:65-73 | the crabs with exactly that name, in insertion order; empty exactly when no crab has the name |
| `BeachSpec.WithName` | ocean/src/beach.rs:65-73 | the reference filter, in insertion order: never longer than the beach |
| `BeachSpec.WithNameAppend` | ocean/src/beach.rs:65-73 | filtering by name distributes over concatenation, so insertion order is kept |
| `BeachSpec.WithNameMembers` | ocean/src/beach.rs:65-73 | a crab is in the result exactly when it is on the beach and has the name |
| `BeachSpec.WithNameEmptyIff` | ocean/src/beach.rs:65-73 | the result is empty exactly when no crab has the name |
| `Beaches.Beach.Breed` | ocean/src/beach.rs:75-80 | a child of speed 1 with the given name and diet, whose colour crosses the parents' colours; both indices must be in range; the beach is not changed |
| `Beaches.Beach.BreedCrabs` | ocean/src/beach.rs:87-92 | both indices must be in range, since otherwise it panics; the bred child is appended, the size grows by one and the earlier crabs are unchanged; the beach invariant is kept |
| `Beaches.Beach.GetClanSystem` | ocean/src/beach.rs:97-99 | the clan system the beach owns |
| `Beaches.Beach.AddMemberToClan` | ocean/src/beach.rs:105-107 | forwards to the clan system with the same effect; the crabs are unchanged; the invariant is preserved |
| `Beaches.Beach.AverageSpeed` | ocean/src/beach.rs:134-142 | the total is the speed of every crab, weighted by how often its name is listed; the count is the number of names |
| `BeachSpec.TotalSpeed` | ocean/src/beach.rs:135-140 | the nested sum over names and their namesakes; zero for no names |
| `BeachSpec.MeanSpeed` | ocean/src/beach.rs:141 | the quotient total / number of names, kept as an exact pair whose count is the number of names |
| `BeachSpec.TotalSpeedIsWeighted` | ocean/src/beach.rs:134-142 | summing per name counts each crab once for every listing of its name |
| `BeachSpec.WeightedSnoc` | ocean/src/beach.rs:134-142 | adding one name to the list adds that name's contribution to the weighted total |
| `BeachSpec.SumWithNameIsWeighted` | ocean/src/beach.rs:136-140 | one name contributes the sum of the speeds of all crabs that carry it |
| `BeachSpec.Below` | ocean/src/beach.rs:121-123 | the `<` between two quotients, by cross-multiplication; it can only hold when both counts are positive, as every comparison with 0.0 / 0.0 (NaN) is false |
| `BeachSpec.BelowIsStrictOrder` | ocean/src/beach.rs:121-126 | the comparison is irreflexive, asymmetric and transitive, so at most one of the two branches can fire |
| `BeachSpec.BelowIsAverageLess` | ocean/src/beach.rs:141 | comparing by cross-multiplication orders two non-empty means exactly as the quotients total / count |
| `Beaches.Beach.GetWinnerClan` | ocean/src/beach.rs:113-131 | Err exactly when either id is not a clan; otherwise the clan with the strictly higher mean, or no winner; on a valid beach the winner is the clan with the higher real-valued average |
| `BeachSpec.Competition` | ocean/src/beach.rs:113-131 | Err with "invalid id!" exactly when an id is missing; a winner is always one of the two ids |
| `BeachSpec.CompetitionByAverage` | ocean/src/beach.rs:113-131 | for two existing clans with members: id1 wins when its real-valued average is higher, id2 when it is lower, no winner when they are equal |
| `Beaches.ValidCompetitionByAverage` | ocean/src/beach.rs:113-141 | on a valid beach every clan has members, so two existing clans are ranked by their real-valued averages and no count is zero |
| `BeachSpec.CompetitionSymmetric` | ocean/src/beach.rs:113-131 | swapping the two ids gives the same outcome |
| `BeachSpec.CompetitionWithSelf` | ocean/src/beach.rs:113-131 | an existing clan against itself gives no winner |
| `Scenarios.BlueBeatsRed` | ocean/src/beach.rs:113-131 | red = [Alice, Bob] (mean 7) loses to blue = [Cara] (mean 9); an unknown id gives Err, not a draw |
| `Scenarios.RedAndBlueBeach` | ocean/src/beach.rs:33-131 | a beach built with the add and clan operations gives Bob as fastest, red as largest clan, blue as winner, and Err for an unknown id |

## Left out

- `Crab`, `Color` and `Diet` internals: crab.rs, color.rs and diet.rs are not part of this model. `Color` and `Diet` are abstract types, and `Color::cross` is the parameter `cross`.
- `Diet::random_diet()` draws from ambient randomness. `Breed` and `BreedCrabs` take the drawn diet as a parameter.
- Beaches.Beach.AverageSpeed: does not model `f64` rounding. The sum is converted to `f64` and divided there; the model keeps the exact fraction and compares by cross-multiplication.
- Speed width: the speed type belongs to crab.rs. Speeds and their sums are unbounded `nat`s here, so an overflow of the Rust sum is not modelled.
- Clans.ClanSystem.GetLargestClanId: `HashMap` iteration order is not modelled. The scan draws the keys in an arbitrary order, so any largest clan may be returned on a tie.
- `crabs()` returns a `std::slice::Iter` in the source. `Crabs` returns the sequence itself.
- References: queries return `&Crab` in the source and crab values here. Crabs are immutable once built, so nothing observable is lost.
- A panic in `get_crab`, `breed` or `breed_crabs` is a `requires`, so the panic path itself is not modelled.
- The comment "A crab can only belong to one clan" (ocean/src/beach.rs:103) is not enforced by the code, and the model does not enforce it either.
- `#[derive(Debug)]` and the unused imports have no behaviour.
