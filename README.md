# DezAqui core in Dafny

DezAqui runs number-picking contests. A participant buys a ticket (a
*participação*) by choosing numbers. The organisers publish draws
(*sorteios*). Each ticket accumulates the numbers that were drawn on or
after the moment it was created, and its score is how many of its numbers
were hit. The collected money is split among three prize categories plus
an administrative fee.

This project models the computational core of the front end and proves
properties of it:

- **The ranking engine** (`calculateRanking`) and its hit-counting helpers:
  - draws are sorted by date;
  - an optional "as of" draw cuts the history, and its date is the
    anti-fraud cutoff;
  - tickets created after the cutoff are counted as invalid;
  - the hits of each remaining ticket are accumulated;
  - tickets are categorised: TOP is every number hit; SECOND is the best
    positive score below TOP; LOWEST is the lowest score of the rest;
  - category pools are allocated, and entries are ordered and summarised.
- **The alternative prize split** (`calculateRateio`):
  - the percentages are validated;
  - the fee is taken off the revenue;
  - the remaining pool is divided among the highest (*maior*), second
    (*segunda*) and lowest (*menor*) positive scores.
- **Contest eligibility and the phase** shown for a contest.
- **Discounts**: the discounted price, the checks made before a discount is
  created or updated, and the use-limit filter of the active-discount
  listing.
- **The number grid**: the range offered, toggling a number,
  clearing the selection, and when a number is disabled.
- **Official lottery references**: how drawn numbers and draw dates are
  displayed.
- **Ticket and draw codes**: the generators and their validators.

## How the code is modelled

- **Pure code** is written as functions: hit counting, the ranking stages,
  the tiers of the split, the discounts, the formatting and the
  validators. Lemmas relate those functions to what the code promises.
- **Loops become methods**, each proved equal to a reference function:
  - `getAllHitNumbers` fills a `Set` draw by draw;
  - `createRankingMap` fills a `Map`;
  - `calculateRateio` pushes records tier by tier;
  - the code generators build their random part character by character.
- **Outside inputs are parameters**:
  - the current instant (`new Date()`) is a parameter `now`;
  - dates are instants written as integers;
  - each `Math.random()` draw is given as the index it produces into the
    36-character alphabet;
  - the clock's date is given as year, zero-based month and day;
  - whether a user is signed in is a boolean;
  - the date parser used for display is a function parameter.
- **Numbers**: money and percentages are reals; scores and counts are
  integers.
- **Sorting**: JavaScript's `sort` is stable, and every comparator in
  the core compares one or two integers. It is modelled as a stable
  insertion sort by a key of two integers (module `Sorting`).

Some choices the code makes, which the contracts below follow:

- LOWEST admits tickets with score 0. The filter for the remaining
  tickets keeps `score >= 0` (frontend/src/utils/rankingCalculator.ts:176-182),
  while SECOND requires `score > 0` (lines 163-165).
- The file's header comment describes SECOND as the tickets that hit N-1
  numbers (line 7). The code cascades instead: SECOND is the best score
  among the non-TOP tickets with a positive score, whatever that score is
  (lines 163-174).
- The ranking engine applies the category percentages to the whole amount
  it is given (lines 192-198) and does not check their sum.
  `calculateRateio` rejects percentages whose sum is off 100 by more than
  0.01 (frontend/src/utils/rateioCalculator.ts:56-60). It applies them to
  what is left after the fee. `RateioCalculator.RateioVsEngine` and
  `RateioCalculator.RateioDefaultShare` state the difference: with the
  default 65/10/7/18 and all three tiers paid, the split pays out 85.24%
  of the revenue, fee included.
- TOP is a ticket all of whose numbers were hit. This is measured against
  the ticket's own length (rankingCalculator.ts:141), not a contest-wide N.

## Model

| member | source | states |
|---|---|---|
| RankingHelpers.CalculateHits | frontend/src/utils/rankingHelpers.ts:17-24 | The hit count is at most the ticket's length. It equals the length exactly when every number was drawn, and it is 0 exactly when none was. |
| RankingHelpers.CalculateHitsAppend | frontend/src/utils/rankingHelpers.ts:17-24 | One more ticket entry adds one to the count exactly when that entry was drawn. Repeated entries count each time. |
| RankingHelpers.GetHitNumbers | frontend/src/utils/rankingHelpers.ts:34-42 | The hit numbers are ascending. They are exactly the ticket's numbers that the draw contains, and there are as many as `calculateHits` counts. Each number occurs as often as in the ticket when the draw contains it, and not at all otherwise. |
| RankingHelpers.FilterValidDraws | frontend/src/utils/rankingHelpers.ts:55-61 | The anti-fraud filter keeps exactly the draws dated at or after the ticket's creation, in their order. |
| RankingHelpers.ValidDated | frontend/src/utils/rankingHelpers.ts:84-86 | With a creation date, only draws that carry a date not before it are kept. Without one, all draws are kept. |
| RankingHelpers.AllHitNumbers | frontend/src/utils/rankingHelpers.ts:76-95 | A ticket never hits more numbers than it has, nor a number it does not have. |
| RankingHelpers.AllHitNumbersSpec | frontend/src/utils/rankingHelpers.ts:76-95 | With no draws the result is empty. Otherwise it is strictly ascending (sorted, no duplicates) and holds exactly the ticket's numbers hit by some counted draw. |
| RankingHelpers.AllHitNumbersAntiFraud | frontend/src/utils/rankingHelpers.ts:83-86 | A number is credited only through a draw dated at or after the ticket's creation. |
| RankingHelpers.AllHitNumbersOrderIndependent | frontend/src/utils/rankingHelpers.ts:88-94 | The result depends only on which draws are given, not on their order or repetition. |
| RankingHelpers.AllHitNumbersMonotone | frontend/src/utils/rankingHelpers.ts:88-94 | A further draw never takes a credited number away, so the score never decreases. |
| RankingHelpers.AddAll | frontend/src/utils/rankingHelpers.ts:91 | Adding hits to the `Set` keeps it free of duplicates and holds exactly the old members and the hits. |
| RankingHelpers.GetAllHitNumbers | frontend/src/utils/rankingHelpers.ts:76-95 | The loop over the draws, filling the `Set` and then sorting its contents, returns the reference result. |
| RankingHelpers.SortedDistinct | frontend/src/utils/rankingHelpers.ts:94 | Sorting the duplicate-free contents of the `Set` gives a strictly ascending sequence with the same elements. |
| RankingCalculator.SortDraws | frontend/src/utils/rankingCalculator.ts:94-96 | The sorted draws are a permutation of the draws, in ascending date order. |
| RankingProperties.SortDrawsMembers | frontend/src/utils/rankingCalculator.ts:94-96 | Sorting keeps the number of draws and exactly the same draws. |
| RankingCalculator.FindDrawIndex | frontend/src/utils/rankingCalculator.ts:100 | The result is -1 exactly when no draw has the id. Otherwise it is the first position with that id. |
| RankingProperties.CutoffLatest | frontend/src/utils/rankingCalculator.ts:114-126 | Without a selected draw, there is a cutoff exactly when there are draws, and it is the latest draw date. |
| RankingProperties.CutoffSelected | frontend/src/utils/rankingCalculator.ts:114-126 | With a selected draw, there is a cutoff exactly when some draw has that id, and it is the earliest such draw's date. |
| RankingProperties.DrawsToUsePrefix | frontend/src/utils/rankingCalculator.ts:99-104 | Over date-ordered draws, the draws in use are a prefix. With a cutoff, they end at the draw that sets it, none is later than it, and the selected id occurs only at the end. Otherwise they are all the draws. |
| RankingProperties.DrawsToUseSpec | frontend/src/utils/rankingCalculator.ts:94-126 | The same for the engine's sorted draws. The draws in use are among the given draws. |
| RankingProperties.ValidSplit | frontend/src/utils/rankingCalculator.ts:129-130 | A ticket is ranked exactly when it was not created strictly after the cutoff. It is counted as invalid exactly when it was. |
| RankingProperties.ValidPartition | frontend/src/utils/rankingCalculator.ts:129-130 | Ranked and invalid tickets together are the tickets, as a multiset. Without a cutoff every ticket is ranked. |
| RankingProperties.NoDrawsNoCutoff | frontend/src/utils/rankingCalculator.ts:114-130 | With no draws there is no cutoff and no ticket is excluded. |
| RankingProperties.BasesCoherent | frontend/src/utils/rankingCalculator.ts:133-156 | Each base entry's score and hit count are the number of its hits. It is TOP exactly when every number of the ticket was hit. |
| RankingProperties.BasesFacts | frontend/src/utils/rankingCalculator.ts:133-156 | Every base entry comes from a ranked ticket, and every ranked ticket has one. |
| RankingProperties.BasesDistinct | frontend/src/utils/rankingCalculator.ts:133-156 | Ticket ids that are distinct stay distinct among the base entries. |
| RankingProperties.TicketHitBy | frontend/src/utils/rankingCalculator.ts:107-110 | The draws counted for a ticket hit a number exactly when a draw in use hit it on or after the ticket's creation. |
| RankingProperties.TicketHitsSpec | frontend/src/utils/rankingCalculator.ts:133-156 | A ticket's hits are strictly ascending and no more than its numbers. They are exactly its numbers that a draw in use hit on or after its creation. A ticket without repeated numbers hits all of them exactly when each was drawn. |
| RankingCalculator.IdsOfFilter | frontend/src/utils/rankingCalculator.ts:159-189 | The id set of a filtered list holds exactly the ids of the entries that pass the filter. |
| RankingCalculator.TierWitness | frontend/src/utils/rankingCalculator.ts:164-189 | A score that some entry reaches has a non-empty set of ids reaching it. |
| RankingCalculator.MaxTierSpec | frontend/src/utils/rankingCalculator.ts:164-174 | A highest tier exists exactly for a non-empty list. It is the maximum score, and its ids are exactly those of the entries reaching it. |
| RankingCalculator.MinTierSpec | frontend/src/utils/rankingCalculator.ts:177-189 | A lowest tier exists exactly for a non-empty list. It is the minimum score, and its ids are exactly those of the entries reaching it. |
| RankingCalculator.TopIdsSpec | frontend/src/utils/rankingCalculator.ts:159-161 | The TOP ids are exactly the ids of the entries that hit all their numbers. |
| RankingCalculator.SecondTierSpec | frontend/src/utils/rankingCalculator.ts:164-174 | SECOND has a score exactly when it has ids, and the score is positive. Its ids are entries outside TOP. |
| RankingCalculator.LowestTierSpec | frontend/src/utils/rankingCalculator.ts:177-189 | LOWEST has a score exactly when it has ids. Its ids are entries in neither TOP nor SECOND. |
| RankingCalculator.CategorizeSpec | frontend/src/utils/rankingCalculator.ts:159-189 | The three categories are pairwise disjoint sets of entry ids. Each tier has a score exactly when it has ids, and SECOND's score is positive. |
| RankingProperties.BasesTop | frontend/src/utils/rankingCalculator.ts:159-161 | With unique ids, an entry is in TOP exactly when it hit all its numbers. |
| RankingProperties.NonTopMembers | frontend/src/utils/rankingCalculator.ts:164-166 | The SECOND filter picks exactly the entries outside TOP with a positive score. |
| RankingProperties.BasesSecond | frontend/src/utils/rankingCalculator.ts:164-174 | An entry is in SECOND exactly when it is outside TOP, has a positive score, and no such entry scores higher. |
| RankingProperties.BasesSecondNone | frontend/src/utils/rankingCalculator.ts:164-174 | SECOND is empty exactly when every entry outside TOP scored nothing. |
| RankingProperties.BasesLowest | frontend/src/utils/rankingCalculator.ts:177-189 | An entry is in LOWEST exactly when it is in neither TOP nor SECOND and no such entry scores lower. Score 0 is included. |
| RankingProperties.BasesLowestScore | frontend/src/utils/rankingCalculator.ts:177-189 | Every LOWEST entry has the recorded lowest winning score. |
| RankingProperties.CategorizeTop | frontend/src/utils/rankingCalculator.ts:159-161 | The TOP rule holds for every base entry. |
| RankingProperties.CategorizeSecond | frontend/src/utils/rankingCalculator.ts:164-174 | The SECOND rule holds for every base entry. SECOND is empty exactly when no entry outside TOP scored. |
| RankingProperties.CategorizeLowest | frontend/src/utils/rankingCalculator.ts:177-189 | The LOWEST rule holds for every base entry, and each LOWEST entry's score is the lowest winning score. |
| RankingCalculator.Allocate | frontend/src/utils/rankingCalculator.ts:192-202 | A missing or zero percentage falls back to 65, 10 or 7. A category's pool is its share of the total when it has winners and 0 otherwise. The per-winner prize times the winner count gives back the pool. |
| RankingCalculator.CalculateRanking | frontend/src/utils/rankingCalculator.ts:74-263 | With no tickets the result is empty with an empty summary. Ranked entries plus invalid tickets count every ticket. Positions are 1, 2, 3, ... in list order. |
| RankingProperties.RunStages | frontend/src/utils/rankingCalculator.ts:74-263 | A run with tickets ranks the valid tickets against the draws in use and counts the others as invalid. Distinct ids stay distinct. |
| RankingProperties.EntryFromTicket | frontend/src/utils/rankingCalculator.ts:211-248 | Each entry of the ranking order carries one ranked ticket's data and hits. |
| RankingProperties.TicketsHaveEntries | frontend/src/utils/rankingCalculator.ts:211-248 | Each ranked ticket has an entry. |
| RankingProperties.EntryForHits | frontend/src/utils/rankingCalculator.ts:133-156 | An entry's score equals its hit count and the number of its hits. The hits are strictly ascending and are drawn from its numbers. |
| RankingProperties.RankedTop | frontend/src/utils/rankingCalculator.ts:211-248 | In the ordered entries, an entry is TOP exactly when all its numbers were hit. |
| RankingProperties.RankedSecond | frontend/src/utils/rankingCalculator.ts:211-248 | In the ordered entries, an entry is SECOND exactly when it is not all-hit, its score is positive and highest among those. |
| RankingProperties.RankedLowest | frontend/src/utils/rankingCalculator.ts:211-248 | In the ordered entries, an entry is LOWEST exactly when it is in neither TOP nor SECOND and its score is lowest there. |
| RankingProperties.RankedSecondEmpty | frontend/src/utils/rankingCalculator.ts:164-174 | There is no SECOND exactly when every entry is all-hit or scored 0. |
| RankingProperties.RankedAnyWinner | frontend/src/utils/rankingCalculator.ts:211-259 | Some category is non-empty exactly when some entry is a winner. |
| RankingProperties.RankedLowestScore | frontend/src/utils/rankingCalculator.ts:211-259 | A lowest winning score exists exactly when some entry is LOWEST, and it is every LOWEST entry's score. |
| RankingProperties.DistinctIdsCard | frontend/src/utils/rankingCalculator.ts:159-259 | With distinct ids, the id set has as many ids as there are entries. |
| RankingProperties.IdsFilterCard | frontend/src/utils/rankingCalculator.ts:159-259 | With distinct ids, a set of entry ids picks out as many entries as it has ids. |
| RankingProperties.RankedCounts | frontend/src/utils/rankingCalculator.ts:251-259 | Each category's id set counts as many entries as it has ids. |
| RankingProperties.RankParts | frontend/src/utils/rankingCalculator.ts:133-259 | The ranking is the prized entries of the ordered base entries, with their summary. |
| RankingProperties.RankRanked | frontend/src/utils/rankingCalculator.ts:133-259 | The entries list the base entries in ranking order, categorised by disjoint id sets drawn from them. |
| RankingProperties.RankEntryFromTicket | frontend/src/utils/rankingCalculator.ts:133-248 | Every entry carries a ranked ticket's data and hits. |
| RankingProperties.RankTicketsHaveEntries | frontend/src/utils/rankingCalculator.ts:133-248 | There are as many entries as ranked tickets, and every ranked ticket has an entry. |
| RankingProperties.RankEntryHits | frontend/src/utils/rankingCalculator.ts:133-248 | Each entry's score and hit count are the number of its hits. The hits are exactly its numbers hit on or after its creation. |
| RankingProperties.RankOrdered | frontend/src/utils/rankingCalculator.ts:205-208 | The entries come by score, highest first, and equal scores by creation, earliest first. |
| RankingProperties.EntriesOrdered | frontend/src/utils/rankingCalculator.ts:205-248 | Entries built in key order keep the score-then-creation order. |
| RankingProperties.RankCategoryRules | frontend/src/utils/rankingCalculator.ts:159-248 | The TOP, SECOND and LOWEST rules hold at every entry of the ranking. |
| RankingProperties.RankCounts | frontend/src/utils/rankingCalculator.ts:251-259 | Each winner count in the summary is the number of entries in that category. |
| RankingProperties.RankSecondEmpty | frontend/src/utils/rankingCalculator.ts:251-259 | The SECOND count is 0 exactly when every entry is all-hit or scored 0. |
| RankingProperties.SummaryMax | frontend/src/utils/rankingCalculator.ts:251 | `maxScore` is the highest entry score, and 0 with no entries. |
| RankingProperties.RankMaxScore | frontend/src/utils/rankingCalculator.ts:251 | The summary's `maxScore` is the highest score, and 0 with no entries. |
| RankingProperties.RankAnyWinner | frontend/src/utils/rankingCalculator.ts:257 | `hasAnyWinner` is true exactly when some entry is a winner. |
| RankingProperties.RankLowestScore | frontend/src/utils/rankingCalculator.ts:256 | `lowestWinningScore` exists exactly when some entry is LOWEST, and it is every LOWEST entry's score. |
| RankingProperties.AwardOf | frontend/src/utils/rankingCalculator.ts:211-248 | For disjoint categories, an entry's prize, highlight and medal follow the allocation of its category. |
| RankingProperties.RankAward | frontend/src/utils/rankingCalculator.ts:196-248 | A winner's prize times its category's winner count is that category's pool. A non-winner gets 0. Exactly the winners are highlighted and carry their category's medal. |
| RankingProperties.RankingOrdered | frontend/src/utils/rankingCalculator.ts:205-208 | The result's entries are ordered by score descending, then creation ascending. |
| RankingProperties.RankingCategories | frontend/src/utils/rankingCalculator.ts:159-248 | With unique ticket ids, the category rules hold at every entry of the result. |
| RankingProperties.RankingEntriesAreTickets | frontend/src/utils/rankingCalculator.ts:129-248 | Every entry is a ticket not created after the cutoff, with its data and hits. |
| RankingProperties.RankingTicketsAreEntries | frontend/src/utils/rankingCalculator.ts:129-262 | Every ticket not created after the cutoff has an entry. `invalidParticipationsCount` counts the others. |
| RankingProperties.RankingHits | frontend/src/utils/rankingCalculator.ts:133-156 | Each entry's score is its number of hits. The hits are exactly its numbers that a draw in use hit on or after the ticket's creation. |
| RankingProperties.RankingCounts | frontend/src/utils/rankingCalculator.ts:251-259 | The summary's winner counts are the per-category entry counts. SECOND is 0 exactly when no entry outside TOP scored. |
| RankingProperties.RankingMaxScore | frontend/src/utils/rankingCalculator.ts:251 | The result's `maxScore` is its highest entry score, and 0 with none. |
| RankingProperties.RankingAnyWinner | frontend/src/utils/rankingCalculator.ts:257 | The result's `hasAnyWinner` holds exactly when some entry is a winner. |
| RankingProperties.RankingLowestScore | frontend/src/utils/rankingCalculator.ts:256 | The result's `lowestWinningScore` exists exactly when some entry is LOWEST, and it is their score. |
| RankingProperties.RankingAward | frontend/src/utils/rankingCalculator.ts:196-248 | Each result entry's prize, highlight and medal follow its category and that category's pool. |
| RankingCalculator.CreateRankingMap | frontend/src/utils/rankingCalculator.ts:268-272 | The map's keys are exactly the entries' ids. Each id maps to its last entry in the list, which is one of the entries. |
| Sorting.SortBy | frontend/src/utils/rankingCalculator.ts:205-208 | The sort keeps the length and is a permutation of its input. |
| Sorting.SortBySorted | frontend/src/utils/rankingCalculator.ts:205-208 | The sort's result is ordered by the comparator's key. |
| Sorting.SortByStable | frontend/src/utils/rankingCalculator.ts:205-208 | The sort is stable: elements of one key keep their input order. |
| Sorting.SortAscending | frontend/src/utils/rankingHelpers.ts:41 | The numeric sort `(a, b) => a - b` gives an ascending permutation. |
| Sorting.SortAscendingMembers | frontend/src/utils/rankingHelpers.ts:41 | The numeric sort keeps the length and the elements. |
| RateioCalculator.PontuacoesMembers | frontend/src/utils/rateioCalculator.ts:67-70 | `pontuacoes` is descending and holds exactly the positive scores. It is non-empty exactly when some score is positive. |
| RateioCalculator.FindBelowSpec | frontend/src/utils/rateioCalculator.ts:83 | On a descending list, the first element below m is the largest element below m, and there is none exactly when no element is below m. |
| RateioCalculator.MaiorSpec | frontend/src/utils/rateioCalculator.ts:82 | With a positive score, `maiorPontuacao` is the highest score and is positive. |
| RateioCalculator.MenorSpec | frontend/src/utils/rateioCalculator.ts:84 | With a positive score, `menorPontuacao` is the lowest positive score. |
| RateioCalculator.SegundaSpec | frontend/src/utils/rateioCalculator.ts:83 | `segundaMaiorPontuacao` exists exactly when some positive score is below the highest, and it is then the largest such. |
| RateioCalculator.PaidTiersDecreasing | frontend/src/utils/rateioCalculator.ts:118-176 | The paid tiers' scores strictly decrease, and Menor is paid only if Segunda is. |
| RateioCalculator.MenorNeedsThreeScores | frontend/src/utils/rateioCalculator.ts:148-176 | The lowest tier is paid exactly when three distinct positive scores occur. |
| RateioCalculator.Rateio | frontend/src/utils/rateioCalculator.ts:57-60 | The result is an error exactly when the four percentages miss 100 by more than 0.01. The error carries their sum. |
| RateioCalculator.RateioFee | frontend/src/utils/rateioCalculator.ts:63 | An accepted split reports the revenue and the fee `total * taxa / 100`, whatever the scores. |
| RateioCalculator.RateioPool | frontend/src/utils/rateioCalculator.ts:63-64 | With a positive score, the fee plus the prize pool is the revenue, and `distribuicao` is non-empty. |
| RateioCalculator.RateioNoScores | frontend/src/utils/rateioCalculator.ts:72-80 | With no positive score, the result pays nothing: the pool is 0 and both lists are empty. |
| RateioCalculator.RateioUnpaid | frontend/src/utils/rateioCalculator.ts:72-80 | With valid percentages and no positive score, the result is the empty split with the fee. |
| RateioCalculator.RateioPaid | frontend/src/utils/rateioCalculator.ts:63-184 | With valid percentages and a positive score, the result is the tiers' records and the score-sorted winners, over the pool after the fee. |
| RateioCalculator.PushWinners | frontend/src/utils/rateioCalculator.ts:106-114 | Pushing a tier's winners appends one record per participation, in order, at the given share. |
| RateioCalculator.PayTier | frontend/src/utils/rateioCalculator.ts:90-116 | A tier's block appends exactly that tier's record and winners when it has winners, and nothing otherwise. |
| RateioCalculator.PaySegunda | frontend/src/utils/rateioCalculator.ts:118-146 | The Segunda block runs only when the second score exists below the highest. |
| RateioCalculator.PayMenor | frontend/src/utils/rateioCalculator.ts:148-176 | The Menor block runs only when the lowest score is below the second score, or below the highest when there is no second score. |
| RateioCalculator.Distribute | frontend/src/utils/rateioCalculator.ts:86-176 | The three blocks build `distribuicao` and `ganhadores` as the reference definition does. |
| RateioCalculator.CalculateRateio | frontend/src/utils/rateioCalculator.ts:46-185 | The imperative split returns the reference result: the error, the empty split, or the tiers' records with sorted winners. |
| RateioCalculator.RateioShape | frontend/src/utils/rateioCalculator.ts:63-184 | With a positive score, the pool, `distribuicao` and the winners are the tier definitions over the pool left after the fee. |
| RateioCalculator.RateioWinnersSorted | frontend/src/utils/rateioCalculator.ts:181 | `ganhadores` is ordered by score, highest first. |
| RateioCalculator.DistribuicaoShape | frontend/src/utils/rateioCalculator.ts:86-176 | `distribuicao` holds one record per paid tier, Maior first. |
| RateioCalculator.PaidRecordShares | frontend/src/utils/rateioCalculator.ts:90-176 | A record's per-winner share times its winner count is its total. |
| RateioCalculator.RateioDistribution | frontend/src/utils/rateioCalculator.ts:90-176 | Every record of `distribuicao` is a paid tier's: its label, score, winner count, `pct` share of the pool, and per-winner share. |
| RateioCalculator.DistribuicaoTiers | frontend/src/utils/rateioCalculator.ts:86-176 | `distribuicao` lists exactly the paid tiers, in the order Maior, Segunda, Menor. |
| RateioCalculator.RateioTiersListed | frontend/src/utils/rateioCalculator.ts:86-184 | The result's `distribuicao` lists exactly the paid tiers in tier order. |
| RateioCalculator.GanhadoresComplete | frontend/src/utils/rateioCalculator.ts:106-114 | Every participation whose score is a paid tier's score has a winner record in that tier. |
| RateioCalculator.GanhadoresOnlyPaid | frontend/src/utils/rateioCalculator.ts:90-176 | A participation whose score matches no paid tier has no record. |
| RateioCalculator.GanhadoresTierByScore | frontend/src/utils/rateioCalculator.ts:90-176 | A record's score decides its tier: no two tiers share a score. |
| RateioCalculator.TierWinnersFacts | frontend/src/utils/rateioCalculator.ts:91-114 | A tier's records are the participations with the tier's score, in order, each at the tier's per-winner share. |
| RateioCalculator.TierSums | frontend/src/utils/rateioCalculator.ts:90-176 | Per tier, the winners together receive exactly what the tier's record allots. |
| RateioCalculator.GanhadoresSums | frontend/src/utils/rateioCalculator.ts:86-176 | The prizes in `ganhadores` sum to the totals in `distribuicao`, and the record count is the sum of the winner counts. |
| RateioCalculator.RateioWinnerFrom | frontend/src/utils/rateioCalculator.ts:106-184 | Each winner record is a participation of a paid tier's score, at that tier's share. |
| RateioCalculator.RateioWinnerComplete | frontend/src/utils/rateioCalculator.ts:106-184 | Every participation with a paid tier's score is among the result's winners. |
| RateioCalculator.RateioSums | frontend/src/utils/rateioCalculator.ts:86-184 | The result's winners receive together exactly what its `distribuicao` allots. |
| RateioCalculator.RateioOneTier | frontend/src/utils/rateioCalculator.ts:86-184 | With ids that identify participations, no participation is paid in two tiers. |
| RateioCalculator.FeeFirst | frontend/src/utils/rateioCalculator.ts:63-64 | A tier's total is `(total - fee) * pct / 100`. |
| RateioCalculator.RateioVsEngine | frontend/src/utils/rateioCalculator.ts:63-176 | Each record's total is the ranking engine's pool for that percentage, scaled by what is left after the fee. |
| RateioCalculator.RateioDefaultShare | frontend/src/utils/rateioCalculator.ts:49-64 | With the default percentages and all three tiers paid, the fee and pools together come to 85.24% of the revenue. |
| ContestHelpers.CanAcceptParticipations | frontend/src/utils/contestHelpers.ts:25-49 | A contest that accepts participations is active and `now` lies in its window. |
| ContestHelpers.GetContestState | frontend/src/utils/contestHelpers.ts:63-126 | Participations are accepted exactly in the `ongoing` and `accepting` phases. The phase is `finished` exactly for a finished contest. |
| ContestHelpers.CanAcceptSpec | frontend/src/utils/contestHelpers.ts:25-49 | Only an active contest accepts participations, and it does exactly while now lies in its window, both ends included. Draws do not matter. |
| ContestHelpers.NotActiveStates | frontend/src/utils/contestHelpers.ts:63-82 | A non-active contest is finished exactly when its status says so, and inactive (draft or cancelled) otherwise. It never accepts participations. |
| ContestHelpers.ActivePhases | frontend/src/utils/contestHelpers.ts:84-126 | An active contest is upcoming before its window and awaiting result after it. Inside the window it is ongoing with draws and accepting without. |
| ContestHelpers.StateAgrees | frontend/src/utils/contestHelpers.ts:25-126 | The state accepts participations exactly when `canAcceptParticipations` holds. |
| ContestHelpers.PhasesAdvance | frontend/src/utils/contestHelpers.ts:84-126 | As time passes, an active contest never returns to an earlier phase. |
| Discounts.CalculateDiscountedPrice | frontend/src/services/discountsService.ts:262-289 | A discount that does not apply (inactive, outside its window, or used up) leaves the price unchanged. One that applies takes its amount off, floored at 0. |
| Discounts.UseLimitCases | frontend/src/services/discountsService.ts:278 | A null or zero limit never blocks. A positive limit blocks exactly once the uses reach it. |
| Discounts.PriceBounds | frontend/src/services/discountsService.ts:282-288 | For a non-negative price the result is never negative, and with a non-negative value it never exceeds the price. |
| Discounts.PriceChangesIffApplies | frontend/src/services/discountsService.ts:262-289 | For a positive price and value, the price drops exactly when the discount applies. |
| Discounts.Savings | frontend/src/services/discountsService.ts:282-288 | What the customer saves is the discount amount, capped at the price. |
| Discounts.PercentagePrice | frontend/src/services/discountsService.ts:282-284 | A percentage of at most 100 scales the price by what is left of a hundred. |
| Discounts.FixedPrice | frontend/src/services/discountsService.ts:285-288 | A fixed discount makes the item free exactly when it covers the price. Otherwise it subtracts its value. |
| Discounts.WithinUseLimitSpec | frontend/src/services/discountsService.ts:78-80 | The listing's filter keeps exactly the discounts that are not used up. |
| Discounts.GetActiveDiscounts | frontend/src/services/discountsService.ts:52-81 | The listing keeps the query order and holds exactly the rows the query selects that are within their use limit. |
| Discounts.ActiveDiscountsApply | frontend/src/services/discountsService.ts:52-81 | A discount in the requested scope is listed exactly when it applies at that instant. |
| Discounts.CreateDiscount | frontend/src/services/discountsService.ts:98-120 | Creation succeeds exactly for a signed-in user, a valid value and an end after the start. |
| Discounts.CreateAccepts | frontend/src/services/discountsService.ts:98-120 | A refused creation names the first failing check: not signed in, then a value that is not positive, then a percentage above 100, then an end not after the start. |
| Discounts.CreatedRow | frontend/src/services/discountsService.ts:122-130 | The inserted row is the input with its code normalised, zero uses, and active. |
| Discounts.CreatedApplies | frontend/src/services/discountsService.ts:98-130 | A new discount with a null or positive limit applies exactly inside its window, and its price stays between 0 and the original price. |
| Discounts.NormalizeCodeSpec | frontend/src/services/discountsService.ts:106 | A normalised code has no lower-case letter and no white space at either end, and normalising it again changes nothing. |
| Discounts.UpperUnchanged | frontend/src/services/discountsService.ts:106 | Upper-casing a string without lower-case letters changes nothing. |
| Discounts.UpdateDiscount | frontend/src/services/discountsService.ts:163-191 | An update is refused only for a given invalid value, judged with the type given in the same update, or for two given dates out of order. |
| Discounts.UpdateAccepts | frontend/src/services/discountsService.ts:163-191 | An accepted update is the input with its code normalised. An update without a value and without a start date is always accepted. |
| Discounts.UpdateAgreesWithCreate | frontend/src/services/discountsService.ts:174-191 | With the value, type and both dates given, an update passes exactly when creation's checks pass. |
| Discounts.UpdateSkipsPercentageBound | frontend/src/services/discountsService.ts:180-183 | As written: updating a 10% discount to the value 150 without a type is accepted, and the row becomes a 150% discount. |
| Discounts.UpdateDiscountOf | frontend/src/services/discountsService.ts:174-184 | The corrected check accepts nothing the written one refuses, and an accepted update is the input with its code normalised. An update that touches neither the value, nor the type, nor both dates is always accepted. |
| Discounts.UpdateOfKeepsValueValid | frontend/src/services/discountsService.ts:174-184 | The corrected check keeps a stored row's value valid. It accepts exactly what the written check accepts, minus updates that would make the value invalid. |
| Text.UpperChar | frontend/src/services/discountsService.ts:106 | Upper-casing a character leaves no lower-case letter, keeps every other character, and shifts a lower-case letter by 32. |
| Text.ToUpperCase | frontend/src/services/discountsService.ts:106 | `toUpperCase` keeps the length and upper-cases each character. |
| Text.ToUpperCaseIdempotent | frontend/src/services/discountsService.ts:106 | Upper-casing twice is upper-casing once. |
| Text.TrimSpec | frontend/src/services/discountsService.ts:106 | `trim` returns a stretch of its input with only white space cut off either side, and the result neither starts nor ends with white space. |
| Text.TrimIdempotent | frontend/src/services/discountsService.ts:106 | Trimming twice is trimming once. |
| Text.PadStart | frontend/src/utils/contestOfficialRefUtils.ts:31 | `padStart` reaches the width, keeps the string at the end, and fills the front with the fill character. |
| NumberPicker.Numbers | frontend/src/components/NumberPicker.tsx:22 | The grid has `max - min + 1` numbers (none when `max < min`), the i-th being `min + i`. |
| NumberPicker.NumbersRange | frontend/src/components/NumberPicker.tsx:22 | The grid offers exactly the numbers from min to max, in strictly ascending order. |
| NumberPicker.Toggle | frontend/src/components/NumberPicker.tsx:24-34 | Whenever `onChange` is called, the clicked number changes from selected to unselected or back, and every other number stays as it was. |
| NumberPicker.ToggleRemoves | frontend/src/components/NumberPicker.tsx:25-27 | Clicking a selected number removes every copy of it and keeps every other number, with its multiplicity and order. |
| NumberPicker.FilterOutCount | frontend/src/components/NumberPicker.tsx:27 | Removing a number shortens the selection by its number of occurrences. |
| NumberPicker.ToggleAdds | frontend/src/components/NumberPicker.tsx:28-32 | Clicking an unselected number with room adds it: the result is ascending and holds the old numbers plus the new one. |
| NumberPicker.IsDisabled | frontend/src/components/NumberPicker.tsx:79-80 | A number is disabled exactly when clicking it would not call `onChange`. |
| NumberPicker.ToggleKeepsLimit | frontend/src/components/NumberPicker.tsx:24-34 | A selection within the limit stays within it, whatever is clicked. |
| NumberPicker.FilterStrictlyAscending | frontend/src/components/NumberPicker.tsx:27 | Removing numbers from a strictly ascending selection keeps it strictly ascending. |
| NumberPicker.ToggleTwice | frontend/src/components/NumberPicker.tsx:24-34 | On a sorted, duplicate-free selection with room, clicking an unselected number twice gives the selection back. |
| NumberPicker.ClearSelection | frontend/src/components/NumberPicker.tsx:44-46 | After clearing, no number is disabled under a positive limit. |
| NumberPicker.ClearEnablesAll | frontend/src/components/NumberPicker.tsx:44-46 | After clearing, nothing is selected. With a positive limit no number is disabled, and a click selects that number alone. |
| OfficialRef.Digits | frontend/src/utils/contestOfficialRefUtils.ts:29 | Stripping non-digits leaves only ASCII digits. |
| OfficialRef.PairsSpec | frontend/src/utils/contestOfficialRefUtils.ts:31 | The digits are cut into ceil(d/2) two-digit tokens. Side by side they give the digits, with a '0' before the last one when d is odd. |
| OfficialRef.FormatOfficialRefNumbers | frontend/src/utils/contestOfficialRefUtils.ts:27-32 | The result holds only digits and spaces. |
| OfficialRef.FormatNumbersSpec | frontend/src/utils/contestOfficialRefUtils.ts:27-32 | No input, a blank one, or one without digits shows as "". Otherwise the result is two-digit tokens joined by single spaces that reproduce the digits as described. |
| OfficialRef.FormatNumbersIdempotent | frontend/src/utils/contestOfficialRefUtils.ts:27-32 | Formatting an already formatted reference changes nothing. |
| OfficialRef.FormatJoined | frontend/src/utils/contestOfficialRefUtils.ts:27-32 | Space-joined two-digit tokens format to themselves. |
| OfficialRef.FormatOfficialRefDate | frontend/src/utils/contestOfficialRefUtils.ts:5-25 | A blank input shows as "". Otherwise the result is what the date parser shows, the `dd/mm/aaaa` form of exactly eight digits, or the input unchanged. |
| OfficialRef.FormatDateBranches | frontend/src/utils/contestOfficialRefUtils.ts:5-25 | An input without '-', '/' or 'T' and with exactly eight digits shows as `dd/mm/aaaa`, whatever the date parser does. |
| OfficialRef.DayMonthYearSpec | frontend/src/utils/contestOfficialRefUtils.ts:16-21 | The `dd/mm/aaaa` form has ten characters, slashes at positions 2 and 5, digits elsewhere, and the eight digits it was built from, in order. |
| CodeFormat.AlphabetAt | frontend/src/utils/ticketCodeGenerator.ts:24 | The alphabet has 36 characters: the letters A to Z, then the digits 0 to 9. |
| CodeFormat.DecimalLength | frontend/src/utils/ticketCodeGenerator.ts:18-21 | A number's decimal string has at most k digits exactly when the number is below 10^k. |
| CodeFormat.PaddedTwoDigits | frontend/src/utils/ticketCodeGenerator.ts:19-20 | A month or day below 100, padded, is exactly two digits. |
| CodeFormat.RandomPart | frontend/src/utils/ticketCodeGenerator.ts:25-28 | The loop of six draws builds the random part one character per draw. |
| CodeFormat.RandomCharsSpec | frontend/src/utils/ticketCodeGenerator.ts:25-28 | With draws in range, the random part has one character per draw, the alphabet's character at that draw, each in `[A-Z0-9]`. |
| CodeFormat.RandomCharsInjective | frontend/src/utils/ticketCodeGenerator.ts:25-28 | Different draws give different random parts. |
| CodeFormat.MatchesSpec | frontend/src/utils/ticketCodeGenerator.ts:40 | The pattern accepts exactly the prefix, a dash, eight digits, a dash and six characters of `[A-Z0-9]`. |
| CodeFormat.GeneratedMatches | frontend/src/utils/ticketCodeGenerator.ts:15-42 | On a real date with draws in range, a generated code passes its validator exactly when the year has four digits. |
| CodeFormat.FourDigitYear | frontend/src/utils/ticketCodeGenerator.ts:21 | A four-digit year with a two-digit month and day and six code characters matches. |
| CodeFormat.NoDigitAfterPrefix | frontend/src/utils/ticketCodeGenerator.ts:18-21 | A negative year puts a sign where a digit is required, so the code does not match. |
| CodeFormat.MatchesNoLower | frontend/src/utils/ticketCodeGenerator.ts:40 | A matching code has no lower-case letter when its prefix has none. |
| CodeFormat.MatchesOnePrefix | frontend/src/utils/ticketCodeGenerator.ts:40 | A code matches at most one of two distinct prefixes of the same length. |
| TicketCode.GenerateTicketCode | frontend/src/utils/ticketCodeGenerator.ts:15-31 | The generator returns `TKT-`, the date part, `-` and the random part of the given draws. |
| TicketCode.IsValidTicketCode | frontend/src/utils/ticketCodeGenerator.ts:39-42 | A valid ticket code is `TKT-`, eight digits, `-` and six `[A-Z0-9]`, 19 characters in all, and nothing else is valid. |
| TicketCode.GeneratedTicketValid | frontend/src/utils/ticketCodeGenerator.ts:15-42 | On a real date with draws in range, the generated code is valid exactly when the year has four digits. |
| TicketCode.TicketCodeRejects | frontend/src/utils/ticketCodeGenerator.ts:39-42 | A valid ticket code has no lower-case letter and is never a valid draw code. |
| DrawCode.GenerateDrawCode | frontend/src/utils/drawCodeGenerator.ts:15-28 | The generator returns `DRW-`, the date part, `-` and the random part of the given draws. |
| DrawCode.IsValidDrawCode | frontend/src/utils/drawCodeGenerator.ts:37-40 | A valid draw code is `DRW-`, eight digits, `-` and six `[A-Z0-9]`, 19 characters in all, and nothing else is valid. |
| DrawCode.GeneratedDrawValid | frontend/src/utils/drawCodeGenerator.ts:15-40 | On a real date with draws in range, the generated code is valid exactly when the year has four digits. |
| DrawCode.DrawCodeRejects | frontend/src/utils/drawCodeGenerator.ts:37-40 | A valid draw code has no lower-case letter and is never a valid ticket code. |

## Left out

- Database access (Supabase): queries, inserts, updates, deletes, error codes and authentication. They are left out because they are I/O.
  - `getActiveDiscounts` is modelled as the query's selection over a given list of rows in the order the query returns them, followed by the use-limit filter.
  - `createDiscount` and `updateDiscount` are modelled up to the write: they return the row or update they would send, or the error they throw.
- `listAllDiscounts`, `getDiscountByCode`, `deleteDiscount` and `incrementDiscountUses` are left out: they only query or write the database.
- The discounts' free-text `name` and `description` are left out: they are stored unread.
- Dates are integer instants. This covers `new Date(...)` parsing of ISO strings and date comparisons.
  - `parseDateSafe` is not modelled: it only parses.
  - An invalid date (`NaN`, which compares false with everything) is not modelled.
  - An empty creation date, which `getAllHitNumbers` treats as absent, is modelled as `None`.
- The clock is not read: `new Date()` is the parameter `now` or, for the code generators, the year, month and day it reads.
- `Math.random()` is not modelled as randomness: each draw is the alphabet index it produces.
  - `CodeFormat.RandomCharsSpec` assumes the draws are in `[0, 36)`, which `Math.floor(Math.random() * 36)` guarantees. Out-of-range indices are modelled as adding nothing (`charAt` gives "").
  - The uniqueness of generated codes is a matter of probability and is not stated.
  - `generateRandom` (the "Surpresinha" button) is left out: it shuffles with a random comparator.
- Numbers are reals and integers, not IEEE doubles. Rounding in `* / 100` and in the rateio's 0.01 tolerance is therefore not modelled.
- `toLocaleDateString('pt-BR', ...)` and `new Date(s)` in `formatOfficialRefDate` are the parameter `parse`.
  - Only the blank branch and the eight-digit branch are stated.
  - The date-parser branches return whatever `parse` returns.
- `Text.ToUpperCase`: does not model Unicode case mapping beyond the ASCII letters, because discount codes are ASCII.
- User interface rendering is left out: React state, labels, CSS classes and the components' JSX.

## Findings

| source | as written | input that shows it | evidently intended | confidence | as-written member | corrected member |
|---|---|---|---|---|---|---|
| frontend/src/services/discountsService.ts:180-183 | The percentage bound in `updateDiscount` uses `updateData.discount_type \|\| input.discount_type`. Both are the update's own type, so the stored type is never consulted. | A stored 10% `percentage` discount, updated with `{ discount_value: 150 }` alone. The update is accepted and the row becomes a 150% discount. | The bound is checked against the type the row will have: the one given, or else the stored one. An update therefore never leaves a percentage above 100. | not executed | Discounts.UpdateSkipsPercentageBound | Discounts.UpdateOfKeepsValueValid |
