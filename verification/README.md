# Surplus-food marketplace simulator: a verified model of its core

This project models, in Dafny, the core of a simulator of a surplus-food
("surprise bag") marketplace. In a simulated day customers arrive, look at a
display of stores built by one of six ranking strategies (Baseline, Sama,
Andrew, Amer, Ziad, Harmony), pick one store by a softmax draw over their
own scores, and reserve a bag. At the end of the day each store settles its
pending reservations in order of reservation time:

- when it has enough real bags, every customer gets an equal share and the
  first ones get an extra bag;
- otherwise the first customers get one bag each and the rest are
  cancelled.

Ratings, loyalty, histories and the day's metrics (revenue, waste, Gini
coefficient of exposure) follow from that. The store table is loaded from a
CSV file or taken from a built-in list.

The model follows the program's own shape:

- Stores, customers, the market state and the metrics collector are
  classes whose methods update their fields in place.
- Timestamps, reservations, histories and weights are datatypes.
- The program's loops are methods with loop invariants, each proved
  against a specification function.
- The specification functions are related by lemmas to what the program
  promises: sortedness and permutation of every ranking, bounds on every
  display, the exact effect of settlement on every customer and store, the
  totals of the metrics, and round trips of rendering and parsing.

Floating-point values are modelled as reals. Square root, logarithm and
exponential are passed in as functions, and so is the random draw.

Files, one module each:

| file | module | models |
|---|---|---|
| common.dfy | Common | clamps, real division with a zero guard, counting helpers |
| timestamp.dfy | Timestamps | `Timestamp`: ordering and `to_string` |
| reservation.dfy | Reservations, ReservationLog | `Reservation`; counting of settled reservations in a log |
| restaurant.dfy | Restaurants | `Restaurant` |
| customer.dfy | Customers | `Customer`, its history and its store score |
| market.dfy | Markets | `MarketState` |
| sorting.dfy | Sorting | the sort the ranking strategies use |
| scoring.dfy | StoreScoring | scoring, sorting and top-N selection of stores |
| ranking.dfy | Ranking | Baseline, Andrew, Ziad and Amer displays |
| selection.dfy | Selection | filling a display up to N |
| sama.dfy | SamaDisplay | Sama's display |
| harmony.dfy | HarmonyDisplay | Harmony's display |
| display.dfy | Display | the strategy dispatcher |
| decision.dfy | Decision | a customer's choice and reservation |
| settlement.dfy | Settlement | the end-of-day settling order and its effect |
| rationing.dfy | Rationing | how a store's real bags are shared out |
| reconciliation.dfy | Reconciliation | the end-of-day settlement of one store |
| endofday.dfy | DayEnd | `process_end_of_day` over all stores |
| metrics.dfy | Metrics | `MetricsCollector` |
| loader.dfy | Loader | `RestaurantLoader` |

## Model

| member | source | states |
|---|---|---|
| Timestamps.ToMinutes | analysis/Timestamp.cpp:7-9 | for an hour of at least 0 and a minute in [0, 60), the minutes since midnight are not negative and give back the hour and the minute, so distinct valid times have distinct minute counts |
| Timestamps.Less | analysis/Timestamp.cpp:11-13 | a time is never before itself; for minutes in [0, 60) one time is before another exactly when its hour is earlier, or the hour is the same and its minute is earlier |
| Timestamps.LessIsMinutes | analysis/Timestamp.cpp:7-13 | one time is before another exactly when it has fewer minutes since midnight |
| Timestamps.LessIrreflexive | analysis/Timestamp.cpp:11-13 | no time is before itself |
| Timestamps.LessTransitive | analysis/Timestamp.cpp:11-13 | the ordering is transitive, as sorting by it requires |
| Timestamps.LessTrichotomy | analysis/Timestamp.cpp:11-13 | two times with equal minutes are incomparable, and otherwise exactly one is before the other |
| Timestamps.ToString | analysis/Timestamp.cpp:15-18 | for non-negative fields the rendering is the hour's digits, a colon, then at least two digits for the minute, and nothing but digits besides the colon |
| Timestamps.NatToString | analysis/Timestamp.cpp:15-18 | `std::to_string` of a natural number gives only digits, at least one, and two or more exactly from 10 upwards |
| Timestamps.IndexOfColon | analysis/Timestamp.cpp:15-18 | finds the first colon of a rendering, or reports that there is none |
| Timestamps.ParseJoin | analysis/Timestamp.cpp:15-18 | two runs of digits joined by a colon read back as the two values |
| Timestamps.ParseToString | analysis/Timestamp.cpp:15-18 | reading back `to_string` of a time with non-negative fields gives that time |
| Timestamps.ToStringInjective | analysis/Timestamp.cpp:15-18 | two different such times never render alike |
| Timestamps.ToStringPadding | analysis/Timestamp.cpp:15-18 | the minute takes two characters after the colon, and starts with "0" exactly when it is below 10 |
| Timestamps.DigitsValueOfNat | analysis/Timestamp.cpp:15-18 | the digits of a natural number read back as that number |
| Reservations.NewReservation | analysis/Reservation.cpp:5-9 | a new reservation keeps its ids and time, is pending, and has received no bags |
| ReservationLog.CountNone | analysis/RestaurantManagementSystem.cpp:6-75 | while nothing in scope has been settled, every count of settlements is zero |
| ReservationLog.CountSettleOne | analysis/RestaurantManagementSystem.cpp:77-101 | settling one pending reservation keeps the log a settlement of the original, and adds one to exactly the counts that reservation falls in |
| ReservationLog.CountChain | analysis/RestaurantManagementSystem.cpp:6-75 | counts of settlements add up along two successive stretches of settling |
| ReservationLog.CountFirstNone | analysis/RestaurantManagementSystem.cpp:6-75 | the count over the first n positions is zero while nothing there is settled |
| ReservationLog.CountFirstSettleOne | analysis/RestaurantManagementSystem.cpp:77-101 | settling the reservation at j adds one to the counts over every prefix that contains j |
| ReservationLog.CountFirstChain | analysis/RestaurantManagementSystem.cpp:6-75 | prefix counts add up along two stretches of settling |
| Restaurants.RatingStaysInRange | analysis/Restaurant.cpp:43-54 | a rating in [1, 5] stays in [1, 5] whatever confirmations and cancellations follow |
| Restaurants.RaisedTimesClosedForm | analysis/Restaurant.cpp:43-47 | n confirmations raise the rating by 0.01 n, capped at 5 |
| Restaurants.LoweredTimesClosedForm | analysis/Restaurant.cpp:50-54 | n cancellations lower it by 0.05 n, floored at 1 |
| Restaurants.Restaurant.constructor | analysis/Restaurant.cpp:7-18 | the CSV constructor stores its arguments and starts with nothing reserved, no real bags, inventory on, at most 3 bags per customer, zero orders, and the rating as initial and day-start rating |
| Restaurants.Restaurant.Legacy | analysis/Restaurant.cpp:21-31 | the legacy constructor does the same with an empty branch at (0, 0) |
| Restaurants.Restaurant.AcceptsWhileUnsold | analysis/Restaurant.cpp:34-36 | a store takes a reservation exactly when it has inventory and at least one unsold bag |
| Restaurants.Restaurant.UnsoldBags | analysis/RankingAlgorithms.cpp:148 | the unsold count is the forecast minus the reservations when that is positive, else 0 |
| Restaurants.Restaurant.SetActualInventory | analysis/Restaurant.cpp:38-40 | sets the real bag count and nothing else |
| Restaurants.Restaurant.UpdateRatingOnConfirmation | analysis/Restaurant.cpp:43-47 | one more confirmed order in total and today, and the rating raised by 0.01 up to 5 |
| Restaurants.Restaurant.UpdateRatingOnCancellation | analysis/Restaurant.cpp:50-54 | one more cancelled order in total and today, and the rating lowered by 0.05 down to 1 |
| Markets.AvailableOfMembership | analysis/MarketState.cpp:9-17 | an id is listed as available exactly when some store with that id can take a reservation |
| Markets.FirstIndex | analysis/MarketState.cpp:20-25 | the position of the first store with the id, or -1 when no store has it |
| Markets.FirstIndexOfDistinct | analysis/MarketState.cpp:20-25 | with distinct ids, looking up a store's own id finds that store |
| Markets.MarketState.constructor | analysis/MarketState.cpp:6 | the day opens at 8:00 with reservation ids from 1 and nothing loaded |
| Markets.MarketState.GetAvailableRestaurantIds | analysis/MarketState.cpp:9-17 | the loop lists the ids of the stores that can take a reservation, in store order |
| Markets.MarketState.FindRestaurant | analysis/MarketState.cpp:20-25 | null exactly when no store has the id, else the store at the first position holding that id |
| Markets.MarketState.GetRestaurant | analysis/MarketState.cpp:20-25 | the loop returns the first store with the id, or null |
| Markets.MarketState.GetCustomer | analysis/MarketState.cpp:36-39 | null exactly when the id is not registered, else the customer under that id |
| Customers.SquaredDistance | analysis/Customer.cpp:12-16 | the squared distance, whose square root is the travel distance, is never negative |
| Customers.NoveltyDamped | analysis/Customer.cpp:84-90 | the novelty score lies in (0, novelty weight], strictly below the weight once the category has been reserved |
| Customers.NoveltyDecreasing | analysis/Customer.cpp:84-90 | reserving a category more often lowers its novelty score |
| Customers.ScoreAtBounds | analysis/Customer.cpp:70-97 | a store beyond the travel limit scores -100; within it the score is rating, price, novelty and a distance term between 0 and 1.5 |
| Customers.ScoreAtNearerIsBetter | analysis/Customer.cpp:92-96 | within the travel limit, a nearer store never scores lower, other things equal |
| Customers.Customer.CalculateStoreScore | analysis/Customer.cpp:70-97 | the score of a store: -100 beyond the travel limit; within it, the rating, price and novelty terms plus a distance bonus of at most 1.5 |
| Customers.LoyaltyStaysInRange | analysis/Customer.cpp:100-106 | loyalty in [0, 1] stays in [0, 1] after any sequence of outcomes |
| Customers.LoyaltyAfterCancellationsClosedForm | analysis/Customer.cpp:100-106 | n cancellations take 0.1 n off the loyalty, down to 0 |
| Customers.LoyaltyAfterCancellationsChain | analysis/Customer.cpp:100-106 | a cancels followed by b cancels are a + b cancels |
| Customers.WithAttempt | analysis/Customer.cpp:119-124 | an attempt adds one reservation overall, for its category and for its store, sets the last reservation time, and leaves every other category and store alone |
| Customers.WithSuccess | analysis/Customer.cpp:127-131 | a success adds one success overall and for its store, and leaves other stores alone |
| Customers.WithCancellation | analysis/Customer.cpp:134-138 | a cancellation adds one cancellation overall and for its store, and leaves other stores alone |
| Customers.Boosted | analysis/Customer.cpp:109-111 | n boosts raise the category's preference by 0.1 n, from 0 when it was missing, and leave other categories alone |
| Customers.BoostedChain | analysis/Customer.cpp:109-111 | a boosts then b boosts are a + b boosts |
| Customers.Customer.Default | analysis/Customer.cpp:31-37 | the default customer: id 0, "garry", regular, willingness 200, loyalty 0.8, threshold 5, preferences 1 for the three types |
| Customers.Customer.WithSegment | analysis/Customer.cpp:40-46 | the segment constructor: the given id and segment, an empty name, threshold 3, the same defaults otherwise |
| Customers.Customer.constructor | analysis/Customer.cpp:49-67 | the full constructor stores its arguments, loyalty 0.8, preferences 1 |
| Customers.Customer.UpdateLoyalty | analysis/Customer.cpp:100-106 | a cancellation lowers loyalty by 0.1 down to 0, a success raises it by 0.05 up to 1, keeping it in [0, 1] |
| Customers.Customer.UpdateCategoryPreference | analysis/Customer.cpp:109-111 | the category's preference goes up by 0.1 |
| Customers.ScoreIgnoresVisits | analysis/Customer.cpp:70-97 | a store's score reads the history only through the categories reserved, so a visit never changes it |
| Customers.Customer.RecordVisit | analysis/Customer.cpp:114-116 | one more visit, nothing else |
| Customers.Customer.RecordReservationAttempt | analysis/Customer.cpp:119-124 | the history after the attempt is `WithAttempt` of the old one |
| Customers.Customer.RecordReservationSuccess | analysis/Customer.cpp:127-131 | the history records a success and the category is boosted once |
| Customers.Customer.RecordReservationCancellation | analysis/Customer.cpp:134-138 | the history records a cancellation and loyalty drops as for a cancellation |
| Sorting.SortDesc | analysis/RankingAlgorithms.cpp:342-345 | sorting best first gives a permutation of the input whose keys never increase |
| Sorting.SortAsc | analysis/RestaurantManagementSystem.cpp:17-20 | sorting by an ascending key gives a permutation of the input whose keys never decrease |
| StoreScoring.SortByScore | analysis/RankingAlgorithms.cpp:342-345 | the scored pairs sorted by score, highest first, as a permutation of the pairs |
| StoreScoring.TakeIds | analysis/RankingAlgorithms.cpp:347-351 | the copy loop returns exactly the ids of the first k pairs, in order |
| StoreScoring.TopPrefix | analysis/RankingAlgorithms.cpp:342-351 | after sorting, no scored store left out of the first k scores above one that was taken |
| StoreScoring.TakenIds | analysis/RankingAlgorithms.cpp:347-351 | the ids taken are ids of the scored stores, no id more often than it was scored |
| StoreScoring.AllTaken | analysis/RankingAlgorithms.cpp:347-351 | taking as many ids as there are pairs lists every scored store |
| StoreScoring.KeptStore | analysis/RankingAlgorithms.cpp:328-340 | a scoring loop keeps a store only when it is found under the id, is not already selected and passes the strategy's filter |
| StoreScoring.Candidates | analysis/RankingAlgorithms.cpp:328-340 | every pair pushed carries an id of the walk, a kept store, and that store's score under the strategy's rule |
| StoreScoring.CandidatesComplete | analysis/RankingAlgorithms.cpp:328-340 | every kept store of the walk gets a pair |
| StoreScoring.CandidatesDistinct | analysis/RankingAlgorithms.cpp:328-340 | walking distinct ids gives pairs with distinct ids |
| StoreScoring.ScoreStores | analysis/RankingAlgorithms.cpp:328-340 | the scoring loop pushes exactly the pairs of `Candidates`, in walk order |
| StoreScoring.Touched | analysis/RankingAlgorithms.cpp:335 | reading `impression_counts[id]` adds a zero entry for every id read and changes no count |
| StoreScoring.Bumped | analysis/RankingAlgorithms.cpp:613-616 | incrementing for every shown id adds its number of occurrences to each count, from 0 for new ids |
| StoreScoring.TouchImpressions | analysis/RankingAlgorithms.cpp:335 | the impression map after reading the ids is `Touched` of the old one |
| StoreScoring.BumpImpressions | analysis/RankingAlgorithms.cpp:613-616 | the impression map after the increments is `Bumped` of the old one |
| Selection.Selected | analysis/RankingAlgorithms.cpp:300-309 | the selected set holds exactly the ids already on the display |
| Selection.FilledProps | analysis/RankingAlgorithms.cpp:300-309 | the fill pass keeps the display as a prefix, appends only unshown ids of the scored list, never goes beyond N, and stops short of N only once every scored id is shown |
| Selection.FilledWhenFull | analysis/RankingAlgorithms.cpp:300-309 | once the display reaches N, the rest of the scored list changes nothing |
| Selection.FilledStopsAtSkip | analysis/RankingAlgorithms.cpp:300-309 | a scored id missing from the result means the display had filled before reaching it |
| Selection.FilledGrows | analysis/RankingAlgorithms.cpp:300-309 | an id shown after a prefix of the pass stays shown after the whole pass |
| Selection.Fill | analysis/RankingAlgorithms.cpp:300-309 | the fill loop, including its stop at N, computes `Filled` |
| Ranking.RankedPrefix | analysis/RankingAlgorithms.cpp:342-351 | the first ids of the sorted pairs are kept stores listed best first, none outscored by a kept store left out |
| Ranking.RankedAll | analysis/RankingAlgorithms.cpp:347-351 | taking every pair lists every kept store |
| Ranking.RankStores | analysis/RankingAlgorithms.cpp:328-351 | score, sort and take: the pairs are a best-first permutation of `Candidates` and the ids are their first min(k, count) ids |
| Ranking.Rated | analysis/RankingAlgorithms.cpp:19-31 | each id is paired with the rating of the last store with that id, as the comparator's lookup loop finds it |
| Ranking.SortByRating | analysis/RankingAlgorithms.cpp:19-31 | the available ids as a permutation, by rating highest first |
| Ranking.RatedSorted | analysis/RankingAlgorithms.cpp:19-31 | the ids of the sorted rating pairs are a permutation of the ids, by rating highest first |
| Ranking.DisplayBaseline | analysis/RankingAlgorithms.cpp:14-35 | Baseline shows min(N, available) available stores, best rated first, and no available store left out is rated above a shown one |
| Ranking.BaselinePrefix | analysis/RankingAlgorithms.cpp:33-34 | any prefix of the rating order is a best-rated choice among the available stores |
| Ranking.DisplayZiad | analysis/RankingAlgorithms.cpp:425-466 | Ziad shows at most min(N, 5) stores within the radius, best linear score first, none outscored by one left out, and all of them when fewer than min(N, 5) are shown |
| Ranking.DisplayAndrew | analysis/RankingAlgorithms.cpp:320-354 | Andrew shows min(N, available) stores ranked by the customer's score damped by log of the day's impressions, and touches an impression entry for every available id |
| Ranking.AllAvailableKept | analysis/RankingAlgorithms.cpp:328-340 | a rule without a filter scores every available id, in order |
| Ranking.NearestOf | analysis/RankingAlgorithms.cpp:366-381 | the search result is a position of the walk and its id, or -1 when nothing was found |
| Ranking.NearestOfIsNearest | analysis/RankingAlgorithms.cpp:366-381 | the store found lies within the radius, no store within the radius is nearer, stores before it are strictly farther, and nothing is found only when no store lies within the radius |
| Ranking.NearestStore | analysis/RankingAlgorithms.cpp:366-381 | the search loop returns the id `NearestOf` describes |
| Ranking.DisplayAmer | analysis/RankingAlgorithms.cpp:357-422 | Amer shows the nearest store first when there is one, followed by the other stores within the radius ranked by score less price and distance penalties, at most max(N, 1) in all, and every store within the radius when fewer than N are shown; an N of 0 can still show the nearest store |
| Ranking.AmerShows | analysis/RankingAlgorithms.cpp:383-419 | the nearest store followed by the ranked rest is a display of available stores with the ranking property |
| SamaDisplay.StockBounds | analysis/RankingAlgorithms.cpp:145-154 | the stocked-store count is at most the unsold total and the store count, is zero exactly when nothing is unsold, and the average is at least one bag once any store has stock |
| SamaDisplay.AverageUnsold | analysis/RankingAlgorithms.cpp:145-154 | the loop computes the average unsold bags over the stores that have any, 0 when none has |
| SamaDisplay.PersonalizationRatio | analysis/RankingAlgorithms.cpp:141-160 | the personalised share always lies in [0.4, 0.85] |
| SamaDisplay.WasteLowersRatio | analysis/RankingAlgorithms.cpp:157-160 | a market averaging more than ten unsold bags never gets a larger personalised share than any other |
| SamaDisplay.PersonalizedCount | analysis/RankingAlgorithms.cpp:162-163 | the personalised count is at least 3, and above 3 only up to the store count and the truncated share of N |
| SamaDisplay.SelectOneReadsAsWritten | analysis/RankingAlgorithms.cpp:165-170 | the number of sorted pairs the first selection loop reads as written, never more than N |
| SamaDisplay.SelectOneOverreads | analysis/RankingAlgorithms.cpp:162-170 | with fewer than three stores and N above their number, that loop reads beyond the sorted pairs |
| SamaDisplay.SelectOneOverreadsExample | analysis/RankingAlgorithms.cpp:162-170 | two stores and N = 5: the loop reads a third pair |
| SamaDisplay.SelectOneCount | analysis/RankingAlgorithms.cpp:162-170 | the corrected count stays within the store count and N, takes at least three when both allow, and equals the source's count wherever that stays in bounds |
| SamaDisplay.SelectBest | analysis/RankingAlgorithms.cpp:172-298 | a discovery or competitive pass appends at most one unselected available store, the best one its rule keeps, and appends none only when the rule keeps no unselected store |
| SamaDisplay.DisplaySama | analysis/RankingAlgorithms.cpp:39-310 | Sama shows at most N available stores; the first block is the best Sama-scored stores, of the corrected size; later entries never repeat; fewer than N shown means every available store is shown; distinct ids give a display without repeats |
| SamaDisplay.SamaFirstBlock | analysis/RankingAlgorithms.cpp:58-170 | the first block is the best Sama-scored available stores, best first, of the corrected size |
| SamaDisplay.SamaComplete | analysis/RankingAlgorithms.cpp:172-309 | the discovery, competitive and fill passes keep the first block, add only new available ids, stop at N, and stop short of N only once every available store is shown |
| HarmonyDisplay.SumOfRemove | analysis/RankingAlgorithms.cpp:482-488 | the impression total does not depend on the order the map's entries are visited in |
| HarmonyDisplay.AverageImpressions | analysis/RankingAlgorithms.cpp:482-488 | the loop over the impression map computes the mean count over the stores with an entry, 1 when there is none |
| HarmonyDisplay.AvgImpressionsNonNegative | analysis/RankingAlgorithms.cpp:482-488 | with non-negative counts the mean is non-negative |
| HarmonyDisplay.FirstPick | analysis/RankingAlgorithms.cpp:567-602 | the position of the first sorted store not yet shown that qualifies for the pass; every earlier one is shown or does not qualify; -1 when none qualifies |
| HarmonyDisplay.FirstPickPrefix | analysis/RankingAlgorithms.cpp:567-602 | once a pick is found in a prefix of the sorted list, the rest of the list does not change it, as the `break` promises |
| HarmonyDisplay.PickFirst | analysis/RankingAlgorithms.cpp:567-602 | the high-waste or discovery loop appends exactly the store `FirstPick` names, or nothing |
| HarmonyDisplay.DirectSlots | analysis/RankingAlgorithms.cpp:560 | `(int)(N * 0.7)` is the largest d with 10 d <= 7 N, and lies in [0, N] |
| HarmonyDisplay.KeptInRadius | analysis/RankingAlgorithms.cpp:490-498 | Harmony scores exactly the available ids whose store lies within the travel radius |
| HarmonyDisplay.DisplayHarmony | analysis/RankingAlgorithms.cpp:469-619 | Harmony shows at most N available in-radius stores, its first `(int)(N * 0.7)` ranked by the Harmony score, later entries never repeated, every in-radius store unless full; afterwards every scored store has an impression entry and every shown store one more impression |
| HarmonyDisplay.ReadThenShown | analysis/RankingAlgorithms.cpp:490-498 | reading the counts of some ids and then counting the shown ones gives an entry for every id read and one more impression per showing |
| HarmonyDisplay.RecordImpressions | analysis/RankingAlgorithms.cpp:613-616 | the impression map becomes the old one with zero entries for the ids read and one more impression per shown id; the display keeps its properties |
| HarmonyDisplay.HarmonyRank | analysis/RankingAlgorithms.cpp:478-611 | the display built from the scores before any impression is recorded has the Harmony properties, and the sorted pairs are exactly the scored stores |
| HarmonyDisplay.HarmonyDirect | analysis/RankingAlgorithms.cpp:478-565 | the average, the best-first pairs of the in-radius stores and the first `(int)(N * 0.7)` of their ids |
| HarmonyDisplay.HarmonyComplete | analysis/RankingAlgorithms.cpp:567-611 | the high-waste, discovery and fill passes keep the direct block, add only new scored ids, stop at N, and stop short of N only once every scored store is shown |
| HarmonyDisplay.HarmonyDirectBlock | analysis/RankingAlgorithms.cpp:559-565 | the direct block is exactly the first `min((int)(N * 0.7), shown)` entries of the final display |
| Display.GetDisplayedStores | analysis/RankingAlgorithms.cpp:622-639 | whatever the strategy, the display lists available stores only, at most N (Amer: at most max(N, 1)), with Baseline as the default; each strategy keeps its own promise: Baseline and Andrew show exactly min(N, available), Ziad and Amer every kept store when short, Amer the nearest store first and the rest ranked, Sama and Harmony their blocks; Andrew adds a zero impression entry for every available store, Harmony one for every in-radius store and one more impression per store shown, and the other strategies leave the counts alone |
| Display.PromiseIgnoresVisits | analysis/CustomerDecisionSystem.cpp:16-17 | recording a visit changes no strategy's promise about a display, so the display built after the visit keeps the promise stated on the arriving state |
| Decision.UnreachableScore | analysis/CustomerDecisionSystem.cpp:58-65 | a displayed store that is missing or beyond the travel limit scores -100 |
| Decision.CalculateStoreScores | analysis/CustomerDecisionSystem.cpp:52-68 | one score per displayed id, in display order: the customer's score of the store, -100 when it cannot be found |
| Decision.MaxOf | analysis/CustomerDecisionSystem.cpp:83 | the maximum is one of the scores and no score exceeds it |
| Decision.MinOf | analysis/CustomerDecisionSystem.cpp:143 | the minimum is one of the scores and no score is below it |
| Decision.HistoryAdjustment | analysis/CustomerDecisionSystem.cpp:93-105 | with consistent history counters the history term lies in [-2, 1.5] |
| Decision.InventoryBonus | analysis/CustomerDecisionSystem.cpp:107-112 | the stock term is at most 0.3, and not negative for a found store with a non-negative forecast |
| Decision.Adjusted | analysis/CustomerDecisionSystem.cpp:89-113 | each adjusted score is the raw score plus its store's history and stock terms |
| Decision.FarStoreNeverAcceptable | analysis/CustomerDecisionSystem.cpp:119-123 | a store scored -100 stays below the -50 cut-off after adjustment, so it is never a valid option |
| Decision.ValidIndices | analysis/CustomerDecisionSystem.cpp:116-124 | exactly the positions whose adjusted score reaches the threshold and exceeds -50 |
| Decision.ValidIndicesIncreasing | analysis/CustomerDecisionSystem.cpp:116-124 | the acceptable positions are listed in increasing order, each once |
| Decision.AdjustScores | analysis/CustomerDecisionSystem.cpp:89-113 | the adjustment loop computes `Adjusted` |
| Decision.FilterValid | analysis/CustomerDecisionSystem.cpp:116-124 | the filter loop returns the valid positions and their adjusted scores |
| Decision.Gathered | analysis/CustomerDecisionSystem.cpp:122 | the valid scores are the adjusted scores at the valid positions |
| Decision.SoftmaxWeights | analysis/CustomerDecisionSystem.cpp:150-155 | each weight is exp((score - lowest + 1) / 2) |
| Decision.Normalised | analysis/CustomerDecisionSystem.cpp:157-159 | each probability is its weight divided by the total |
| Decision.PositiveSum | analysis/CustomerDecisionSystem.cpp:150-155 | positive weights have a positive total, so the division is defined |
| Decision.NormalisedSumsToOne | analysis/CustomerDecisionSystem.cpp:146-159 | positive weights normalise to probabilities summing to 1 |
| Decision.NormalisedSum | analysis/CustomerDecisionSystem.cpp:157-159 | dividing every weight by a total divides their sum by it |
| Decision.DrawFrom | analysis/CustomerDecisionSystem.cpp:164-174 | the chosen position is the first whose running sum reaches the draw, or the last one as the fallback |
| Decision.PickByDraw | analysis/CustomerDecisionSystem.cpp:164-174 | the cumulative loop returns the position `DrawFrom` names |
| Decision.DrawMonotone | analysis/CustomerDecisionSystem.cpp:164-174 | a larger draw never picks an earlier position |
| Decision.DrawReachesBeforeFallback | analysis/CustomerDecisionSystem.cpp:157-174 | with positive weights and a draw in [0, 1], the running sum always reaches the draw, so the fallback is never the reason a position is picked |
| Decision.SoftmaxProbabilities | analysis/CustomerDecisionSystem.cpp:143-159 | the two softmax loops compute `Softmax` |
| Decision.ProbabilisticSelect | analysis/CustomerDecisionSystem.cpp:135-175 | the store returned is the one at the valid position the draw lands on |
| Decision.Chosen | analysis/CustomerDecisionSystem.cpp:116-131 | -1 when no position is valid, otherwise a displayed store whose adjusted score is acceptable |
| Decision.ChoiceProps | analysis/CustomerDecisionSystem.cpp:71-132 | the customer leaves when there are no scores or the best is below the threshold; a store chosen is displayed and acceptable after adjustment |
| Decision.ChooseAmong | analysis/CustomerDecisionSystem.cpp:116-131 | filtering then drawing gives `Chosen` |
| Decision.SelectStore | analysis/CustomerDecisionSystem.cpp:71-132 | `select_store` returns the decision `Choice` describes for the state it starts from |
| Decision.AppendKeepsFreshIds | analysis/CustomerDecisionSystem.cpp:189-201 | logging a reservation under the next id and moving the id on keeps reservation ids distinct and below the next id |
| Decision.CreateReservation | analysis/CustomerDecisionSystem.cpp:178-204 | succeeds exactly when the store exists and could accept; then a pending reservation is logged under the next id, the id moves on, that store alone gains one reservation and the customer's history records the attempt; otherwise nothing changes |
| Decision.AdjustedIgnoresVisits | analysis/CustomerDecisionSystem.cpp:89-113 | the adjustment reads the history only through its store records, so the visit count does not change it |
| Decision.ChoiceShown | analysis/CustomerDecisionSystem.cpp:71-132 | the decision is -1 or a displayed store, and -1 when nothing is displayed |
| Decision.Decide | analysis/CustomerDecisionSystem.cpp:30-34 | the scores are the customer's scores of the displayed stores, in order, and the decision is `Choice` of them in the state the call starts from: -1 or a displayed store, -1 when nothing is displayed |
| Decision.RecordVisit | analysis/CustomerDecisionSystem.cpp:16 | one more visit and no other change to the history; no store's score, no decision and no strategy's promise about a display changes with it |
| Decision.CountsAfterShowing | analysis/CustomerDecisionSystem.cpp:17-22 | after the strategy's own impression updates and the arrival's increments, every shown id and every id the strategy read has an entry, and each count grows by its number of appearances, twice that under Harmony |
| Decision.ShowPromised | analysis/CustomerDecisionSystem.cpp:17 | the display keeps the strategy's promise on the state before it, lists available stores, holds at most N (Amer: at most max(N, 1)), Harmony's scored ids are exactly the available stores in radius, and the counts change only as the strategy records |
| Decision.ShowAndCount | analysis/CustomerDecisionSystem.cpp:17-22 | the display keeps the strategy's promise on the state before it, lists available stores and holds at most N (Amer: at most max(N, 1)); Harmony's scored ids are the available stores in radius; the impression map gains an entry for each shown id and each id the strategy read, and each count grows by one per appearance (two under Harmony, whose display also counts); no decision changes |
| Decision.ShowStores | analysis/CustomerDecisionSystem.cpp:16-22 | one visit is recorded; the display keeps the strategy's promise as stated on the arriving state, lists available stores and holds at most N (Amer: at most max(N, 1)); Harmony's scored ids are the available stores in radius; the impressions change as `ShowAndCount` states, for all six strategies; stores, scores and decisions are as before |
| Decision.Reserve | analysis/CustomerDecisionSystem.cpp:36-48 | -1 and churn when the decision is -1 or its store is missing or full; otherwise the decided store, with the reservation logged, that store's count raised and the attempt recorded as `CreateReservation` states |
| Decision.ChooseAndReserve | analysis/CustomerDecisionSystem.cpp:24-48 | an empty display churns the customer; otherwise the scores and `Choice` of the display decide, and the store is reserved or the customer churns as `Reserve` states |
| Decision.ProcessCustomerArrival | analysis/CustomerDecisionSystem.cpp:12-49 | a visit is always recorded; the display keeps the strategy's promise (`StrategyPromise`) on the arriving state, lists available stores and holds at most N (Amer: at most max(N, 1)), and its impressions are counted as in `ShowStores` for every strategy; the ghost `choice` is `Choice` of the display and its scores in the arriving state; the result is that choice when its store exists and can accept, else -1 with the customer churned; on success exactly one pending reservation is logged under the next id, that store alone gains a reservation and the history records the attempt; on -1 no reservation, id or store count changes |
| Settlement.PendingOf | analysis/RestaurantManagementSystem.cpp:8-14 | exactly the positions of the store's pending reservations, in log order |
| Settlement.PendingOfAgree | analysis/RestaurantManagementSystem.cpp:8-14 | logs agreeing on a store's reservations give it the same pending list |
| Settlement.PickupTimes | analysis/RestaurantManagementSystem.cpp:17-20 | each reservation's pickup time in minutes, the key the sort compares |
| Settlement.SettleOrder | analysis/RestaurantManagementSystem.cpp:8-20 | one allowed order: the store's pending reservations, each exactly once and no others, by non-decreasing pickup time |
| Settlement.OrderFacts | analysis/RestaurantManagementSystem.cpp:8-20 | any time-sorted permutation of the pending list lists each pending reservation of the store once, by time |
| Settlement.AscendingByTime | analysis/RestaurantManagementSystem.cpp:17-20 | sorting by the time key orders the positions by pickup time |
| Settlement.PresentFlags | analysis/RestaurantManagementSystem.cpp:41-43 | one flag per reservation in the order: whether its customer is registered |
| Settlement.StorePlan | analysis/RestaurantManagementSystem.cpp:22-73 | one decision per pending reservation of the store, in time order |
| Settlement.Apply | analysis/RestaurantManagementSystem.cpp:77-101 | settling a reservation changes only its status and bags received |
| Settlement.ApplyPlan | analysis/RestaurantManagementSystem.cpp:39-72 | following a plan keeps the log's length |
| Settlement.ApplyPlanEffect | analysis/RestaurantManagementSystem.cpp:39-72 | each position of the order is settled by its own decision and every other reservation is left alone |
| Settlement.ApplyPlanNext | analysis/RestaurantManagementSystem.cpp:39-72 | no earlier step touches the reservation the next step settles |
| Settlement.StoreDay | analysis/RestaurantManagementSystem.cpp:7-73 | a store's settlement keeps the log's length |
| Settlement.PlanSettles | analysis/RestaurantManagementSystem.cpp:39-72 | following a whole plan over pending positions settles the log: each position by its own decision, everything else untouched |
| Settlement.StoreDayEffect | analysis/RestaurantManagementSystem.cpp:7-73 | a store settles only its own pending reservations, each by the decision of its place in the order, and leaves everything else alone |
| Settlement.SettlingOrderAgree | analysis/RestaurantManagementSystem.cpp:8-20 | the orders allowed for a store depend only on its own reservations and the pickup times |
| Settlement.StorePlanAgree | analysis/RestaurantManagementSystem.cpp:8-73 | so does the plan |
| Settlement.PresentFlagsAgree | analysis/RestaurantManagementSystem.cpp:41-43 | the flags depend only on the reservations in the order |
| Settlement.StoreDayAgree | analysis/RestaurantManagementSystem.cpp:7-73 | a store's settlement depends only on its own reservations and the pickup times, so settling other stores first changes nothing for it |
| Settlement.ApplyPlanAgree | analysis/RestaurantManagementSystem.cpp:39-72 | following a plan on two logs that agree on the order's positions gives the same entries wherever they agreed |
| Settlement.SettlesChain | analysis/RestaurantManagementSystem.cpp:6-75 | settling is transitive: settling after settling is settling |
| Settlement.SettledHistoryNone | analysis/Customer.cpp:127-138 | a history with nothing settled is unchanged |
| Settlement.SettledInteractionStep | analysis/Customer.cpp:127-138 | settling one of the customer's reservations adds one success or cancellation to its store's record and nothing else |
| Settlement.SettledHistoryStep | analysis/RestaurantManagementSystem.cpp:77-101 | one more settled reservation changes the history exactly as the success or cancellation record of its customer does, and other customers' histories not at all |
| Settlement.StepOtherInteractions | analysis/RestaurantManagementSystem.cpp:77-101 | another customer's settlement leaves the store records alone |
| Settlement.StepOwnKeys | analysis/Customer.cpp:127-138 | the customer's own settlement adds only its store to the records |
| Settlement.StepOwnInteractions | analysis/Customer.cpp:127-138 | the record at that store gains one success or cancellation and the others stay |
| Settlement.TouchedStoresChain | analysis/RestaurantManagementSystem.cpp:6-75 | the stores touched over two stretches of settling are the union of those of each |
| Settlement.SettledHistoryChain | analysis/RestaurantManagementSystem.cpp:6-75 | the history after two stretches of settling is the history of the whole stretch |
| Settlement.SettledInteractionChain | analysis/RestaurantManagementSystem.cpp:6-75 | the same holds for a store record |
| Settlement.CountNoneOutside | analysis/RestaurantManagementSystem.cpp:6-75 | no settlement is counted for a customer at a store not touched |
| Rationing.PresentCount | analysis/RestaurantManagementSystem.cpp:43 | the number of registered customers is at most the number of reservations |
| Rationing.Share | analysis/RestaurantManagementSystem.cpp:32-35 | the even share is the cap or the quotient, never above the cap, and every reservation can receive it from the stock |
| Rationing.Abundance | analysis/RestaurantManagementSystem.cpp:39-53 | one decision per reservation |
| Rationing.AbundancePrefix | analysis/RestaurantManagementSystem.cpp:39-53 | the decisions for the first n reservations do not depend on the later ones |
| Rationing.AbundanceStep | analysis/RestaurantManagementSystem.cpp:44-49 | a registered customer gets the share plus one while extras remain and the share is below the cap, which uses up one extra |
| Rationing.ExtraLeftRange | analysis/RestaurantManagementSystem.cpp:37-49 | the extras left stay between 0 and the extras at the start |
| Rationing.AbundanceTotals | analysis/RestaurantManagementSystem.cpp:37-53 | the bags handed out are the share per registered customer plus the extras used |
| Rationing.AbundanceConfirmsAll | analysis/RestaurantManagementSystem.cpp:39-53 | with enough stock every registered customer is confirmed |
| Rationing.Scarcity | analysis/RestaurantManagementSystem.cpp:54-72 | one decision per reservation |
| Rationing.Plan | analysis/RestaurantManagementSystem.cpp:22-73 | exactly the reservations without a registered customer are skipped; with too little stock the first `actual` get one bag and the rest are cancelled; with enough stock nobody is cancelled and each grant lies between the share and the cap |
| Rationing.PlanWhenAbundant | analysis/RestaurantManagementSystem.cpp:29-53 | with enough stock the plan is the abundance plan for share min(cap, actual / count) and the remainder as extras |
| Rationing.PlanWhenScarce | analysis/RestaurantManagementSystem.cpp:54-72 | with too little stock the plan is the scarcity plan |
| Rationing.PlanConfirmsBeforeCancelling | analysis/RestaurantManagementSystem.cpp:54-72 | no reservation is confirmed after one that was cancelled |
| Rationing.ExtraLeftShrinks | analysis/RestaurantManagementSystem.cpp:44-49 | the extras left never grow as customers are served |
| Rationing.AbundanceNonIncreasing | analysis/RestaurantManagementSystem.cpp:44-49 | an earlier registered customer never gets fewer bags than a later one |
| Rationing.AbundanceUsesExtras | analysis/RestaurantManagementSystem.cpp:44-49 | below the cap, extras go one each to the first customers until they run out |
| Rationing.PlanWithinStock | analysis/RestaurantManagementSystem.cpp:22-73 | no plan hands out more bags than the store really has |
| Rationing.ScarcityTotals | analysis/RestaurantManagementSystem.cpp:54-72 | with too little stock each confirmation is one bag, the confirmations are the registered customers among the first `actual`, and each registered customer is confirmed or cancelled |
| Rationing.PlanUsesAllStock | analysis/RestaurantManagementSystem.cpp:22-73 | when every customer is registered and the cap does not bind, the plan hands out every real bag |
| Rationing.AllPresent | analysis/RestaurantManagementSystem.cpp:43 | with every customer registered, the count is the number of reservations |
| Reconciliation.SettledCustomerStep | analysis/RestaurantManagementSystem.cpp:77-101 | one more settled reservation changes only its own customer, by one success (with the empty category boosted) or one cancellation (with the loyalty penalty) |
| Reconciliation.SettledStoreStep | analysis/RestaurantManagementSystem.cpp:77-101 | one more settled reservation changes only its own store, by one confirmation (rating +0.01) or one cancellation (rating -0.05) |
| Reconciliation.HandleConfirmation | analysis/RestaurantManagementSystem.cpp:89-101 | the reservation is confirmed with its bags, the customer records a success under the empty category, and the first store with its id, if any, raises its rating and confirmed counts |
| Reconciliation.HandleCancellation | analysis/RestaurantManagementSystem.cpp:77-87 | the reservation is cancelled, the customer records a cancellation and loses loyalty, and the first store with its id, if any, lowers its rating and raises its cancelled counts |
| Reconciliation.CollectPending | analysis/RestaurantManagementSystem.cpp:8-14 | the collecting loop lists exactly the store's pending reservations, in log order |
| Reconciliation.CustomerStates | analysis/RestaurantManagementSystem.cpp:41 | one state per registered customer |
| Reconciliation.StoreStates | analysis/RestaurantManagementSystem.cpp:7 | one state per store, in list order |
| Reconciliation.StoreIds | analysis/RestaurantManagementSystem.cpp:10 | the store ids, in list order |
| Reconciliation.ReflectsNone | analysis/RestaurantManagementSystem.cpp:6-75 | before anything is settled, every state reflects the empty set of settlements |
| Reconciliation.ReflectsStep | analysis/RestaurantManagementSystem.cpp:77-101 | settling one reservation through its customer and store keeps the states reflecting exactly the settlements made |
| Reconciliation.StoreStatesUpdate | analysis/RestaurantManagementSystem.cpp:97-100 | when only store i changed, the store states change at i only |
| Reconciliation.CustomerStatesUpdate | analysis/RestaurantManagementSystem.cpp:95 | when only one customer changed, the customer states change under that key only |
| Reconciliation.ConfirmAt | analysis/RestaurantManagementSystem.cpp:89-101 | confirming a pending reservation of store i changes that reservation, that customer and store i, each as one confirmation does, and nothing else |
| Reconciliation.CancelAt | analysis/RestaurantManagementSystem.cpp:77-87 | cancelling it changes that reservation, that customer and store i, each as one cancellation does, and nothing else |
| Reconciliation.CustomersAfter | analysis/RestaurantManagementSystem.cpp:39-72 | replaying a plan over the customers keeps the set of registered customers |
| Reconciliation.StoresAfter | analysis/RestaurantManagementSystem.cpp:39-72 | replaying a plan over the stores keeps the number of stores |
| Reconciliation.ReplayReflects | analysis/RestaurantManagementSystem.cpp:39-72 | after any number of steps of a store's plan, the customer and store states are the starting states with every settlement made applied, and the store has no cancellation before the plan's first one |
| Reconciliation.SettleNext | analysis/RestaurantManagementSystem.cpp:40-51 | the next reservation in the order is settled by its decision when its customer is registered and left pending otherwise |
| Reconciliation.SettleAbundant | analysis/RestaurantManagementSystem.cpp:29-53 | the abundance loop carries out the whole abundance plan |
| Reconciliation.SettleLookedUp | analysis/RestaurantManagementSystem.cpp:58-70 | the lookup of the customer, then the step of the plan |
| Reconciliation.SettleScarceConfirm | analysis/RestaurantManagementSystem.cpp:57-63 | the first scarcity loop carries out the plan's first `actual` steps |
| Reconciliation.SettleScarceCancel | analysis/RestaurantManagementSystem.cpp:66-72 | the second loop carries out the rest of the plan |
| Reconciliation.SettleByPlan | analysis/RestaurantManagementSystem.cpp:22-73 | a store with no pending reservation does nothing; otherwise the store carries out its whole plan |
| Reconciliation.ReplayOutcome | analysis/RestaurantManagementSystem.cpp:39-72 | replaying a store's whole plan settles only its own reservations and leaves states reflecting exactly those settlements |
| Reconciliation.StorePlanOrderly | analysis/RestaurantManagementSystem.cpp:8-73 | a store's order lists its pending reservations once each, and its plan settles only registered customers and never confirms after cancelling |
| Reconciliation.SettleStore | analysis/RestaurantManagementSystem.cpp:7-74 | one store's turn, in the order its sort produced, which may be any allowed order: the log becomes the store's own settlement of it in that order, other stores' reservations are untouched, and every customer and store reflects exactly the settlements made |
| Reconciliation.SettlingStarts | analysis/RestaurantManagementSystem.cpp:22-28 | before the first step nothing of the plan has been carried out |
| Reconciliation.SettlingEnds | analysis/RestaurantManagementSystem.cpp:22-74 | once every step is carried out, the log is the store's day and the states reflect it |
| DayEnd.SettledCustomerChain | analysis/RestaurantManagementSystem.cpp:6-75 | settling a customer over two stretches is settling it over their union |
| DayEnd.SettledStoreChain | analysis/RestaurantManagementSystem.cpp:6-75 | so is settling a store touched in only one of them, since its confirmations and cancellations are then not interleaved |
| DayEnd.ReflectsChain | analysis/RestaurantManagementSystem.cpp:6-75 | states reflecting two consecutive stretches reflect the whole |
| DayEnd.UntouchedWhenEqual | analysis/RestaurantManagementSystem.cpp:6-75 | a store whose reservations did not change had nothing settled |
| DayEnd.DayStart | analysis/RestaurantManagementSystem.cpp:6-7 | before the first store's turn the day has changed nothing |
| DayEnd.DayStepLog | analysis/RestaurantManagementSystem.cpp:7-74 | one more store's turn leaves earlier stores' reservations as their own settlement left them and settles this store's as its own settlement of the morning log |
| DayEnd.DayStep | analysis/RestaurantManagementSystem.cpp:7-74 | one more store's turn moves the whole day invariant on by one store |
| DayEnd.StocksOf | analysis/RestaurantManagementSystem.cpp:23-33 | each store's id, real bags and cap |
| DayEnd.SettleTurn | analysis/RestaurantManagementSystem.cpp:7-74 | store p's turn keeps the day invariant, one store further |
| DayEnd.ProcessEndOfDay | analysis/RestaurantManagementSystem.cpp:6-75 | each store settles in an allowed order of its own, whichever one the sort produces; afterwards every reservation of a listed store is as its own store's settlement of the morning log in that order leaves it (so the order of turns does not matter), reservations of unlisted stores are untouched, and every customer and store reflects exactly the settlements made |
| Metrics.Incremented | analysis/Metrics.cpp:97 | bumping a store's counter adds the store as a key if missing and raises its count by one, every other count unchanged |
| Metrics.DisplayedCounts | analysis/Metrics.cpp:95-99 | after logging a display list, every listed store is a key and each store's count has grown by exactly the number of times it occurs in the list |
| Metrics.PendingCountsNothing | analysis/Metrics.cpp:135-154 | a log with only pending reservations contributes no sold and no cancelled bags, per store or overall |
| Metrics.Books | analysis/Metrics.cpp:130 | the end-of-day pass sees, per store and in market order, the store's id, price per bag and real bag count |
| Metrics.Total | analysis/Metrics.cpp:160-163 | the total waste over the stores is never negative, since each store's unsold count is clamped at zero |
| Metrics.WorthIsPriceTimesTally | analysis/Metrics.cpp:143-151 | the revenue counted for a store (sold or lost) equals its price per bag times the bags sold, or times the number of cancelled reservations |
| Metrics.WorthWithoutConfirmed | analysis/Metrics.cpp:137-146 | a store with no confirmed reservation generates no revenue |
| Metrics.PerStoreKeys | analysis/Metrics.cpp:156-167 | after the end-of-day pass the per-store maps hold the old keys plus every listed store |
| Metrics.PerStoreLastWins | analysis/Metrics.cpp:156-167 | each listed store's entry is its own amount computed from the log (for a repeated id, that of its last listing) |
| Metrics.PerStoreKeepsOthers | analysis/Metrics.cpp:156-167 | entries of stores not in the market keep their old values |
| Metrics.TotalIsSumOfEntries | analysis/Metrics.cpp:139-167 | with distinct store ids, each total equals the sum of that measure's per-store entries over the listed stores |
| Metrics.TotalOneMore | analysis/Metrics.cpp:135-152 | one more reservation in the log raises the sold or cancelled total by what it counts for exactly when its store is listed |
| Metrics.TotalsCoverLog | analysis/Metrics.cpp:130-168 | with distinct ids and every reservation's store listed, the totals sold and cancelled equal the counts over the whole log |
| Metrics.TotalOfNothing | analysis/Metrics.cpp:124-126 | an empty log sells and cancels nothing |
| Metrics.Exposures | analysis/Metrics.cpp:173-176 | one exposure per store, in market order, being the store's display count (0 when it was never shown) |
| Markets.IdsOf | analysis/Metrics.cpp:174-175 | the business id of every store, one per store, in list order |
| Metrics.SumOfConstant | analysis/Metrics.cpp:185-191 | for n equal exposures v the plain sum is n*v and the rank-weighted sum is v*n*(n+1)/2 |
| Metrics.GiniWithoutExposure | analysis/Metrics.cpp:193-195 | when no store was ever shown the coefficient is 0 |
| Metrics.GiniOfEqualExposure | analysis/Metrics.cpp:178-200 | when every store was shown equally often the coefficient is 0 (perfect fairness) |
| Metrics.GiniOfSortedConstant | analysis/Metrics.cpp:196-200 | the closed formula gives 0 on a non-zero constant list |
| Metrics.EqualSharesOfCounts | analysis/Metrics.cpp:197-199 | the formula 2W/(nS) - (n+1)/n vanishes when W = v*n*(n+1)/2 and S = n*v |
| Metrics.MetricsCollector.constructor | analysis/Metrics.cpp:9-15 | every counter and total starts at zero and every per-store map empty |
| Metrics.MetricsCollector.LogCustomerArrival | analysis/Metrics.cpp:90-92 | the arrival count rises by one and nothing else changes |
| Metrics.MetricsCollector.LogCustomerLeft | analysis/Metrics.cpp:106-108 | the count of customers who left rises by one and nothing else changes |
| Metrics.MetricsCollector.LogStoresDisplayed | analysis/Metrics.cpp:95-99 | the display counts become the old counts plus each store's occurrences in the list (see DisplayedCounts) |
| Metrics.MetricsCollector.LogCancellation | analysis/Metrics.cpp:111-115 | one more cancelled bag, the given lost revenue added, and the reservation's store's cancel count raised by one |
| Metrics.MetricsCollector.LogConfirmation | analysis/Metrics.cpp:118-120 | bags sold grow by the bags received and nothing else changes |
| Metrics.MetricsCollector.LogEndOfDay | analysis/Metrics.cpp:123-169 | the totals restart and end as the sums over the stores of sold bags, cancelled reservations, clamped waste and their revenue; the per-store maps hold each store's own amounts; the revenue map keeps accumulating across days |
| Metrics.MetricsCollector.SettleStore | analysis/Metrics.cpp:130-168 | one store's pass adds its sold, cancelled, wasted and revenue amounts to the totals and sets its per-store entries |
| Metrics.MetricsCollector.ScanReservations | analysis/Metrics.cpp:135-154 | the inner pass returns the store's sold bags (also the bags given) and cancelled reservations and adds them and their revenue to the totals |
| Metrics.MetricsCollector.CalculateFairnessMetrics | analysis/Metrics.cpp:172-201 | the stored coefficient is the Gini coefficient of the stores' exposures; looking up an unseen store adds it with count 0 and changes no count |
| Metrics.MetricsCollector.CollectExposures | analysis/Metrics.cpp:173-176 | the exposures are the stores' display counts in market order, with the same side effect on the keys |
| Metrics.GiniCoefficient | analysis/Metrics.cpp:178-200 | the imperative sort-and-sum computation yields exactly the Gini coefficient of its input |
| Metrics.SumExposures | analysis/Metrics.cpp:185-191 | the loop yields the plain sum of its input and the sum weighted by rank (position i counts i+1 times) |
| Loader.Lower | analysis/RestaurantLoader.cpp:38-39 | lower-casing keeps the length and maps each character on its own |
| Loader.LowerIdempotent | analysis/RestaurantLoader.cpp:38-39 | lower-casing twice is lower-casing once |
| Loader.DropLeadingShape | analysis/RestaurantLoader.cpp:32 | erasing up to the first non-blank removes exactly a blank prefix and leaves a string that is empty or starts with a non-blank |
| Loader.DropTrailingShape | analysis/RestaurantLoader.cpp:33 | erasing after the last non-blank removes exactly a blank suffix and leaves a string that is empty or ends with a non-blank |
| Loader.TrimmedIsCore | analysis/RestaurantLoader.cpp:32-33 | the trimmed cell is a contiguous piece of the original with only spaces and tabs around it, and neither starts nor ends with one |
| Loader.TrimmedFixed | analysis/RestaurantLoader.cpp:32-33 | trimming leaves a cell unchanged exactly when it is empty or starts and ends with a non-blank |
| Loader.TrimIdempotent | analysis/RestaurantLoader.cpp:94-95 | trimming a trimmed value changes nothing |
| Loader.FindFirstNotBlank | analysis/RestaurantLoader.cpp:32 | the search returns the first position that is not a space or tab, or the length when there is none |
| Loader.FindLastNotBlank | analysis/RestaurantLoader.cpp:33 | the search returns one past the last position that is not a space or tab, or 0 when there is none |
| Loader.LeadingCut | analysis/RestaurantLoader.cpp:32 | erasing before the found position is exactly the blank-prefix removal |
| Loader.TrailingCut | analysis/RestaurantLoader.cpp:33 | erasing from the found position on is exactly the blank-suffix removal |
| Loader.Trim | analysis/RestaurantLoader.cpp:32-33 | the two erasures yield the trimmed cell |
| Loader.TrimFields | analysis/RestaurantLoader.cpp:93-96 | every value of a row is trimmed in place, the count unchanged |
| Loader.Fields | analysis/RestaurantLoader.cpp:78-90 | a data line always yields at least one field |
| Loader.ScanCounts | analysis/RestaurantLoader.cpp:80-89 | after any prefix the quote flag is the parity of the quotes seen and one field has been closed per comma outside quotes |
| Loader.ScanJoin | analysis/RestaurantLoader.cpp:80-89 | the closed fields and the open one, joined with commas, give back the prefix with its quotes removed |
| Loader.FieldsJoin | analysis/RestaurantLoader.cpp:78-90 | joining a line's fields with commas gives back the line without its quote characters, so no character other than a quote is lost |
| Loader.FieldsCount | analysis/RestaurantLoader.cpp:78-90 | a line has one field more than it has commas outside quotes |
| Loader.FieldsNoQuote | analysis/RestaurantLoader.cpp:81-82 | no field contains a quote character |
| Loader.FieldsPlain | analysis/RestaurantLoader.cpp:78-90 | on a line without quotes the fields are the comma-free pieces that rejoin to the line |
| Loader.UnquotedPlain | analysis/RestaurantLoader.cpp:81-87 | removing the quotes of a quote-free line leaves it as it is |
| Loader.SplitLine | analysis/RestaurantLoader.cpp:78-90 | the character loop produces exactly the line's fields |
| Loader.Cuts | analysis/RestaurantLoader.cpp:30 | cutting the header line at commas always yields at least one piece |
| Loader.CutsArePlainFields | analysis/RestaurantLoader.cpp:30-90 | on a quote-free line the header's comma cuts and the data-row splitter agree |
| Loader.ColumnOf | analysis/RestaurantLoader.cpp:42-53 | the index found is -1 or a column whose lower-cased name matches, and no later column matches (the last match wins) |
| Loader.ColumnOfSnoc | analysis/RestaurantLoader.cpp:42-53 | one more header column takes the index exactly when its lower-cased name matches |
| Loader.MapHeader | analysis/RestaurantLoader.cpp:26-55 | the header loop keeps the trimmed cells and finds every column's index as ColumnOf defines it |
| Loader.MatchColumn | analysis/RestaurantLoader.cpp:37-53 | one header cell updates the indices exactly as appending it to the header would |
| Loader.InferBusinessType | analysis/RestaurantLoader.cpp:118-145 | the inferred type is always bakery, cafe or restaurant |
| Loader.InferByKeywords | analysis/RestaurantLoader.cpp:124-145 | a name is a bakery exactly when its lower-cased form contains a bakery keyword, and a cafe exactly when it contains no bakery keyword but a cafe keyword |
| Loader.InferOfLower | analysis/RestaurantLoader.cpp:120-121 | inference ignores case: a lower-cased name gets the same type |
| Loader.BusinessType | analysis/RestaurantLoader.cpp:114-146 | the type is never empty; it is the row's non-empty type cell when the header has one, otherwise the inferred type |
| Loader.ParseRow | analysis/RestaurantLoader.cpp:103-156 | a row yields a store exactly when all six numeric cells convert, and then carries the row's name, branch and business type |
| Loader.ShortRowSkipped | analysis/RestaurantLoader.cpp:98-101 | a line with fewer fields than the header yields no store |
| Loader.LoadedRowsFacts | analysis/RestaurantLoader.cpp:70-157 | the data lines yield at most one store each, every store has a type, and without a type column every type is one of the three inferred ones |
| Loader.LoadRestaurantsFromCsv | analysis/RestaurantLoader.cpp:9-162 | loading fails and adds nothing exactly when the file cannot be opened or its header lacks a required column; otherwise it succeeds and appends, in file order, the store each data line yields |
| Loader.LoadedRowsSnoc | analysis/RestaurantLoader.cpp:70-157 | one more data line appends exactly what that line yields |
| Loader.LoadRows | analysis/RestaurantLoader.cpp:70-157 | the row loop appends the stores of the data lines after those already in the list |
| Loader.LoadLine | analysis/RestaurantLoader.cpp:71-156 | one data line yields nothing when empty or short, otherwise what parsing its trimmed fields gives |
| Loader.DefaultStores | analysis/RestaurantLoader.cpp:166-180 | fifteen stores with ids 1 to 15, known business types, positive bag counts and prices and ratings between 1 and 5 |
| Loader.GenerateDefaultRestaurants | analysis/RestaurantLoader.cpp:164-181 | the fifteen defaults are appended after the existing stores, which are kept |

## Left out

- Floating point: scores, ratings, loyalty, prices, revenue and the Gini coefficient are reals, so IEEE rounding is not modelled (neither in sums nor in comparisons of nearly equal scores).
- Square root (distance), logarithm (Andrew's damping) and exponential (softmax weights) are function parameters; only the facts the code relies on are required of them (a logarithm at least 0 from 1 on, a positive exponential).
- The random draw of `probabilistic_select` and its time-seeded generator: the uniform draw is a parameter.
- `std::sort` is not stable. The rankings sort with an insertion sort whose contracts state only "ordered and a permutation". The end-of-day settlement is stated for every order `std::sort` may produce (`SettlingOrder`: the pending reservations in any order of non-decreasing pickup time), not only for the insertion sort's order. The rankings are not stated for every tie order.
- The 70% share of Harmony's direct block, `(int)(N * 0.7f)`, is the exact floor of 7N/10; a single-precision product could round differently.
- Divisions whose divisor can be zero (price, willingness to pay, the softmax total, a store's reservation count) give 0 in the model, where the program would produce an infinity or NaN.
- `std::map` iteration order: Harmony's average over all impression counts is a sum over the map's keys, which does not depend on order.
- The `selected` set of each display strategy is modelled by membership in the list built so far.
- Impressions: `process_customer_arrival` adds one impression per appearance for every strategy, and Harmony's display has already added one itself, so a Harmony arrival adds two; the model states exactly that. The simulation loop (analysis/SimulationEngine.cpp) asks for a display once more per arrival, which Andrew and Harmony also count; that loop is not part of this model.
- `log_reservation` is not modelled: its body is empty.
- `print_summary`, `print_summary_to_stream`, `export_results` and every console message: output only.
- Loader: opening and reading the file is modelled as an optional list of lines (`Nothing` when it cannot be opened), so `getline`'s treatment of a final newline and of carriage returns is not modelled; `stoi` and `stof` are parameter functions that may fail, which stands for their exceptions; loaded rows are returned as `StoreRow` values rather than constructed `Restaurant` objects.
- The default table lists "Panera Bread" as a restaurant although name inference would call it a bakery; the table is kept as written.
- DayEnd.ProcessEndOfDay: requires distinct store ids and non-negative real bag counts; with a negative count the source's scarcity branch would index before the start of its pending list, and with a repeated id a reservation would be settled by the first matching store only.
- Customers.Customer.WithSegment: the C++ default argument `seg = "regular"` has no Dafny counterpart; a caller passes "regular" explicitly.
- Display.GetDisplayedStores and the display strategies require N >= 0: a negative display count is never passed by the program.
- ArrivalGenerator, SimulationEngine and main (customer generation, the daily loop and inventory reseeding) are not part of this model.

## Findings

| source | as written | input that shows it | evidently intended | confidence | as-written member | corrected member |
|---|---|---|---|---|---|---|
| analysis/RankingAlgorithms.cpp:162-170 | the personalised count is raised to at least 3 after being capped by the number of scored stores, and the first selection loop indexes the scores up to that count, bounded only by N | two available stores and N = 5: the count is 3 and the loop reads a third, non-existent pair | the first selection never takes more pairs than there are scored stores | not executed | SamaDisplay.SelectOneOverreadsExample | SamaDisplay.SelectOneCount |
