# Exoplanet catalogue engine — a Dafny model

This project models the logic inside the EXOPEDIA web application's `app.js` that is
not presentation. That logic works over a fixed catalogue of five exoplanets:

- similarity scoring and ranking against a target radius and orbital period;
- the simulated AI classifier's decision table and its "similar planets" list;
- three kinds of catalogue search: text plus classification, named quick filters, and advanced range filters;
- the 3D explorer's visibility rules, visible count and mean distance, and zoom clamp;
- the bounded activity history with its type and date views;
- the upload extension check, the analysis-start guard and the getting-started tutorial's step counter.

Everything is a pure function over immutable datatypes. The one exception is the
explorer's scan, which is a loop method checked against a reference filter.

- Every `Math.random()` draw is a parameter, taken from `[0, 1)`.
- Every `Date.now()` / `new Date()` reading is an integer parameter `now`.
- Numbers are exact `real`s.
- Catalogue selection is one generic, order-preserving `Seqs.Filter`. Every search, preset,
  explorer view and history view is proved equal to a single `Filter` by a predicate that
  states what the view shows. Each result is therefore an order-preserving sublist of its
  input (`Seqs.Subseq`) that keeps every copy of each element satisfying the predicate
  and no copy of any other (`Seqs.FilterCounts`).

Modules, one per file: `Basics`, `Seqs` (filtering), `Text` (lower-casing, `includes`,
`split`, `parseInt`), `Catalog`, `Similarity`, `Analysis`, `Search`, `Explorer`, `History`,
`Session`.

Behaviour of `app.js` that the model keeps as it is:

- Similarity scores are on a 0–100 scale.
- An unrecognised quick-filter name returns the whole catalogue.
- A verdict's key factors keep the order of the application's factor list, which
  `Analysis.KeyFactorsByImportance` shows is already in descending importance.
- Starting an analysis with no data does nothing.
- The year field of the advanced filters is read with `parseInt` and no radix, so
  "0x7DF-0x7E4" is the range 2015–2020.
- Every "Get Started" click registers the tutorial's button listeners again (see Findings).

## Model

| member | source | states |
|---|---|---|
| Similarity.Score | app.js:2535-2546 | With non-zero targets the score is non-negative, and with positive targets it is at most 100. |
| Similarity.ScorePerfect | app.js:2538-2546 | With positive targets the score is exactly 100 when the planet's radius and period both equal the targets, and only then. |
| Similarity.ScoreMonotone | app.js:2538-2546 | A planet deviating less from both targets never scores lower. |
| Similarity.QualifyingIsScoredFilter | app.js:2535-2549 | Dropping by distance, scoring, then dropping by threshold equals scoring the catalogue planets that pass both tests, in catalogue order. |
| Similarity.SortBySimilarity | app.js:2550 | The sort returns a permutation of its input (same length, same multiset), in non-increasing similarity order. |
| Similarity.SortStable | app.js:2550 | The sort is stable: for every similarity value, the entries with that value keep their relative order. |
| Similarity.FindSimilarByParameters | app.js:2526-2552 | At most ten results, in non-increasing similarity. Each result is a catalogue planet within `maxDistance`, scored at least `threshold`, carrying its true score. |
| Similarity.FindSimilarComplete | app.js:2549-2551 | The result has min(10, number qualifying) entries. When at most ten planets qualify, every one of them appears. |
| Similarity.FindSimilarKeepsBest | app.js:2550-2551 | A qualifying planet that is cut scores no higher than any returned one. |
| Similarity.FindSimilarTiesInCatalogueOrder | app.js:2550-2551 | Results with equal similarity appear in catalogue order. |
| Analysis.Accuracy | app.js:915-916 | The reported accuracy 98.5 − 2·draw lies in (96.5, 98.5]. |
| Analysis.Decide | app.js:922-931 | The verdict is confirmed exactly when accuracy > 96 and the random factor > 0.3. The confidence is the accuracy for a confirmation, 0.9 of it for a candidate and 0.8 of it for a false positive. |
| Analysis.DecideMonotone | app.js:922-931 | Raising the accuracy or the random factor never weakens the verdict (false positive < candidate < confirmed). |
| Analysis.FalsePositiveNeedsLowAccuracy | app.js:922-931 | The table's false-positive row is taken exactly when accuracy ≤ 90, or accuracy ≤ 93 with a factor ≤ 0.5. |
| Analysis.ScaledDraw | app.js:941 | A factor score or similarity, draw·0.3 + 0.7, lies in [0.7, 1.0). |
| Analysis.FindSimilarPlanets | app.js:991-1002 | The similar planets are the first min(3, #confirmed) confirmed catalogue planets, in catalogue order, each with a similarity in [0.7, 1.0). |
| Analysis.SimulateAnalysis | app.js:910-948 | Never false-positive. Confirmed iff the decision draw > 0.3, with confidence = accuracy; otherwise candidate with 0.9·accuracy. Confidence lies in (86.85, 98.5]. The insufficient-data flag holds iff its draw < 0.2. Key factors keep their names and weights, scored in [0.7, 1). The similar planets are those `findSimilarPlanets` gives for the similarity draws. Processing time lies in [1, 3); the timestamp is the clock. |
| Analysis.KeyFactorsByImportance | app.js:299-337 | The application's factor list, hence every verdict's key factors, is in strictly descending importance. |
| Analysis.SampleSimilarPlanets | app.js:225-296 | On the shipped catalogue the similar planets are Kepler-452b, TRAPPIST-1e and K2-18 b. |
| Analysis.WorkedExample | app.js:915-934 | Draws 0.5, 0.6, 0.8 give a confirmed verdict at 97.5 with no insufficient-data flag. |
| Seqs.Filter | app.js:1533-1546 | The result is an order-preserving sublist of the input holding exactly the accepted elements. |
| Seqs.FilterCounts | app.js:1533-1546 | Filtering keeps every copy of an accepted element and none of a rejected one, so with the sublist property the result is fixed. |
| Seqs.FilterFusion | app.js:1533-1546 | Two successive filters equal one filter by the conjunction, which is how the chained `results = results.filter(...)` steps compose. |
| Basics.Round | app.js:2042-2043 | `Math.round` gives the integer within half of its argument, rounding halves up: `x - 0.5 < r <= x + 0.5`. |
| Basics.RoundMonotone | app.js:2042-2043 | `Math.round` never orders two numbers the other way round. |
| Text.LastSegment | app.js:793 | `split(sep).pop()` is a suffix of the name that contains no separator. When it is shorter than the name, a separator comes just before it. |
| Text.NatToString | app.js:2665 | Template rendering of a count gives a non-empty run of decimal digits, and a single digit exactly for counts below 10. |
| Text.DigitsValueOfNatToString | app.js:2665 | Reading the rendered digits back in base 10 gives the count, so the rendering loses nothing. |
| Text.Lower | app.js:1527 | Lower-casing keeps the length and maps each letter A–Z to its lower-case form, leaving other characters alone. |
| Text.Contains | app.js:1536-1538 | `includes` never finds a needle longer than the text, and always finds the empty needle. |
| Text.ContainsIffOccurs | app.js:1536-1538 | `includes` holds exactly when the needle occurs at some position of the text. |
| Text.Split | app.js:2647-2652 | `split` gives at least one piece and no piece contains the separator. |
| Text.JoinSplit | app.js:2647-2652 | `split` loses nothing: joining its pieces restores the text. |
| Text.SplitJoin | app.js:2647-2652 | Splitting a join of separator-free pieces returns the pieces. |
| Text.ParseInt | app.js:2647-2651 | `parseInt` without a radix yields a number exactly when a digit comes first, or a hexadecimal digit right after a "0x"/"0X" prefix. The number is never negative. |
| Text.ParseIntNatToString | app.js:2649-2651 | `parseInt` reads back a decimal number followed by any non-digit text, unless the number is 0 and the text starts with 'x' or 'X'. |
| Text.ParseIntHex | app.js:2647-2651 | After a "0x"/"0X" prefix, `parseInt` reads the hexadecimal digits up to the first character that is not one. |
| Text.ParseIntHexExamples | app.js:2647-2651 | "0x10" reads as 16 and a bare "0x" as NaN. |
| Search.PerformSearch | app.js:1522-1547 | The search equals one order-preserving filter: a typed query must match, and a chosen class must equal the planet's. |
| Search.SearchResultsMatch | app.js:1527-1547 | A planet is shown iff it is in the catalogue, has the chosen class when one is chosen, and its lower-cased name, mission or id contains the lower-cased query at some position. |
| Search.SearchEmptyIsCatalogue | app.js:1530-1547 | With no query and no class chosen, the whole catalogue is shown. |
| Search.SearchIgnoresCase | app.js:1527 | Lower-casing the query does not change the results. |
| Search.SampleCandidateSearch | app.js:1542-1547 | Choosing CANDIDATE alone on the shipped catalogue shows TOI-715 b only. |
| Search.ApplyQuickFilter | app.js:1598-1622 | Each preset equals one filter of the catalogue by its criterion, so it keeps exactly the planets meeting it, in order. An unrecognised name returns the catalogue unchanged. |
| Search.SampleHabitable | app.js:1619-1621 | "habitable" on the shipped catalogue yields Kepler-452b, TRAPPIST-1e, K2-18 b. |
| Search.SampleHotJupiter | app.js:1613-1618 | "hot-jupiter" on the shipped catalogue yields nothing. |
| Search.SampleEarthLike | app.js:1605-1612 | "earth-like" on the shipped catalogue yields Kepler-452b, TRAPPIST-1e, LHS 1140 b. |
| Search.ApplyAdvancedFilters | app.js:2615-2657 | The six conditional filters equal one filter. A planet is kept iff each filled-in bound holds inclusively (NaN rejects), the mission is equal, and the discovery year lies within the range. The result is an order-preserving sublist. |
| Search.AdvancedEmptyIsCatalogue | app.js:2622-2657 | An empty form shows the whole catalogue. |
| Search.AdvancedYearRange | app.js:2646-2656 | With the year range "A-B", a planet whose date starts "Y-" passes exactly when A ≤ Y ≤ B. |
| Search.HexYearRange | app.js:2646-2651 | The year field "0x7DF-0x7E4" reads as the range 2015 to 2020. |
| Search.SingleYearRejectsAll | app.js:2646-2656 | A year field without '-' has no end year, so no planet passes. |
| Search.NotANumberRejectsAll | app.js:2622-2641 | A numeric field that parses to NaN rejects every planet. |
| Search.SampleMissionK2 | app.js:2642-2645 | Mission "K2" on the shipped catalogue yields K2-18 b and LHS 1140 b. |
| Explorer.FilterExplorerPlanets | app.js:1985-2044 | Each planet's flag is its visibility. The count is the number of visible planets (≤ catalogue size). The average is the rounded mean distance of the visible planets, or 0 when none are. |
| Explorer.ScanCatalog | app.js:1990-2037 | The loop's flags, count and summed distance agree with the reference filter and sum. |
| Explorer.AverageWithinSlider | app.js:1996-2043 | With non-negative distances the average is never negative, and never exceeds the distance slider when anything is visible. |
| Explorer.GiantIsLarge | app.js:2000-2005 | A planet shown as "giant" is also shown as "large". |
| Explorer.SmallLargePartition | app.js:2000-2003 | "small" and "large" split the planets the other controls let through, with no overlap. |
| Explorer.HabitabilityPartition | app.js:2008-2022 | "high", "medium" and "low" are mutually exclusive and together cover every score. |
| Explorer.ResetShowsNearbyPlanets | app.js:2050-2057 | After a reset a planet is visible exactly when it lies within 1500 light years. |
| Explorer.SampleAfterReset | app.js:2050-2057 | After a reset all five shipped planets are visible. |
| Explorer.SampleAverageAfterReset | app.js:2041-2043 | After a reset the shipped planets' mean distance rounds to 349 light years. |
| Explorer.ZoomExplorer | app.js:2133-2141 | The new scale lies in [0.5, 3]. It is the product when that is in range, and otherwise the nearer bound. |
| History.AddToHistory | app.js:1677-1684 | The item, stamped with the clock, comes first. The rest is the old history's first min(49, n) entries, and the length is min(50, n+1). |
| History.ReplayKeepsNewest | app.js:1682-1684 | After any run of additions the history is the newest fifty stamped items, newest first, followed by what was there. |
| History.ReplayBounded | app.js:1684 | However many additions, the history holds min(50, old + added) items. |
| History.FilterByType | app.js:1692-1699 | The list view is the whole history for "all", and otherwise one filter by the chosen type: an order-preserving sublist holding exactly the items of that type. |
| History.FilterSince | app.js:2219-2239 | The date view is the whole history without a cutoff, and otherwise one filter: an order-preserving sublist holding exactly the items at or after the cutoff. |
| History.Timeline | app.js:2203-2239 | The timeline equals one filter: the chosen type (an empty choice means "all") and not older than the cutoff. |
| History.AddThenFilterByType | app.js:1682-1699 | A typed view of the history after an addition gains the new item exactly when it is of that type. |
| History.ClearHistory | app.js:1777-1789 | A confirmed clear empties the history; a declined one leaves it as it was. |
| History.ClearedViewsEmpty | app.js:1777-1789 | A confirmed clear leaves nothing in either view, and the next addition is then the only item. |
| Session.FileExtension | app.js:792-793 | The extension is '.' followed by the lower-cased text after the name's last '.', or the whole name lower-cased when it has no '.'. |
| Session.ExtensionAllowedIff | app.js:791-797 | A name is accepted exactly when the text after its last '.' spells csv or fits in any case. A name without '.' is judged by its whole text. |
| Session.ProcessFile | app.js:787-801 | An accepted file becomes the session's upload; any other file leaves the session unchanged. |
| Session.UploadEnablesAnalysis | app.js:837-839 | A fresh session cannot analyse. After an upload the session can analyse exactly when it already could or the file was accepted. |
| Session.StartAnalysis | app.js:853-904 | Without data nothing changes. Otherwise the history is headed by an in-progress analysis item. Its id and timestamp are both the clock (`Date.now()` / `new Date()`), and it names the upload, or else the manual input, as its source. The upload and manual fields stay unchanged, and the older items follow, capped at 50. |
| Session.RecordCompletedAnalysis | app.js:1054-1061 | A completed item with the verdict's label, rounded confidence and timing heads the history. |
| Session.LoggedConfidence | app.js:1054-1061 | A simulated verdict is logged with confidence 97..99 when confirmed and 87..89 as a candidate. |
| Session.SearchAndLog | app.js:1549-1559 | Only the history changes. When a query was typed, a completed search item with the lower-cased query and the result count, stamped with the clock, heads the history; otherwise the session is unchanged. |
| Session.QuickFilterAndLog | app.js:1624-1633 | Only the history changes. A completed "Quick Filter: name" item with the result count, stamped with the clock, always heads it. |
| Session.AdvancedFilterAndLog | app.js:2659-2668 | Only the history changes. A completed "Advanced Filter (n results)" item with the result count, stamped with the clock, always heads it. |
| Session.AdvancedLabelReadsBack | app.js:2659-2668 | The logged advanced-filter text carries the result count, and `parseInt` reads it back. |
| Session.PrevStep | app.js:2318-2323 | One "previous" listener moves back one step, and stays on the first. |
| Session.NextStep | app.js:2327-2339 | One "next" listener moves forward one step, and finishes from the last. |
| Session.Press | app.js:2318-2343 | A click runs every registered listener on the shared step. With L listeners "next" moves L steps or finishes, and "previous" moves back L steps, stopping at the first. |
| Session.Opened | app.js:601-604 | After n "Get Started" clicks the tutorial is on its first step, with n listeners per button as written and one as intended. |
| Session.RunStaysInRange | app.js:2318-2344 | Whatever buttons are pressed, with any number of listeners, the tutorial is on one of its four steps or finished. |
| Session.NextsReach | app.js:2327-2339 | With L listeners, k presses of "next" from step s reach step s + k·L, or finish once that passes the last step. |
| Session.FourNextsFinish | app.js:2327-2339 | On the first opening, k presses of "next" finish the four-step tutorial exactly when k ≥ 4. |
| Session.ReopenedTutorialSkips | app.js:601-604 | On the n-th opening, k presses of "next" finish the tutorial exactly when k·n ≥ 4. |
| Session.SecondOpeningSkipsStep | app.js:601-604 | On the second opening one "next" jumps from the first step to the third, and two presses finish. |
| Session.EveryOpeningTakesFourNexts | app.js:2312-2343 | With the listeners registered once, every opening takes exactly four presses of "next", and "previous" moves one step. |

## Findings

| source | as written | input that shows it | evidently intended | confidence | as-written member | corrected member |
|---|---|---|---|---|---|---|
| app.js:601-604 | every "Get Started" click calls `initTutorial`, which adds another click listener to each tutorial button without removing the earlier ones; all of them step the shared counter | open the tutorial, close it, open it again, press "next" once: the guide jumps from step 1 to step 3 | one listener per button, so every opening walks through the four steps one at a time | not executed; high | Session.SecondOpeningSkipsStep | Session.EveryOpeningTakesFourNexts |

## Left out

- Rendering: HTML templates, `innerHTML`, modals, alerts and the navigation. These only display results.
- Timers and animation: `setInterval`/`setTimeout` progress bars, counter animation, orbit animation. These are asynchronous effects.
- Random sources are not modelled. Each draw is a parameter in [0, 1). The dataset pick (`getDatasetInfo`), the batch comparison's random scores and the fixed parameter list carry no logic.
- The clock is not read. `now` and every timestamp are integer parameters.
- The history's date cutoff is a parameter, `Option<int>`. The today/week/month calendar arithmetic and an unrecognised cutoff name are left out, because they are host date logic.
- IEEE-754 arithmetic is replaced by exact reals: rounding of `0.9·accuracy`, of divisions, and of `toFixed(1)` on the processing time, which the model keeps as a real.
- Similarity.Score: requires non-zero targets. Division by a zero target gives Infinity or NaN in the application, and exact reals have neither.
- Text.Lower: lower-cases ASCII letters only. Full Unicode case mapping is left out.
- Text.ParseInt: reads decimal digits, or hexadecimal digits after "0x"/"0X". `parseInt`'s skipping of leading white space and its sign handling are left out, so a year field like "2015 - 2020" is not modelled.
- Search.ApplyAdvancedFilters: a numeric form field is given as already read by `parseFloat`: blank, a number, or NaN.
- Explorer.FilterExplorerPlanets: assumes one planet element per catalogue record in catalogue order, as the rendering creates them.
- Explorer.ZoomExplorer: takes the current scale as a number. Reading it back from the CSS transform string with a regular expression is left out.
- JSON export and download, Web Share, clipboard, fullscreen, `history.pushState`, planet detail pages and `showPlanetDetails`: browser I/O outside the catalogue engine.
- The manual-entry form's values are held but not validated, as in the application.
