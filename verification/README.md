# Bookmaker list: ordering, star buckets and load validation

A Dafny model of the logic in `script.js` that decides what a bookmaker list
shows. The page fetches `bookmakers.json`, rejects anything that is not a
non-empty array, sorts a copy of the entries by the ordering a tab asks for,
and renders each entry with a five-glyph star block. A failure at any step
shows a single error row instead.

Modules:

- `Wrappers` (wrappers.dfy): `Option` and `Result`.
- `Sorting` (sorting.dfy): a descending insertion sort on a real-valued key. It
  is proved to return a permutation of its input that is non-increasing on the
  key. `KeysDetermined` proves that any two such orderings carry the same key
  at every position. So whatever tie order the host `Array.prototype.sort`
  picks, it agrees with the model everywhere except in the order of equal-key
  entries.
- `Bookmakers` (bookmakers.dfy): the `Entry` record (the four sort fields plus a `display` field for what only the renderer reads), the `Mode` variant
  (`ByUser | ByEditors | ByBonus | BySubrating(id) | Other`), the `switch` on
  the `type` string (`ModeOf`), the bonus coercion `parseFloat(String(bonus)) || 0`
  (`BonusValue`), the reliability default `reliability || 0`, and `SortBy`,
  which is `sortBookmakers`.
- `Stars` (stars.dfy): the filled-star count of `renderStars`, checked against
  an independent count of passed thresholds, and the glyph loop (`RenderStars`).
- `Pipeline` (pipeline.dfy): `loadBookmakers` after the fetch has answered.
  It covers the status check, the decoder outcome, the shape check
  (`Validate`), the sort, and the message shown on each failure.

`parseFloat` is a parameter of type `string -> Option<real>`, where `None`
stands for NaN. The properties hold for every such parser. The fetch is a
parameter too: a `Response` holding the status and the decoded body, or the
decoder's message.

## Model

| member | source | states |
|---|---|---|
| Sorting.SortDescending | script.js:36-40 | the sorted copy has the same length and the same multiset of entries as the input, and no entry is followed by one with a larger key |
| Sorting.KeysDetermined | script.js:40 | two descending orderings of the same entries agree on the key at every position, so the comparator sort is determined up to the order of ties |
| Bookmakers.ModeOf | script.js:38-59 | a `type` string yields the default mode exactly when it is none of byuser, byeditors, bybonus and bysubrating; any other mode is the one that `type` names, whatever the `id`; bysubrating keeps the sub-criterion it was given |
| Bookmakers.ModeOfTabParameters | script.js:38-53 | each known mode is selected by the `type` and `id` parameters that name it |
| Bookmakers.BonusValue | script.js:47-49 | a missing or null bonus, or one that does not parse, counts as 0; otherwise the bonus counts as its parsed value |
| Bookmakers.ReliabilityValue | script.js:54 | a missing reliability counts as 0; a present one counts as itself |
| Bookmakers.ModeKey | script.js:40-54 | the key each comparator subtracts: reviews_count for byuser, rating for byeditors, the coerced bonus for bybonus, and the reliability (missing = 0) for bysubrating |
| Bookmakers.SortBy | script.js:35-61 | every mode returns a permutation of the input; byuser is non-increasing in reviews_count, byeditors in rating, bybonus in the coerced bonus, and bysubrating with reliability in reliability (missing = 0); any other sub-criterion and any unknown mode return the input order unchanged |
| Bookmakers.SortByAgreesWithAnyHostSort | script.js:39-54 | any permutation of the input that is non-increasing on the mode's key carries the same key as SortBy's result at every position |
| Bookmakers.ByUserExample | script.js:39-40 | entries with 10, 30 and 20 reviews come out as the 30, 20 and 10 entries, in that order, under byuser |
| Stars.FilledStars | script.js:96-103 | the filled count is in [0, 5]; a count n > 0 means the rating exceeds n - 0.5, and a count n < 5 means the rating is at most n + 0.5, so each threshold belongs to the lower bucket |
| Stars.FilledStarsCountsThresholds | script.js:98-103 | the filled count equals the number of thresholds 0.5, 1.5, 2.5, 3.5, 4.5 the rating strictly exceeds |
| Stars.FilledStarsMonotone | script.js:98-103 | a higher rating never shows fewer filled stars |
| Stars.FilledStarsBoundaries | script.js:98-103 | 4.5 gives 4, 4.51 gives 5, 0.5 gives 0, 0.51 gives 1, 5 gives 5, and 0 gives 0 |
| Stars.RenderStars | script.js:105-113 | the star block has exactly five glyphs, the filled ones first and as many as the filled count, then 5 - filled empty ones |
| Pipeline.Decimal | script.js:24 | the status is written as a non-empty string of decimal digits with no leading zero |
| Pipeline.DecimalRoundTrip | script.js:24 | reading the written status back gives the status, so the error text names the status the server sent |
| Pipeline.Validate | script.js:28 | a decoded value passes, unchanged, exactly when it is a non-empty array; anything else is a data-shape error |
| Pipeline.Load | script.js:21-33 | rows are shown exactly when the status is ok, the body decodes and it is a non-empty array; the rows are the sorted entries and never empty; a bad status shows the loading-failed text followed by the status; a decoder failure shows the decoder's message; any other shape shows the no-data text (the steps are `Receive` for script.js:23-26, `Validate`, and `Message` for the texts at script.js:24, 28 and 32) |
| Pipeline.LoadRendersPermutation | script.js:27-30 | a successful load renders every fetched entry exactly as often as it was fetched, and nothing else |
| Pipeline.Status500Shown | script.js:22-32 | a response with status 500 shows an error row whose text ends in "500" |
| Pipeline.EmptyOrNonArrayShowsError | script.js:28 | an empty array or a JSON object shows the no-data error row, never an empty list |

## Left out

- Tab wiring, the "active" class toggle, and reading `type` and `id` from the link with `URL`/`searchParams` (script.js:1-19). These are browser APIs. The model starts from the `type` string and the optional `id`.
- The network request itself and the JSON decoder (script.js:22-26). They are parameters: a `Response` carries the status and the decoder's result.
- The HTML strings built by `renderBookmakers`, the star `<img>` markup and the DOM write in `showError` (script.js:64-92, 108-115, 119-122). The model stops at the list of entries handed to the renderer, the glyph sequence and the error text.
- The race between overlapping loads. This is concurrency; each `Load` is one complete run.
- The grammar of `parseFloat` and IEEE-754 arithmetic. Ratings and keys are `real`. `rating` and `reviews_count` are always present, because a missing one makes the comparator return NaN and the sort outcome unspecified.
- A `bonus` given as a JSON number enters the model as its `String(...)` text; a missing or null bonus is 0 directly, as `parseFloat("null")` and `parseFloat("undefined")` are NaN.
- A `reliability` that is present but falsy in JavaScript other than 0 (false, an empty string) is not modelled, because `reliability` is a number here.
- Sort stability and tie order. The source does not promise them. `SortBy` fixes one admissible order, and `SortByAgreesWithAnyHostSort` shows that every other admissible order differs from it only among equal keys.
- `Response.Ok` is a status from 200 to 299, as in the Fetch Standard. The client's other reasons for a failed fetch (network error, aborted request) are not modelled.
- Array elements that are not entries. The source checks only that the decoded value is a non-empty array (script.js:28). An element such as `null` passes that check, then throws when the comparator or the renderer reads one of its fields (script.js:40, 43, 49, 54, 71). The `.catch` at script.js:32 turns that exception into an error row. In the model, `JArray` holds entries only, so this path is not modelled. `Load`'s "rows exactly when a non-empty array" holds for arrays of entries.
