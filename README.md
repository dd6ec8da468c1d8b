# Profiles: ticker listing, profile ids and ticker merge

This project models the computing core of the `Profiles` React component of the
stock-tracker front end, and proves properties of that model in Dafny. The
component keeps a list of profiles, each with an optional stock ticker. The core
has three pieces:

- **Ticker listing parser** (`parseTickerSymbols`). It reads the listing service's
  comma-separated text. It finds the `symbol` column in the header row. It then
  collects the trimmed `symbol` field of every data row that has a field at that
  position.
- **Id allocation** (`generateUniqueId`) and the record `createProfile` posts for a
  new profile.
- **Ticker merge** (`updateTicker`). It finds the profile by id and waits for the
  prediction service's answer. Then it overwrites the profile's `ticker`, `plot` and
  `risk_output` in place, before the record is written back.

Files:

- `wrappers.dfy` defines `Option` and `Result`.
- `text.dfy` defines the JavaScript primitives the parser uses: `split` on one
  character, `trim` and `indexOf`. Each comes with the lemmas that pin it down.
  `Split` is inverted by `Join` in both directions.
- `ticker_listing.dfy` has the parser. `ParseTickerSymbols` is the loop of the
  source. It is proved equal to the specification function `TickerSymbols`, and the
  lemmas state what that function yields.
- `profile_store.dfy` has the profile records, `GenerateUniqueId`, `CreateProfile`,
  the specification of the merge (`MergeTicker`) and the class `Profiles`. That class
  holds the profile list, and its `UpdateTicker` method changes the list in place.

Network outcomes are inputs to the model. The prediction outcome is a
`PredictionOutcome`: either `Rejected`, or `Resolved` with the response's `data`,
which is `None` when that `data` is null or undefined. The listing body is a
`string`.

Behaviour the model follows from the code:

- A data row is skipped only when it has no field at the symbol position
  (`row.length > symbolIndex`, Profiles.js:30). Under the header `symbol,name`, the
  one-field row `BB` is kept, so the body `symbol,name\nAAA,Acme\nBB` yields
  `["AAA", "BB"]` (`ShortRowKept`). With the symbol in the first column, even an
  empty trailing row contributes an empty symbol.
- When no header field is exactly `symbol`, the index is -1. The first data row then
  makes `row[-1].trim()` throw. This is modelled as `Err(MissingSymbolColumn)`. A
  body without any line break has no data row, so with such a header it still yields
  an empty list (`ParseFails`).
- An id is fresh only with respect to the profiles currently listed. After the
  newest profile is deleted, the next profile created gets the same id again
  (`DeletedNewestIdIsReused`).
- In `updateTicker`, the prediction request is sent even when no profile has the
  id. The rejection of that request is observed first (the `await` at line 99).
  Only after that does the `undefined` profile raise an error (line 100). In both
  cases nothing is changed.
- When the prediction resolves but its `data` is null or undefined, the ticker is
  written into the profile (line 100) before reading `plot` throws (line 101). The
  catch at line 105 leaves the local list with the new ticker and the old plot and
  risk assessment, and nothing is written back (`NullDataLeavesTickerOnly`).
- The merge writes only `ticker`, `plot` and `risk_output`. It leaves the other
  members of `data` as they were, and it does not reset any view flag.

## Model

| member | source | states |
|---|---|---|
| Text.Split | Profiles.js:25-29 | `split` on one character gives at least one piece, and no piece contains the separator |
| Text.JoinSplit | Profiles.js:25-29 | joining the pieces of a split with the separator gives back the original text |
| Text.SplitJoin | Profiles.js:25-29 | splitting the join of separator-free pieces gives back those pieces |
| Text.SplitMany | Profiles.js:25-28 | text splits into more than one piece exactly when it contains the separator, so a data row exists exactly when the body has a line break |
| Text.Trim | Profiles.js:31 | the trimmed value starts and ends with a non-white-space character, or is empty, and is no longer than its input |
| Text.TrimCutsWhiteSpace | Profiles.js:31 | `trim` removes only white space, and only from the two ends: the input is white space, then the result, then white space |
| Text.TrimIdempotent | Profiles.js:31 | trimming a trimmed value changes nothing |
| Text.IndexOf | Profiles.js:27 | `indexOf` returns the first position holding the value, or -1 exactly when the value is absent |
| TickerListing.Rows | Profiles.js:25-28 | `data.split('\n')` yields at least one row, the header, no row holds a line break, and there is a data row exactly when the body has a line break |
| TickerListing.Fields | Profiles.js:26-29 | `split(',')` of a row yields at least one field, and no field holds a comma |
| TickerListing.SymbolIndex | Profiles.js:27 | the symbol column is the first header field that is exactly `symbol`, and it is -1 exactly when no header field is |
| TickerListing.Contribution | Profiles.js:30-32 | one data row adds at most one symbol, exactly one when it has a field at the symbol position, and that symbol is the field trimmed |
| TickerListing.Collect | Profiles.js:28-33 | the symbols pushed by the loop over the data rows are all trimmed |
| TickerListing.TickerSymbols | Profiles.js:24-36 | the outcome of `parseTickerSymbols` is an error (the throw from `row[-1].trim()`) exactly when the symbol index is -1 and a data row exists |
| TickerListing.ParseTickerSymbols | Profiles.js:23-37 | the loop returns exactly the specified outcome: the collected symbols, or the error raised when the header has no `symbol` field and a data row exists |
| TickerListing.CollectAppend | Profiles.js:28-33 | what the parser collects from consecutive runs of rows is the concatenation, in order, of what each run yields |
| TickerListing.RowContribution | Profiles.js:29-32 | each data row contributes exactly one trimmed symbol when it has a field at the symbol position and nothing otherwise, placed between the symbols of the rows before it and after it |
| TickerListing.CollectAt | Profiles.js:28-33 | the symbol of a kept row is at the position equal to the number of symbols from earlier rows: row order is preserved |
| TickerListing.CollectLength | Profiles.js:28-32 | at most one symbol per data row, and exactly one per row exactly when every row reaches the symbol position |
| TickerListing.FirstColumnKeepsEveryRow | Profiles.js:29-32 | with `symbol` as the first column, no row is skipped, including empty rows, and the i-th symbol is the trimmed first field of the i-th data row |
| TickerListing.ParseFails | Profiles.js:26-31 | parsing throws exactly when no header field equals `symbol` and the body contains a data row |
| TickerListing.HeaderNotCollected | Profiles.js:25-28 | the header row only selects the column; the result is what the rows after it yield |
| TickerListing.ParseBound | Profiles.js:24-36 | a successful parse has no more symbols than there are data rows, and every symbol is trimmed |
| TickerListing.ShortRowKept | Profiles.js:30-32 | the one-field row `BB` under header `symbol,name` is kept: the result is `["AAA", "BB"]` |
| ProfileStore.Ids | Profiles.js:116 | `profiles.map(p => p.id)` has one id per profile, in list order |
| ProfileStore.Max | Profiles.js:116 | `Math.max` over the ids returns one of them, and no id is larger |
| ProfileStore.GenerateUniqueId | Profiles.js:111-118 | the new id is 1 for an empty list, is at least 1, is larger than every existing id, and is either 1 or directly follows an existing id |
| ProfileStore.CreateProfile | Profiles.js:56-62 | the posted record has the id `generateUniqueId` gives, a positive id that no listed profile has, an empty ticker, and no plot, risk assessment or other data |
| ProfileStore.CreateKeepsIdsUnique | Profiles.js:56-62 | adding the created record to a list with distinct ids keeps the ids distinct |
| ProfileStore.CreateAdvancesId | Profiles.js:111-118 | two creations in a row get consecutive ids |
| ProfileStore.DeletedNewestIdIsReused | Profiles.js:111-118 | after the newest profile is deleted, the next creation reuses its id |
| ProfileStore.FindProfile | Profiles.js:93 | `find` yields the first profile with the id, or none exactly when no profile has it |
| ProfileStore.WithPrediction | Profiles.js:100-102 | the merged data has the chosen ticker and the response's plot and risk output, and keeps every other member |
| ProfileStore.MergeTicker | Profiles.js:93-105 | a record is written back exactly when the prediction resolved with data and a profile has the id. The first such profile then has the given ticker and the response's plot and risk output, with its id and other data unchanged, and it is the record written. A rejected prediction or a missing profile changes nothing and yields its error. Resolved null data writes only the ticker and yields an error. Every other profile is unchanged in all cases |
| ProfileStore.MergeKeepsIds | Profiles.js:100-102 | every outcome of the merge, the partial one included, leaves every id in place, so the next id and id uniqueness are unaffected |
| ProfileStore.MergeIdempotent | Profiles.js:93-105 | merging the same prediction outcome twice gives the same list and the same written result as merging it once, for every outcome |
| ProfileStore.NullDataLeavesTickerOnly | Profiles.js:100-105 | with null response data and a non-empty ticker, nothing is written back, yet the profile keeps its old plot and is no longer unassigned |
| ProfileStore.Profiles.constructor | Profiles.js:7-12 | the held list is the fetched list |
| ProfileStore.Profiles.UpdateTicker | Profiles.js:91-105 | the list after the in-place writes is the merged list, and the record returned for the write-back is the updated profile. A rejected prediction or a missing profile leaves the list unchanged. Null response data leaves only the ticker written |

## Left out

- HTTP calls are not modelled: the profile fetch, post, put and delete, the listing
  fetch and the prediction call (Profiles.js:11, 40-42, 63, 72, 79-90, 103). Their
  outcomes are inputs to the model, and for `updateTicker` only the prediction
  outcome matters to the merge.
- The prediction request body (`{company_name, predict: false}`, Profiles.js:94-97)
  and its JSON serialization are payload of a network call and are not modelled.
- React state and effects are not modelled: `useState`, `useEffect`, `setProfiles`,
  `setTickers`, `fetchProfiles`, `fetchTickers`, `createProfile`'s post and re-fetch,
  and `deleteProfile`. The JSX rendering (Profiles.js:120-151) is not modelled
  either. `Profiles.constructor` stands for the list as last fetched.
- `console` logging and `alert` calls are diagnostics and are not modelled.
- Overlapping asynchronous actions are not modelled. The code has no guard against
  them, and each modelled step runs to completion.
- ProfileStore.Profiles.UpdateTicker: the profile objects that JavaScript mutates in
  place are modelled as values in a sequence, and the update replaces one element.
  Two list positions sharing one object (aliasing) is not modelled.
- A write-back that fails after the merge is not modelled. In the code it leaves the
  local merge in place until the next fetch.
- ProfileStore.GenerateUniqueId: ids are unbounded integers. JavaScript numbers that
  are not integers, or are `NaN`, are not modelled. With doubles, from 2^53 on
  `maxId + 1` is rounded and can equal `maxId` (for some values below 2^54 and for
  every value from 2^54), so the id is then not fresh;
  and `Math.max(...ids)` throws a RangeError for a list too long to spread as
  arguments; neither is modelled.
- TickerListing.ParseTickerSymbols: the listing body is taken to be text. A response
  whose `data` is not a string (so its `split` would throw) is not modelled.
- Text.Trim: characters are Unicode scalar values, while JavaScript strings are
  UTF-16 code units. For `trim` this is the same, because every white-space
  character is in the Basic Multilingual Plane.
