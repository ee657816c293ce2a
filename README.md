# slack-annie crawler bookkeeping, in Dafny

A model of the bookkeeping at the heart of `server.js`, the script that crawls
the Slack app directory. The script keeps two dictionaries keyed by bot name,
and this project models and proves how it updates them:

- the saved-bots map (bots.json), name → bot record;
- the work queue (queue.json), name → detail-page url of a bot still lacking a description.

It also models the record builders that turn the strings extracted from a page
into listing records, category maps and detail records.

Modules, one per component of the script:

- `Records` (records.dfy): the entities. A listing result has a rank. A saved
  bot record has categories, a description and a site. There are also category
  tags and the per-category snapshot. `BASE_URI`, the `'null'` sentinel and
  `buildBotFromSnapshot` live here too.
- `Text` (text.dfy): the JavaScript string behaviour the builders rely on:
  `trim`, integer `toString`, `join`, the `v || fallback` idiom, and the text
  `"undefined"` that a missing attribute contributes to a concatenation.
- `Parsing` (parsing.dfy): the page parser, as `parseOneBot`, `parseAllBots`,
  `parseAllCategories`, the tag loop and the record update of
  `parseDetailedBotData`, plus the date formatting of `getDate`. Each page
  arrives as the strings the selector queries extracted. `toMarkdown` is the
  uninterpreted parameter `md`.
- `ListingMerge` (listing_merge.dfy): `updateBotList` specified as a fold over
  the snapshot's listings, with its lemmas.
- `DetailMerge` (detail_merge.dfy): `updateDetailsForBots` specified as a fold
  over the updates, with its lemmas.
- `Queue` (queue.dfy): the queue builder `checkBotListForIncompletes`, as a loop
  over the saved names. It returns the queue instead of writing queue.json.
  The module also holds lemmas linking the queue builder to both merges.
- `Store` (store.dfy): the class `SavedBots`, whose `entries` field is the
  saved-bots object that both merges mutate in place. Its methods carry the
  source's nested loops and are proved against the fold specifications.

Two points of JavaScript semantics are modelled explicitly:

- `!SAVED_BOTS[name]` is a presence test, because stored records are always objects.
- `!BOT_QUEUE[name]` is a truthiness test. A key that maps to the empty string
  counts as not queued (`Queue.IsQueued`).

The model follows the code where a comment or a natural reading suggests otherwise:

- A bot counts as already queued only when its queued url is truthy, not merely
  present (server.js:28).
- The comment above `getDate` says `yyyy/m/d` (server.js:310), but the code joins
  with `'_'` (server.js:315). The model uses `'_'`.
- A filled description is not guaranteed to stay filled across the detail merge.
  The detail parser passes the description, or `'null'`, through `toMarkdown`
  (server.js:163, server.js:174), and the model makes no assumption about what
  `toMarkdown` returns.

## Model

| member | source | states |
|---|---|---|
| `Text.OrElse` | server.js:163-164 | `v \|\| fallback` is either the fallback or the present, non-empty value, and is never empty when the fallback is not; so with the `'null'` fallback the result is always truthy |
| `Text.TrimIsSlice` | server.js:168 | `trim` returns the slice of the tag HTML with only leading and trailing white space cut away; it neither starts nor ends with white space |
| `Parsing.DateStampRoundTrip` | server.js:313-316 | the date stamp, year, month + 1 and day joined by `_`, parses back to the date it was built from |
| `Parsing.ParseAllBots` | server.js:270-306 | no snapshot for a missing selection; otherwise the snapshot has today's stamp and the category's name and saved url (absent if not saved); it has one result per entry in document order, the i-th with rank i + 1, url `BASE_URI` + href, and name and tagline from the converted spans |
| `Parsing.ParseAllCategories` | server.js:249-260 | empty map for a missing selection; otherwise the keys are exactly the converted link names, and each maps to the url of the last link carrying that name |
| `Parsing.ParseTags` | server.js:166-171 | one tag per `.tag` anchor, in tag order, named by the Markdown of its trimmed HTML, with url `BASE_URI` + href |
| `Parsing.ParseDetailedBotData` | server.js:159-182 | no record when the name is not saved (the deep copy throws); otherwise name, url and tagline come from the saved record, the description is the Markdown of the block or of `'null'`, the site is the install href or `'null'` and so never empty, and the categories follow tag order |
| `ListingMerge.FlattenContains` | server.js:48-50 | the merge visits every listing of every category of the snapshot |
| `ListingMerge.MergeListingsKeys` | server.js:48-57 | after the merge the saved names are exactly the old names plus every listed name |
| `ListingMerge.MergeListingsKeepsSaved` | server.js:52-55 | a record saved beforehand is still saved and is the identical record |
| `ListingMerge.MergeListingsFirstWins` | server.js:50-78 | a name not saved beforehand gets the skeletal record of its first listing (its name, url and tagline; no categories; empty description and site) |
| `ListingMerge.MergeSnapshotSavesAllNames` | server.js:48-57 | every bot name in any category's results is a key of the merged map |
| `ListingMerge.MergeListingsNoop` | server.js:52 | listings whose names are all saved leave the map unchanged |
| `ListingMerge.ChangesDetectedIffChanged` | server.js:45-60 | `changesDetected` is raised exactly when the merge changes the map |
| `ListingMerge.MergeListingsIdempotent` | server.js:45-57 | merging the same snapshot again leaves the map unchanged and detects no change |
| `ListingMerge.AddsNewNameStep` | server.js:52-53 | the flag after one more listing is the flag before, or that listing's name not being saved at that point |
| `DetailMerge.ApplyDetailsKeys` | server.js:127-131 | the detail merge adds exactly the updated names not yet saved and removes none |
| `DetailMerge.ApplyDetailsLastWins` | server.js:128-130 | an updated name maps to the last update carrying it, whole (no field of the prior record survives) |
| `DetailMerge.ApplyDetailsKeepsOthers` | server.js:127-131 | names no update carries keep their saved records |
| `DetailMerge.ApplyDetailsIdempotent` | server.js:127-131 | applying the same updates twice gives the map that applying them once gives |
| `Queue.CheckBotListForIncompletes` | server.js:23-31 | a saved bot is queued iff its description is empty and it is not truthily queued already; its value is that bot's url; the keys are saved names |
| `Queue.NewBotsAreQueued` | server.js:26-30 | a bot the listing merge adds, not already queued, is queued with the url of its first listing |
| `Queue.ListingMergeKeepsQueue` | server.js:26-30 | the listing merge never removes an entry of the queue the builder would produce, nor changes its url |
| `Queue.DetailedBotsLeaveQueue` | server.js:28 | a bot whose last detail record has a non-empty description is not queued after the detail merge |
| `Store.SavedBots.UpdateBotList` | server.js:43-63 | the nested loops leave the map equal to the listing fold; the flag is "some listed name was not saved"; the flag holds iff the map changed; old records are kept; all listed names are saved |
| `Store.SavedBots.MergeCategoryResults` | server.js:49-56 | the inner loop over one category's results extends the merge and the flag by exactly those results |
| `Store.SavedBots.UpdateDetailsForBots` | server.js:127-132 | the loop leaves the map equal to the detail fold, with last-wins per name and other names untouched, and returns the same map object |

## Left out

- HTTP requests and the Cheerio transform (`makeRequest`, `getOptions`,
  `fetchCategoryNames`, `fetchBotsFromCategory`, `fetchDetailsForOneBot`) are network I/O.
  Each page is an input value holding the strings its selector queries extracted.
- The selector queries (`getSelectionFromPage`) and `toMarkdown` are library calls.
  `toMarkdown` is the function parameter `md`, about which nothing is assumed.
- `.html()` returning `null` for a missing span or tag is left out. That value
  goes straight into `toMarkdown`, which is outside the model. The extracted
  HTML of those elements is always a string here. The description block is the
  exception: its absence is modelled.
- The `Promise.all` fan-out in `fetchAllBots` and `fetchDetailsForAllBots` is
  concurrent gathering and rejection, with no bookkeeping of its own.
- File writes (`writeFileAsync`, `resolveRequestToFile`), `console.log` and the
  `require(path)` load of a snapshot are I/O. The queue builder returns the queue,
  and `UpdateBotList` takes the snapshot and returns `changesDetected`.
- The snapshot file can hold a `{}` written for a missing selection. Reading it
  back would make `category.results` undefined and throw. The model's snapshot
  entries always carry results.
- ParseAllCategories: the key order of the object it builds is not modelled. In
  JavaScript a repeated name keeps the position of its first link, and that order
  sets the order of the categories fetched, hence of the snapshot. The model's
  map has no order; the listing merge takes the snapshot order as an input.
- `getDate` reads the system clock. The date is a parameter, and only the formatting is modelled.
- `JSON.parse(JSON.stringify(...))` deep copying is not modelled separately.
  Datatype values already cannot be mutated through the saved map.
- Bot names that coincide with properties inherited from `Object.prototype`
  (such as `constructor`) make the JavaScript presence and truthiness tests true
  for absent keys. The model treats the maps as plain dictionaries.
- JavaScript strings are UTF-16 code units, while Dafny strings are sequences of
  Unicode scalar values. `Text.Trim` removes the same code points that `trim` does.
- `Text.IntToString` covers integers only, which is all `getDate` joins.
