# searchlistarr watchlist reconciliation, in Dafny

searchlistarr keeps a cached copy of a Google watchlist. Each scraped title is matched
against TMDB and stored as a media record with `title`, `id`, `googleTitle`, `status`,
`dateAdded` and similar fields. This project models, and proves properties of, the
code that builds and reconciles those records:

- `mergeWatchlists` groups fresh and cached records by the slug of their
  `googleTitle`. It pairs them position by position inside each group, with the
  cached fields winning. It then demotes every member of a group of two or more
  that is not fully known.
- `updateMovie` and `removeMovie` are the point edits of the two cached lists.
- `slugify`, `normalize`, `isObject` and `deepMerge` are the utilities.
- The older tmdb.js pipeline:
  - the page rule of `scrapeWatchlist`;
  - the result selection and fallback of `fetchMovieData`;
  - the cache-skip decision of `collectMovieData`;
  - `combineWatchlists`;
  - the classification `createUnknownsFile` does into people, unmatched records and
    re-queried duplicates.

There are four modules:

- `JsValues` (js_values.dfy): JSON values and the JavaScript semantics the code relies
  on. This covers truthiness, `||`, member access, `===`, object spread, `String(v)`,
  `Array.prototype.filter`, and the order in which `Object.keys` lists an object's
  keys (array indices first, in numeric order, then the other keys in creation order).
- `Utils` (utils.js): `slugify` stage by stage, `normalize`, and `deepMerge`.
  `deepMerge` is a specification function plus the loop that runs it.
- `Operations` (operations.js):
  - A `Movie` class stands for the media objects `mergeWatchlists` receives. The
    demotion pass writes `status` and `unknownState` into these objects in place, so
    the model tracks which outputs are the caller's own objects and which are new.
  - The merge is specified by the function `Reconcile` on the records. The method
    `MergeWatchlists` is proved to compute it.
  - A `Cache` class holds the two cached lists that `updateMovie` and `removeMovie`
    rewrite.
- `Tmdb` (tmdb.js):
  - The request, the clock, `encodeURIComponent` and the year parser are parameters
    (`Services`).
  - The scraped pages are a sequence of per-page label lists, with `None` for a page
    whose request throws.

## Model

| member | source | states |
|---|---|---|
| JsValues.Or | tmdb.js:77-78 | `a \|\| b` is `a` when `a` is truthy and `b` otherwise, and is truthy exactly when one of them is |
| JsValues.Truthy | tmdb.js:73-76 | JavaScript truthiness: `undefined`, `null`, `false`, `0` and `""` are falsy, every other value is truthy |
| JsValues.StrictEquals | operations.js:16 | `===`: equal primitives of the same type, `undefined` with `undefined`, and never two separately parsed objects or arrays |
| JsValues.Member | tmdb.js:72 | `v.name` on a value that is not null (where the source would throw): an object's own property, `length` of an array or a string and `undefined` for any other name, and `undefined` for booleans and numbers |
| JsValues.OwnKeysOrder | operations.js:72 | `Object.keys` lists exactly the keys created, each as often as it was created |
| JsValues.OwnKeysOrderSpec | operations.js:72 | `Object.keys` lists the array-index keys first, in ascending numeric order, then the other keys in creation order |
| JsValues.SortRankedAscending | operations.js:72 | the ordering of array-index keys by numeric value yields an ascending list |
| JsValues.Where | operations.js:34 | `filter` keeps exactly the records whose field is (or is not) strictly equal to the value, and never grows the list |
| JsValues.WhereAppend | operations.js:34 | `filter` keeps the order: it distributes over concatenation |
| JsValues.WhereAll | operations.js:34 | a list every record of which passes the filter is returned whole |
| JsValues.WhereIdempotent | operations.js:34 | filtering a second time removes nothing more |
| Utils.LowerChar | utils.js:7 | `toLowerCase` on one character removes upper case and keeps word characters, blanks, `-` and `_` as they are |
| Utils.ToLower | utils.js:7 | `toLowerCase` maps each character on its own and keeps the length |
| Utils.Slugify | utils.js:5-12 | `slugify` as its five stages in order: lower-case, trim, strip disallowed characters, collapse separators, drop leading and trailing dashes; its results are slugs (`SlugifyIsSlug`) |
| Utils.Normalize | utils.js:14-20 | `normalize` of a string: lower-case, then drop every non-word character; see `NormalizeChars` and `NormalizeIdempotent` |
| Utils.LeadingRun | utils.js:8 | `trim` and the leading `^-+`: the longest prefix of blanks (or dashes) is measured exactly |
| Utils.TrailingRun | utils.js:8 | `trim` and the trailing `-+$`: the longest suffix of blanks (or dashes) is measured exactly |
| Utils.StripDisallowedKeeps | utils.js:9 | `replace(/[^\w\s-]/g, '')` keeps only characters of `[\w\s-]` |
| Utils.CollapseSeparatorsShape | utils.js:10 | `replace(/[\s_-]+/g, '-')` never leaves two dashes in a row; the result starts with a dash exactly when the input starts with a separator, and is empty only for an empty input |
| Utils.SlugifyIsSlug | utils.js:5-12 | a slug holds only lower-case letters, digits and single inner dashes: no leading, trailing or doubled `-` |
| Utils.SlugifyOfSlug | utils.js:5-12 | a slug is its own slug |
| Utils.SlugifyIdempotent | utils.js:5-12 | `slugify(slugify(s)) == slugify(s)` |
| Utils.SlugifyIgnoresDisallowed | utils.js:9 | a character outside `[\w\s-]`, wherever it stands, does not change the slug |
| Utils.SlugifyIgnoresCase | utils.js:7 | two strings equal up to letter case have the same slug |
| Utils.SlugifyWithoutTrim | utils.js:8 | `trim` never changes a slug: the blanks it removes would only become end dashes, which are dropped |
| Utils.LeadingSeparatorsIgnored | utils.js:10-11 | separators in front of a string do not change what the last two stages (collapse, then drop edge dashes) make of it |
| Utils.TrailingSeparatorsIgnored | utils.js:10-11 | separators after a string do not change what the last two stages (collapse, then drop edge dashes) make of it |
| Utils.TrimDashesPrependDash | utils.js:11 | a dash in front is removed by `replace(/^-+\|-+$/g, '')` |
| Utils.TrimDashesAppendDash | utils.js:11 | a dash at the end is removed by `replace(/^-+\|-+$/g, '')` |
| Utils.KeepWordChars | utils.js:18 | `replace(/\W+/g, '')` keeps only word characters of its input |
| Utils.NormalizeChars | utils.js:14-20 | `normalize` yields only lower-case letters, digits and `_` |
| Utils.NormalizeIdempotent | utils.js:14-20 | `normalize` is idempotent |
| Utils.MergeInto | utils.js:37-48 | the `for...in` loop over the source's keys computes the one-source merge: plain-object values merge recursively, all others replace |
| Utils.IsObject | utils.js:29-31 | `isObject`: true exactly for an object value, and false for `undefined`, `null`, arrays, strings, numbers and booleans |
| Utils.MergeOne | utils.js:36-48 | `deepMerge` with one source: when target and source are plain objects, each own key of the source replaces the target's value, or merges recursively when both values are plain objects; otherwise the target as it is |
| Utils.MergeAll | utils.js:33-51 | `deepMerge(target, ...sources)`: the one-source merge applied for each source, left to right |
| Utils.DeepMerge | utils.js:33-51 | taking the sources off the front one by one computes the left-to-right merge of all sources |
| Utils.MergeOneCovers | utils.js:37-48 | after merging a plain-object source into a plain-object target, every value of the source is there; the keys are the union, and target keys the source lacks keep their values |
| Utils.CoversSelf | utils.js:37-48 | every value holds everything it says itself |
| Utils.MergeOneSelf | utils.js:37-48 | merging a value into itself changes nothing |
| Utils.MergeOneIdempotent | utils.js:37-48 | merging the same source twice gives what merging it once does |
| Utils.MergeAllAppend | utils.js:50 | sources apply left to right: merging `a + b` is merging `a`, then `b` |
| Utils.MergeAllSkips | utils.js:37 | a source that is not a plain object is skipped |
| Utils.MergeAllNonObjectTarget | utils.js:37 | a target that is not a plain object is returned unchanged, whatever the sources |
| Utils.LastSourceWins | utils.js:33-51 | whatever the last plain-object source says is in the result |
| Utils.MergeAllKeepsObject | utils.js:33-51 | a plain-object target stays a plain object |
| Operations.GroupOf | operations.js:53-58 | the group of a key holds only members with that key, and is no longer than the list |
| Operations.KeyOrder | operations.js:53-58 | the keys of the grouping accumulator, in creation order, each key of the list exactly once |
| Operations.Spread | operations.js:84 | `{ ...fresh, ...cached }`: every key of the cached record takes the cached value, every other key keeps the fresh one |
| Operations.Paired | operations.js:78-85 | a fresh record is spread with a cached record exactly when its rank within its group is below the size of the cached group of the same key |
| Operations.PairGroup | operations.js:78-87 | the i-th fresh record of a group is spread with the i-th cached record of the same group when there is one, and passed through otherwise |
| Operations.DemoteEffect | operations.js:104-107 | a demoted record is marked as a duplicate, its status is the old one with `known` false, it is no longer fully known, and its other properties are kept |
| Operations.FullyKnown | operations.js:104 | `movie.status && movie.status.known && movie.status.tmdb`, as a truth value |
| Operations.Demote | operations.js:106-107 | the demoted record: `status` spread with `known` false and `unknownState` `'duplicate'`; the `googleTitle`, hence the group key, is kept |
| Operations.MergePass | operations.js:68-88 | the merged list before demotion: the fresh groups, in `Object.keys` order, each paired with the cached group of its key; every record is titled |
| Operations.DemoteWithin | operations.js:101-111 | each record keeps its key and receives the decision for the size of its group |
| Operations.Demotion | operations.js:101-111 | in a group of two or more, a member that is not fully known is demoted; every other record is kept as it is |
| Operations.Reconcile | operations.js:46-114 | the reference definition of `mergeWatchlists` on records: the fresh list with `skipCache`, otherwise the demotion of the pairing pass; see `MergePassGroups`, `DemotionMarksDuplicates` and `ReconcileFixpoint` |
| Operations.GroupOfAppend | operations.js:53-58 | the group of a concatenation is the concatenation of the groups |
| Operations.GroupOfUniform | operations.js:53-58 | a list whose records share one key is its own group for that key and has no other group |
| Operations.InOwnGroup | operations.js:53-58 | every record is in the group of its own key |
| Operations.PairGroupUniform | operations.js:84 | pairing keeps the group key of every member |
| Operations.GroupOfMergeKeys | operations.js:72-88 | the group k of the pairing pass over distinct keys is group k paired when k is among the keys, and empty otherwise |
| Operations.GroupSizesCover | operations.js:72-88 | keys naming each key of a list once cover the whole list |
| Operations.MergeKeysLength | operations.js:72-88 | the pairing pass yields one record per member of the groups it visits |
| Operations.MergePassLength | operations.js:72-88 | the merged list has exactly one record per fresh record |
| Operations.MergePassGroups | operations.js:61-88 | the merged list regroups the fresh list: its group k is fresh group k, in order, each record paired with the cached record at the same position of cached group k |
| Operations.DemoteIdempotent | operations.js:106-107 | demoting twice is demoting once |
| Operations.GroupSizesAgree | operations.js:91-96 | lists with the same keys position by position have groups of the same sizes |
| Operations.DemotionIdempotent | operations.js:101-111 | the demotion pass is idempotent |
| Operations.DemotionMarksDuplicates | operations.js:101-111 | after the pass, every member of a group of two or more is fully known or marked as a duplicate with `known` false |
| Operations.DemoteWithinAppend | operations.js:101-111 | the demotion decision distributes over concatenation |
| Operations.GroupOfDemoteWithin | operations.js:91-111 | demotion commutes with taking a group |
| Operations.RegroupDemoteWithin | operations.js:91-111 | demotion commutes with regrouping |
| Operations.RegroupMergeKeys | operations.js:72-96 | regrouping the pairing pass by its own keys gives the pass over those keys |
| Operations.PairGroupCovered | operations.js:84 | spreading a record over one that already has all its keys gives the latter |
| Operations.MergeKeysCovered | operations.js:72-88 | pairing with a list whose groups already cover the fresh groups gives that list, regrouped |
| Operations.MergedKeepsKeys | operations.js:78-107 | every key of a fresh record survives pairing and demotion |
| Operations.MergeFixpoint | operations.js:46-114 | for any key function, merging the fresh list with its own merge result gives that result back |
| Operations.ReconcileFixpoint | operations.js:46-114 | once cached, a merged watchlist is a fixed point of `mergeWatchlists` |
| Operations.PickMember | operations.js:53-58 | the t-th movie of a group holds the t-th record of the group |
| Operations.PickWithin | operations.js:53-58 | a group holds movies of the list only |
| Operations.PickRecords | operations.js:53-58 | the movies of a group hold records of the group's key |
| Operations.PickComplete | operations.js:53-58 | every movie with key k is in group k |
| Operations.InOwnPick | operations.js:53-58 | every movie is in the group of its own key |
| Operations.PickAt | operations.js:53-58 | the movie at index i sits in the group of its key at its rank, which is within the group |
| Operations.GroupMapPick | operations.js:53-58 | the accumulator has a group exactly for the keys of the list, holding the movies of that group |
| Operations.GroupBy | operations.js:53-66 | the grouping `reduce` builds the accumulator and creates its keys in first-appearance order |
| Operations.PairMovies | operations.js:78-87 | the inner `forEach` yields the pairing of the group; the entry at an index within the cached group is a new object, every other entry is the caller's own object at that index |
| Operations.PairOne | operations.js:79-85 | the callback of the inner `forEach`: a new object spreading the cached movie at the same index over the new one when there is one, the new movie itself otherwise |
| Operations.PickProps | operations.js:53-58 | the movies of a group hold exactly the records of the group |
| Operations.GroupLookup | operations.js:73-75 | `groups[key] \|\| []` yields the movies holding group `key`, all of them from the list |
| Operations.PairKey | operations.js:72-87 | one call of the outer `forEach` yields the pairing of fresh group `key` with cached group `key`, or with none, and keeps every unpaired movie of the group as the same object |
| Operations.PairGroups | operations.js:72-88 | the outer `forEach` yields the pairing pass over the keys in the order given, and every unpaired movie of those groups is in it as the same object |
| Operations.UnpairedKept | operations.js:72-88 | every fresh movie that the pairing pass leaves unpaired is in its result as the same object |
| Operations.DemoteGroup | operations.js:102-110 | the inner `forEach` of the demotion pass leaves every member of a group of two or more demoted or untouched, by whether it is fully known, even when the member was met before |
| Operations.DemoteGroups | operations.js:101-111 | the outer `forEach` applies the demotion decision to every movie of a listed group and leaves all others untouched |
| Operations.DemoteDuplicates | operations.js:91-111 | the regroup-and-demote pass turns the merged list into its demotion; each movie is untouched or demoted |
| Operations.DemotedProps | operations.js:91-111 | after the demotion pass the movies hold the demoted list |
| Operations.MergeWatchlists | operations.js:46-114 | with `skipCache`, the fresh list itself, untouched. Otherwise: the records of `Reconcile`; every output is a new object or one of the caller's fresh objects; every fresh object left unpaired is in the result as the same object; each fresh object is unchanged or demoted in place; fresh objects not in the result (the paired ones) are untouched, and those in it hold their reconciled record; a cached object that is not also in the fresh list is never touched |
| Operations.FindIndex | operations.js:16-17 | `findIndex` gives the first entry whose `uuid` is strictly equal to the argument, or -1 when no entry has it |
| Operations.Without | operations.js:34 | `filter(item => item.uuid !== uuid)`: the entries whose `uuid` is not strictly equal to the argument, in order; see `Cache.RemoveMovie` |
| Operations.Patched | operations.js:16-20 | the list keeps its length; only the first entry with the uuid changes, and it becomes the deep merge of itself with the patch; with no such entry the list is unchanged |
| Operations.PatchedCovers | operations.js:19-20 | the patched entry holds everything an object patch says and keeps the fields the patch does not mention |
| Operations.PatchedIdempotent | operations.js:13-26 | applying the same update twice gives what applying it once does, unless the patch rewrites `uuid` |
| Operations.Cache.UpdateMovie | operations.js:13-26 | both lists become their patched versions, independently, and the call answers true |
| Operations.Cache.RemoveMovie | operations.js:29-40 | the unknown list loses every entry with the uuid and keeps the others in order; the watchlist is unchanged; the call answers true |
| Tmdb.UpTo | tmdb.js:40-44 | the labels of a page up to, and not including, the first equal to the previous page's first label |
| Tmdb.PageItems | tmdb.js:39-44 | the inner loop over a page's links collects exactly that prefix |
| Tmdb.UpToIs | tmdb.js:40-44 | that prefix is determined by where the first label equal to the reference stands |
| Tmdb.ReadPage | tmdb.js:31-52 | one iteration of the page loop: a page that throws is skipped; otherwise its prefix up to the reference label is appended, and its first label becomes the reference, when that prefix is non-empty and starts elsewhere |
| Tmdb.ScanPages | tmdb.js:30-53 | the state after the first n pages, from no reference and no labels |
| Tmdb.ScrapeWatchlist | tmdb.js:24-56 | the page loop returns the labels of the six-page scan |
| Tmdb.RepeatedPageAddsNothing | tmdb.js:45-49 | a page starting with the reference label adds nothing and keeps the reference |
| Tmdb.FreshPageTakenWhole | tmdb.js:45-49 | a non-empty page without the reference label is appended whole, and its first label becomes the reference |
| Tmdb.ScrapeReadsSixPages | tmdb.js:30 | only the first six pages are read |
| Tmdb.ScanPagesAgree | tmdb.js:30-53 | two page lists that agree on the first n pages scan alike for n pages |
| Tmdb.ScrapedFromPages | tmdb.js:30-53 | every label returned was read from one of the first six pages |
| Tmdb.Fallback | tmdb.js:60-68 | the fallback has `id` 0, the query as `title`, null `releaseDate`, `releaseYear` and `mediaType`, and the current time as `dateAdded` |
| Tmdb.Chosen | tmdb.js:71-76 | a result is chosen exactly when the request answered with a non-null body whose `results` is truthy with a `length` other than 0 and whose entry at the index is truthy; the chosen result is that entry |
| Tmdb.Copied | tmdb.js:83-87 | the record copies `id` and `media_type`, `title \|\| name` and `release_date \|\| first_air_date`, and holds no other of those four keys |
| Tmdb.FromResult | tmdb.js:77-90 | the record built from a result carries the time of the call as `dateAdded` |
| Tmdb.FetchMovieData | tmdb.js:59-96 | the fallback when no result is chosen, which covers a request that throws, a body that is not an object, `results` missing or empty, and an entry at the index that is missing or falsy; otherwise the record built from the chosen result; the current time as `dateAdded` in both cases |
| Tmdb.FromResultFields | tmdb.js:77-90 | the fields added after the copied ones do not overwrite them |
| Tmdb.FetchHit | tmdb.js:74-91 | on a hit the record has the result's `id` and `media_type`, `title \|\| name` and `release_date \|\| first_air_date` |
| Tmdb.IndexBy | tmdb.js:102-105 | the lookup object has a key exactly for the keys of the records |
| Tmdb.IndexByLast | tmdb.js:102-105 | under each key sits the last record with that key |
| Tmdb.CollectWith | tmdb.js:107-125 | the title loop yields, title by title, the cached record or the search result, and searches exactly the uncached titles |
| Tmdb.CollectMovieData | tmdb.js:99-126 | the cache is keyed by the slug of each cached `title`, and the loop runs over the scraped titles with the TMDB search |
| Tmdb.CollectedAt | tmdb.js:107-125 | one record per title, in order: the cached one when the cache answers, the search result otherwise |
| Tmdb.CollectedEntry | tmdb.js:99-126 | without override, a title whose slug a cached record has yields the last such cached record; any other title yields its search |
| Tmdb.OverrideQueriesAll | tmdb.js:112 | with the cache overridden every title is searched for |
| Tmdb.QueriedUncached | tmdb.js:111-118 | the searched titles are exactly the titles the cache does not answer |
| Tmdb.Resolve | tmdb.js:111-118 | the record for one title: the cached record with its slug unless the cache is overridden, otherwise its TMDB search |
| Tmdb.Collected | tmdb.js:107-125 | what `collectMovieData` returns: the record of each title, in order; see `CollectedAt` and `CollectedEntry` |
| Tmdb.CombineWatchlists | tmdb.js:129-139 | one record per fresh record, in order, with every field but `dateAdded` unchanged |
| Tmdb.CarryDate | tmdb.js:136-137 | `{ ...movie, dateAdded: cached.dateAdded }` when the cache has the record's id, the record itself otherwise |
| Tmdb.CombineDates | tmdb.js:130-138 | a record whose id no cached record has is returned as is; otherwise it takes the `dateAdded` of the last cached record with its id |
| Tmdb.CountTitles | tmdb.js:145-151 | the `titleCount` loop collects exactly the records whose slug an earlier record already had |
| Tmdb.Duplicates | tmdb.js:145-151 | every record whose key an earlier record already had, in order; see `DuplicatesRepeat` and `DuplicatesCount` |
| Tmdb.RepeatAtPrefix | tmdb.js:147-150 | a repeat found in a prefix is a repeat of the whole list |
| Tmdb.DuplicatesRepeat | tmdb.js:145-151 | each duplicate is a record that came after another with its slug |
| Tmdb.DuplicatesCount | tmdb.js:145-151 | there is one duplicate for every record beyond the first of each slug, so first occurrences are never included |
| Tmdb.Replacement | tmdb.js:157-158 | a duplicate is replaced by its rank-1 re-query exactly when the re-query's `id` is not strictly equal to the duplicate's, and kept otherwise |
| Tmdb.UnmatchedDuplicateKept | tmdb.js:157-158 | an unmatched duplicate whose re-query finds nothing is kept |
| Tmdb.Rerun | tmdb.js:154-159 | one entry per duplicate |
| Tmdb.RerunAt | tmdb.js:154-159 | the t-th entry is the t-th duplicate or its replacement |
| Tmdb.RerunDuplicates | tmdb.js:154-159 | the re-query loop computes that list |
| Tmdb.CreateUnknowns | tmdb.js:142-161 | the unknown list is the people, then the unmatched records, then the re-run duplicates |
| Tmdb.People | tmdb.js:143 | the records whose `mediaType` is strictly `'person'`, in order |
| Tmdb.Unmatched | tmdb.js:144 | the records whose `id` is strictly 0, in order |
| Tmdb.UnknownsShape | tmdb.js:143-161 | the unknown list has one entry per person, per unmatched record and per repeated slug beyond its first, with the re-run duplicates in order at the end |

## Left out

- File persistence is not modelled. This covers reading and writing the cache files, `JSON.parse`/`JSON.stringify`, and `jsonForFile` with its `generated` timestamp. The two cached lists are the fields of `Cache`, and `createUnknownsFile` is modelled up to the list it writes.
- HTTP and the DOM are parameters. The TMDB search is `Services.lookup`. A scraped page is the list of its `aria-label`s, or `None` when the request or the parse throws.
- `Date.now()`, `encodeURIComponent` and `new Date(d).getFullYear()` are parameters. The clock is one value for a whole run: every record that `collectMovieData` and `createUnknownsFile` fetch gets the same `dateAdded`, whereas the source reads `Date.now()` afresh in each call and its batches are 500 ms apart. A NaN year (an unparsable date) and a `URIError` from lone surrogates are not modelled.
- `console.log`/`console.error` output is left out.
- The batches of five, `Promise.all` and the 500 ms pause in `collectMovieData` are left out. The titles are handled one after another, in the same order, and the `filter(result => result)` drops nothing because every record is truthy.
- Environment variables are parameters: `skipCache` and `overrideCache`.
- `getRelativeTimeString` (floating point, wall clock, `Intl`) and `svgIcon` (markup) are not part of this model. Neither is the UI, the Express routes or the Overseerr client.
- Strings are ASCII as far as character classes go. `toLowerCase` folds A-Z only, and `\s`/`trim` know the six ASCII blanks only. Other characters are ordinary non-word characters.
- Prototype keys are excluded by preconditions, where the source would throw or read an inherited property:
  - a slug `constructor` in `mergeWatchlists`, `collectMovieData` and `createUnknownsFile`;
  - an id naming an `Object.prototype` member in `combineWatchlists`.
- `__proto__` as a key of a `deepMerge` source is treated as an ordinary key.
- Utils.Slugify: takes a string. The source calls `str.toLowerCase()` directly, so a title that is `undefined`, `null` or a number throws a `TypeError`; that throw is not modelled. Operations.MergeWatchlists requires every `googleTitle`, Tmdb.CollectMovieData every cached `title` and Tmdb.CreateUnknowns every record's `title` to be a string. In the source a TMDB result with neither `title` nor `name` yields a record without `title`, and the next `collectMovieData` that reads it from the cache throws.
- Utils.Normalize: takes a string. The source first calls `toString()` on its argument, which coerces numbers and other values and throws on `undefined` and `null`; that coercion and that throw are not modelled.
- Utils.DeepMerge: modelled on values. The source mutates and returns the target object itself, which makes `target === deepMerge(target, …)`; that identity is not modelled.
- Operations.Cache.UpdateMovie: list entries are modelled as objects. An entry that is not a plain object leaves `deepMerge` a no-op in the source too, but such entries are not represented.
- Tmdb.RerunDuplicates: the re-query is a function of the duplicate's title, as the source calls it. A re-query with a different answer on a second call for the same title is not modelled.
- Labels of scraped pages are strings: the selector `[data-hveid] a[aria-label]` matches only links that carry the attribute, so `getAttribute('aria-label')` always yields a string there.
- A property set to `undefined` is modelled as absent (`Put`). In the source, `{ title: undefined }` in `fetchMovieData` and `{ ...movie, dateAdded: undefined }` in `combineWatchlists` keep an own property holding `undefined`, which only `JSON.stringify` drops; every read in this code is a member access, which sees `undefined` either way.
- Numbers are integers. Floating-point ids, `NaN` and the like are not represented.
- `createUnknownsFile` writes people, unmatched records and re-run duplicates, and that is what is modelled.
