# Time-record core of the jornada app, in Dafny

This project models the core of a Vue time-tracking app. Users record their
working day as clock-in/clock-out pairs ("HH:mm"). The app keeps a cache of
days, computes daily and weekly totals, and stores one record per
(user, day) in a REST-like document store. In production that store is a
browser-local database behind the same paths a json-server would serve.

The modules follow the source files:

| module | file | models |
|---|---|---|
| `Wrappers` | wrappers.dfy | `Option` and `Result` |
| `JsValues` | jsvalues.dfy | JavaScript values and the coercions the code relies on: `String(v)`, `Number(v)`, truthiness, `??`, ASCII `toLowerCase`, string `<` |
| `Sorting` | sorting.dfy | the stable sort of a copy behind `[...items].sort(cmp)` |
| `Query` | query.dfy | the pure part of `src/services/adapters/localStorageAdapter.js`: `parseUrl`, `cmp`, `matchByParams`, `sortItems`, `paginate` and lookups by id |
| `DocumentStore` | store.dfy | the adapter's state and its `get`/`post`/`put`/`patch`/`delete`: first as functions from state to outcome, then as the class `LocalStore`, whose methods update the database step by step and are proved to agree with those functions |
| `Dates` | dates.dfy | `toMinutes`, `pairMinutes`, `isCrossMidnight` and `formatMinutes` of `src/plugins/dates.js` |
| `Registros` | registros.dfy | the per-day cache of `src/stores/registros.js` (`entries`, `idByDate`) as the class `RecordCache`, with its reads, its writes to the store and its local edits |
| `Jornada` | jornada.dfy | the metrics and actions of `src/stores/jornada.js`, as functions over the cache plus the class `JornadaStore` |
| `Api` | api.dfy | `makeRegistroId`, `encodeURIComponent` and the three record calls of `src/services/api.js`, routed to the document store as the production build does |

The main properties proved:
- **Document store:**
  - Ids stay unique in every collection under every operation.
  - `post` refuses a taken id.
  - `put`, `patch` and `delete` change exactly the addressed record.
  - The list query is filter, then sort (a permutation, ordered by the key), then a page window.
- **Clock arithmetic:** the two copies of `toMinutes`/`pairMinutes` agree. The cross-midnight branch, the day bound and the `formatMinutes` round trip are proved.
- **Cache:**
  - The write `persist` sends is specified, and a second persist patches the record the first one created.
  - A preload writes exactly the fetched days.
  - Sorting a day's pairs keeps them and their total.
  - Clearing from the server leaves no record of the user.
- **Jornada metrics:**
  - Incomplete pairs are never invalid.
  - Inside one day, "invalid" means a length of 0 or more than 16 hours.
  - Week figures add up, and no day worked means a zero total.
  - The history has `max(1, weeksToShow)` lines.
  - The current day is cached after a preload.
- **Record ids:** `makeRegistroId` agrees with the cache's `recordId`. The by-date read and delete address the saved record exactly when `encodeURIComponent` leaves the id unchanged.

## Model

| member | source | states |
|---|---|---|
| JsValues.Coalesce | src/services/api.js:128 | `v ?? d` is `v` unless it is nullish; with a non-nullish default it is never nullish |
| JsValues.NatToString | src/services/api.js:132 | the decimal form of a natural is non-empty and all digits, one digit exactly below 10 |
| JsValues.NatToStringRoundTrip | src/services/adapters/localStorageAdapter.js:17 | reading the digits of `String(n)` gives back `n` |
| JsValues.ParseIntToString | src/services/adapters/localStorageAdapter.js:17 | `Number(String(n)) == n` for every integer |
| JsValues.IntToStringInjective | src/services/adapters/localStorageAdapter.js:99 | distinct integers have distinct string forms, so numeric ids are told apart by `String(o.id)` |
| JsValues.NumberValue | src/stores/registros.js:18 | `Number(v)` is an integer or NaN |
| JsValues.NumberOfNumericString | src/services/adapters/localStorageAdapter.js:16-17 | any value printing as the decimal form of `n` converts back to `n` |
| JsValues.Lower | src/services/adapters/localStorageAdapter.js:58-59 | lower-casing keeps the length and maps each character by itself |
| JsValues.RemoveAll | src/services/api.js:130 | `replaceAll('-', '')` leaves no dash, never lengthens, and changes nothing without dashes |
| JsValues.RemoveAllConcat | src/stores/registros.js:84 | removing dashes distributes over concatenation |
| JsValues.LexLessTrichotomy | src/services/adapters/localStorageAdapter.js:35-38 | string `<` is a strict total order |
| JsValues.StrCmp | src/services/adapters/localStorageAdapter.js:35-38 | `cmp` on strings is 0 exactly on equal strings, negative exactly when `a < b`, positive exactly when `b < a`, with `<` the code-point order `LexLess` |
| JsValues.Stringify | src/services/adapters/localStorageAdapter.js:99 | `String(v)` for the values records hold |
| JsValues.Truthy | src/services/adapters/localStorageAdapter.js:65 | JavaScript truthiness |
| JsValues.ParseNumber | src/plugins/dates.js:96 | `Number(s)` of a string: "" is 0, an optional sign and decimal digits, otherwise NaN |
| JsValues.ToNumber | src/services/adapters/localStorageAdapter.js:16 | `Number(v)` by kind of value, NaN as none |
| JsValues.IntToString | src/services/adapters/localStorageAdapter.js:99 | `String(n)` of an integer, with a leading minus for a negative one |
| Sorting.Insert | src/services/adapters/localStorageAdapter.js:68-71 | inserting keeps every element and adds `x` |
| Sorting.Sort | src/services/adapters/localStorageAdapter.js:68-71 | the sorted copy is a permutation of the input |
| Sorting.InsertSorted | src/services/adapters/localStorageAdapter.js:68-71 | inserting into a sorted list keeps it sorted |
| Sorting.SortSorted | src/services/adapters/localStorageAdapter.js:68-71 | for an asymmetric comparator, the result is sorted |
| Query.IndexOf | src/services/adapters/localStorageAdapter.js:27-34 | the first occurrence of a character |
| Query.Split | src/services/adapters/localStorageAdapter.js:27-34 | `split` yields at least one part, the first without the separator, one part exactly when the separator is absent |
| Query.JoinSplit | src/services/adapters/localStorageAdapter.js:31-32 | `rest.join('/')` of the split pieces gives back the string |
| Query.CleanPath | src/services/adapters/localStorageAdapter.js:28-30 | the clean path has no `?` |
| Query.ParseUrl | src/services/adapters/localStorageAdapter.js:27-34 | `parseUrl`: the first segment of the clean path, and the rest joined by `/` or null; characterised by `ParseUrlSpec` |
| Query.ParseUrlSpec | src/services/adapters/localStorageAdapter.js:27-34 | the collection is the clean path up to its first `/`, the id everything after it (slashes included), or null without a `/` |
| Query.ParseItemPath | src/services/adapters/localStorageAdapter.js:27-34 | "/c/id" routes to collection `c` and id `id` |
| Query.ParseCollectionPath | src/services/adapters/localStorageAdapter.js:27-34 | "/c" routes to collection `c` with no id |
| Query.KeyCmp | src/services/adapters/localStorageAdapter.js:35-38 | the comparator is -1, 0 or 1 and 0 on equal values |
| Query.KeyCmpAntisymmetric | src/services/adapters/localStorageAdapter.js:35-38 | the model's comparator is antisymmetric, `KeyCmp(a, b) == -KeyCmp(b, a)`; JavaScript's `cmp` is not where it returns -1 both ways |
| Query.BoundOperand | src/services/adapters/localStorageAdapter.js:44 | `String(item[k] ?? '')`: the field's string form, "" when it is missing or null |
| Query.FieldTest | src/services/adapters/localStorageAdapter.js:42-55 | one filter key: an inclusive `_gte`/`_lte` bound, membership in a list, or equality of string forms |
| Query.TextTest | src/services/adapters/localStorageAdapter.js:57-61 | the `q` search: some non-null field contains the lower-cased query |
| Query.Matches | src/services/adapters/localStorageAdapter.js:39-63 | `matchByParams`: every non-reserved key passes `FieldTest`, and the `q` search passes |
| Query.Filter | src/services/adapters/localStorageAdapter.js:104 | a record is kept exactly when it is in the collection and matches; nothing is duplicated |
| Query.RangeBoundsInclusive | src/services/adapters/localStorageAdapter.js:42-47 | `_gte` and `_lte` bounds are inclusive on the string form of the field |
| Query.ReservedKeysIgnored | src/services/adapters/localStorageAdapter.js:41 | `_sort`, `_order`, `_page` and `_limit` never filter |
| Query.ItemBeforeAsymmetric | src/services/adapters/localStorageAdapter.js:68-71 | the item order of `sortItems` (either direction) is asymmetric |
| Query.SortField | src/services/adapters/localStorageAdapter.js:65-66 | a truthy `_sort` names the field to sort by; otherwise nothing is sorted |
| Query.Descending | src/services/adapters/localStorageAdapter.js:67 | the order is descending exactly when `_order` is a string that lower-cases to "desc" |
| Query.SortItems | src/services/adapters/localStorageAdapter.js:64-72 | without `_sort` the list is returned as it is; otherwise a permutation ordered by the field, reversed for "desc" |
| Query.SlicePos | src/services/adapters/localStorageAdapter.js:77 | a slice position lands within the list |
| Query.PageNumber | src/services/adapters/localStorageAdapter.js:74 | `Number(_page) \|\| 1` |
| Query.PageLimit | src/services/adapters/localStorageAdapter.js:75 | `Number(_limit) \|\| items.length` |
| Query.Paginate | src/services/adapters/localStorageAdapter.js:73-78 | `paginate`: the slice from `(page-1)*limit` of `limit` items; characterised by `PaginateWindow` |
| Query.PaginateWindow | src/services/adapters/localStorageAdapter.js:73-78 | a page is the window of at most `limit` items starting at `(page - 1) * limit` |
| Query.PaginateWholeList | src/services/adapters/localStorageAdapter.js:74-75 | with no page and no usable limit, the page is the whole list |
| Query.PaginateSubset | src/services/adapters/localStorageAdapter.js:77 | every item of a page comes from the list |
| Query.RunQuery | src/services/adapters/localStorageAdapter.js:104-107 | every listed record is in the collection and matches |
| Query.RunQueryAll | src/services/adapters/localStorageAdapter.js:104-107 | the empty query lists the collection as stored |
| Query.FilterAll | src/services/adapters/localStorageAdapter.js:104 | the empty filter keeps everything |
| Query.RunQueryComplete | src/services/adapters/localStorageAdapter.js:104-107 | without sort or paging, every matching record is listed |
| Query.FindIndex | src/services/adapters/localStorageAdapter.js:136 | the first record whose `String(id)` equals the key, or -1 exactly when none does |
| Query.IdKey | src/services/adapters/localStorageAdapter.js:99 | `String(o.id)`, the key records are compared by |
| Query.RemoveKey | src/services/adapters/localStorageAdapter.js:174 | the filter keeps exactly the records with another id; the length is unchanged exactly when none had it |
| Query.MaxNumericId | src/services/adapters/localStorageAdapter.js:15-18 | the largest finite numeric id (0 if none), bounding every numeric id |
| Query.AutoIdIsFresh | src/services/adapters/localStorageAdapter.js:11-26 | a counter above every numeric id names no record |
| DocumentStore.WithCollection | src/services/adapters/localStorageAdapter.js:11-21 | a missing collection becomes empty; a missing counter starts one above the largest numeric id; everything else is kept |
| DocumentStore.Prepare | src/services/adapters/localStorageAdapter.js:83-96 | after seeding and `ensureCollection`, the collection and its counter exist |
| DocumentStore.FreshCounterIsFree | src/services/adapters/localStorageAdapter.js:13-20 | a freshly started counter names no record |
| DocumentStore.PrepareIdle | src/services/adapters/localStorageAdapter.js:11-14 | with the collection and counter present, preparation changes nothing |
| DocumentStore.PrepareConsistent | src/services/adapters/localStorageAdapter.js:83-89 | seeding and `ensureCollection` keep ids unique |
| DocumentStore.AppendUnique | src/services/adapters/localStorageAdapter.js:122-125 | appending a record with a new id keeps ids unique |
| DocumentStore.UpdateUnique | src/services/adapters/localStorageAdapter.js:146 | replacing a record by one with the same id keeps ids unique |
| DocumentStore.RemoveUnique | src/services/adapters/localStorageAdapter.js:174 | removing records keeps ids unique |
| DocumentStore.FindAppended | src/services/adapters/localStorageAdapter.js:125 | an appended record with a new id is found at the end |
| DocumentStore.CreateKeepsIdsUnique | src/services/adapters/localStorageAdapter.js:110-128 | `post` keeps ids unique in every collection |
| DocumentStore.ReplaceKeepsIdsUnique | src/services/adapters/localStorageAdapter.js:130-150 | `put` keeps ids unique |
| DocumentStore.MergeKeepsIdsUnique | src/services/adapters/localStorageAdapter.js:152-165 | `patch` keeps ids unique |
| DocumentStore.RemoveKeepsIdsUnique | src/services/adapters/localStorageAdapter.js:167-178 | `delete` keeps ids unique |
| DocumentStore.CreateConflict | src/services/adapters/localStorageAdapter.js:121-123 | a `post` with a taken id is a Conflict that adds no record |
| DocumentStore.PostThenGet | src/services/adapters/localStorageAdapter.js:110-128 | a `post` with a free id appends the record, touches no other collection, saves, and a `get` of its id returns it |
| DocumentStore.PostAutoId | src/services/adapters/localStorageAdapter.js:117-118 | a body without id takes the counter, which advances by one |
| DocumentStore.FirstAutoIdNeverConflicts | src/services/adapters/localStorageAdapter.js:13-26 | the first auto id of a collection never conflicts |
| DocumentStore.PutSpec | src/services/adapters/localStorageAdapter.js:130-150 | `put` stores the body under the path id with a new `updatedAt`; a replaced record keeps its place and `createdAt`, others are untouched, an absent one is appended |
| DocumentStore.StampedFields | src/services/adapters/localStorageAdapter.js:130-150 | the record `put` stores has the body keys plus `id`, `updatedAt`, `createdAt`; other body fields are unchanged |
| DocumentStore.PatchSpec | src/services/adapters/localStorageAdapter.js:152-165 | `patch` of an absent id is NotFound and changes nothing; otherwise a shallow merge in place, with body fields winning |
| DocumentStore.MergedFields | src/services/adapters/localStorageAdapter.js:162 | the merged record has the stored and body keys plus `id` and `updatedAt`; body fields win, other stored fields are kept |
| DocumentStore.CreateTwiceConflicts | src/services/adapters/localStorageAdapter.js:121-125 | a body with its own id that was created once is refused with Conflict the second time |
| DocumentStore.DeleteSpec | src/services/adapters/localStorageAdapter.js:167-178 | `delete` is NotFound exactly when no record had the id; otherwise it removes it, keeps the others and returns `{}` |
| DocumentStore.RemovedKeyAbsent | src/services/adapters/localStorageAdapter.js:174 | after the filter no record has the id |
| DocumentStore.RemoveNothing | src/services/adapters/localStorageAdapter.js:174-175 | the filter changes nothing when no record has the id |
| DocumentStore.LocalStore.constructor | src/services/adapters/localStorageAdapter.js:4-7 | the store starts from the saved database, or an empty one |
| DocumentStore.LocalStore.EnsureSeed | src/services/adapters/localStorageAdapter.js:83-89 | an empty database is replaced by the seed and saved |
| DocumentStore.LocalStore.EnsureCollection | src/services/adapters/localStorageAdapter.js:11-21 | the state becomes `WithCollection` of the old one |
| DocumentStore.LocalStore.NextId | src/services/adapters/localStorageAdapter.js:22-26 | returns the counter and increments it |
| DocumentStore.LocalStore.Read | src/services/adapters/localStorageAdapter.js:96-107 | new state and answer equal `ReadOp` |
| DocumentStore.LocalStore.Create | src/services/adapters/localStorageAdapter.js:114-127 | new state and answer equal `CreateOp` |
| DocumentStore.LocalStore.Replace | src/services/adapters/localStorageAdapter.js:134-149 | new state and answer equal `ReplaceOp` |
| DocumentStore.LocalStore.Merge | src/services/adapters/localStorageAdapter.js:156-164 | new state and answer equal `MergeOp` |
| DocumentStore.LocalStore.Remove | src/services/adapters/localStorageAdapter.js:171-177 | new state and answer equal `RemoveOp` |
| DocumentStore.LocalStore.Get | src/services/adapters/localStorageAdapter.js:92-108 | new state and answer equal `GetOp`, an empty collection name being an invalid path |
| DocumentStore.LocalStore.Post | src/services/adapters/localStorageAdapter.js:110-128 | new state and answer equal `PostOp` |
| DocumentStore.LocalStore.Put | src/services/adapters/localStorageAdapter.js:130-150 | new state and answer equal `PutOp`; a missing id is an invalid path |
| DocumentStore.LocalStore.Patch | src/services/adapters/localStorageAdapter.js:152-165 | new state and answer equal `PatchOp` |
| DocumentStore.LocalStore.Delete | src/services/adapters/localStorageAdapter.js:167-178 | new state and answer equal `DeleteOp` |
| DocumentStore.Load | src/services/adapters/localStorageAdapter.js:4-7 | `load()`: the saved database, or an empty one |
| DocumentStore.SeedStep | src/services/adapters/localStorageAdapter.js:83-89 | `ensureSeed()`: a database without collections is replaced by the seed and saved |
| DocumentStore.ReadOp | src/services/adapters/localStorageAdapter.js:96-107 | `get` on a collection: the first record with the id or NotFound; without an id, filter, sort and page |
| DocumentStore.NewItem | src/services/adapters/localStorageAdapter.js:119 | the record `post` inserts: the body with its id, and `createdAt`/`updatedAt` kept or set to now |
| DocumentStore.PostId | src/services/adapters/localStorageAdapter.js:118 | the body's own id when it is not nullish, otherwise the collection counter |
| DocumentStore.CreateOp | src/services/adapters/localStorageAdapter.js:113-127 | `post` on a collection: Conflict (counter advanced, nothing saved) when the id is taken, otherwise appended and saved |
| DocumentStore.ReplaceOp | src/services/adapters/localStorageAdapter.js:134-149 | `put` on a collection: replaced in place or appended, with the path id, `updatedAt` and the kept `createdAt` |
| DocumentStore.Merged | src/services/adapters/localStorageAdapter.js:162 | the `patch` record: the stored record, then the body, then the path id and `updatedAt` |
| DocumentStore.MergeOp | src/services/adapters/localStorageAdapter.js:156-164 | `patch` on a collection: NotFound, or the merged record written in place and saved |
| DocumentStore.RemoveOp | src/services/adapters/localStorageAdapter.js:171-177 | `delete` on a collection: every record with the id filtered out; NotFound, unsaved, when none had it |
| DocumentStore.GetOp | src/services/adapters/localStorageAdapter.js:92-108 | `get(path)`: InvalidPath for an empty collection name, otherwise `ReadOp` on the parsed route |
| DocumentStore.PostOp | src/services/adapters/localStorageAdapter.js:110-128 | `post(path)`: InvalidPath for an empty collection name, otherwise `CreateOp` |
| DocumentStore.PutOp | src/services/adapters/localStorageAdapter.js:130-150 | `put(path)`: InvalidPath without a collection or id, otherwise `ReplaceOp` |
| DocumentStore.PatchOp | src/services/adapters/localStorageAdapter.js:152-165 | `patch(path)`: InvalidPath without a collection or id, otherwise `MergeOp` |
| DocumentStore.DeleteOp | src/services/adapters/localStorageAdapter.js:167-178 | `delete(path)`: InvalidPath without a collection or id, otherwise `RemoveOp` |
| Dates.ToMinutes | src/plugins/dates.js:94-98 | a number exactly for the `\d{2}:\d{2}` shape, then between 0 and 99*60+99 |
| Dates.ToMinutesOfClock | src/plugins/dates.js:94-98 | "HH:mm" reads as `h*60+m` |
| Dates.ClockOfToMinutes | src/plugins/dates.js:94-98 | every accepted string is some "HH:mm" and reads as `h*60+m` |
| Dates.NoRangeCheck | src/plugins/dates.js:95 | hours and minutes are not range-checked: "99:99" is 6039 and "01:60" equals "02:00" |
| Dates.PairMinutes | src/plugins/dates.js:101-108 | never negative; 0 for a missing pair or an invalid end, and for equal ends |
| Dates.PairMinutesExamples | src/plugins/dates.js:101-108 | 09:00–12:00 is 180, 23:00–01:00 is 120, equal ends and an empty end are 0 |
| Dates.ClampReached | src/plugins/dates.js:106-107 | "99:99"–"00:00" crosses midnight and the clamp makes it 0 |
| Dates.PairMinutesWithinDay | src/plugins/dates.js:101-108 | for times within one day, the length is `(out - in) mod 1440` and below 1440 |
| Dates.CrossMidnightBranch | src/plugins/dates.js:111-116 | crossing midnight is exactly `out < in`, exactly the branch that adds a day |
| Dates.CrossMidnightWithinDay | src/plugins/dates.js:106 | a crossing pair ends one day after it starts |
| Dates.IsCrossMidnight | src/plugins/dates.js:111-116 | false when either end cannot be read, otherwise `out - in < 0` |
| Dates.PadStart2 | src/plugins/dates.js:122 | a short string is padded to two characters |
| Dates.FormatMinutes | src/plugins/dates.js:119-124 | "Xh YYm" of the clamped minutes; characterised by `FormatMinutesRoundTrip` |
| Dates.FormatMinutesRoundTrip | src/plugins/dates.js:119-124 | "Xh YYm" has two-digit minutes below 60 and reads back as the clamped input |
| Dates.FormatMinutesExamples | src/plugins/dates.js:119-124 | missing and negative inputs give "0h 00m"; 125 gives "2h 05m" |
| Registros.ToMinutesAgree | src/stores/registros.js:66-70 | this file's `toMinutes` agrees with the dates helper on every string |
| Registros.PairMinutesAgree | src/stores/registros.js:71-78 | this file's `pairMinutes` agrees with the dates helper on every pair |
| Registros.ToMinutes | src/stores/registros.js:66-70 | this file's `toMinutes`: the shape test, then `Number` of each side of the colon |
| Registros.PairMinutes | src/stores/registros.js:71-78 | this file's `pairMinutes`: 0 when an end cannot be read, a day added when the out is earlier, never negative |
| Registros.DayTotal | src/stores/registros.js:176 | a day total is never negative |
| Registros.DayTotalAppend | src/stores/registros.js:176 | the total of two lists is the sum of their totals |
| Registros.DayTotalPermutation | src/stores/registros.js:176 | the total does not depend on the order of the pairs |
| Registros.RecordIdExample | src/stores/registros.js:80-86 | day "2025-09-09" of user 1 gets "20250909-1" |
| Registros.IsoDayDigits | src/stores/registros.js:84 | a "YYYY-MM-DD" day loses exactly its two dashes |
| Registros.RecordIdInjective | src/stores/registros.js:83-86 | distinct (numeric user, day) pairs get distinct ids |
| Registros.RecordId | src/stores/registros.js:83-86 | `recordId`: the day without dashes, a dash, and `String(uid)` |
| Registros.PairsOf | src/stores/registros.js:119 | a `pares` that is not a list reads as no pairs |
| Registros.PairsRoundTrip | src/stores/registros.js:184-211 | pairs written to a record read back, as the day load at registros.js line 119 reads them, as the same pairs |
| Registros.DayFetched | src/stores/registros.js:116-124 | an empty answer reads as no pairs and a null id |
| Registros.DayQuery | src/stores/registros.js:111-114 | the `fetchDay` query: `userId`, `data` and `_limit=1` |
| Registros.DayQueryMatches | src/stores/registros.js:112-114 | the day query matches exactly the records of that user and day |
| Registros.DayQueryResult | src/stores/registros.js:111-125 | the day query returns at most one record, none exactly when the user has no record of the day |
| Registros.DayFilter | src/stores/registros.js:111-125 | the day query keeps a record exactly when it belongs to that user and day |
| Registros.RangeMap | src/stores/registros.js:143-147 | the day map has a key exactly for each fetched record's day |
| Registros.RangeQuery | src/stores/registros.js:137-141 | the `fetchRange` query: `userId`, inclusive `data` bounds, sorted by `data` ascending |
| Registros.LastOfDayExtend | src/stores/registros.js:144-146 | the last record of a day stays last when another day's record follows |
| Registros.RangeMapLastWins | src/stores/registros.js:144-146 | each day of the map comes from the last record of that day |
| Registros.RemoveAt | src/stores/registros.js:229-234 | `splice(index, 1)` on a copy: the pair at the index goes, a negative index counts from the end and is clamped, an index past the end removes nothing |
| Registros.RemoveAtTotal | src/stores/registros.js:229-234 | removing a pair takes its length off the day total |
| Registros.DuplicateTotal | src/stores/registros.js:235-240 | duplicating a pair adds its length to the day total |
| Registros.SortByStartSpec | src/stores/registros.js:241-244 | sorting keeps the same pairs and the same total |
| Registros.SortByStartOrdered | src/stores/registros.js:241-244 | with valid clock-ins, the pairs end up ordered by clock-in |
| Registros.SortByStart | src/stores/registros.js:241-244 | the sorted copy by `toMinutes(in)`, an unreadable clock-in comparing equal to any; characterised by `SortByStartSpec` and `SortByStartOrdered` |
| Registros.Current | src/stores/registros.js:175 | `entries[iso] \|\| []` |
| Registros.PlanPersist | src/stores/registros.js:172-219 | with a known id, a patch of `pares`, `totalMin` and `updatedAt`; otherwise a create of the full record under `recordId(userId, iso)` |
| Registros.SecondPersistUpdates | src/stores/registros.js:180-217 | after a created record is remembered, the next persist of the day patches it |
| Registros.AfterWrite | src/stores/registros.js:217 | the id map after a write: the new id set only after a successful create |
| Registros.CreateThenUpdateOneRecord | src/stores/registros.js:172-219 | a create followed by the patch of the next persist leaves exactly one record of the day, rewritten in place |
| Registros.PreloadTouchesOnlyFetchedDays | src/stores/registros.js:150-157 | a preload sets each fetched day and its non-null id, and leaves every other day as it was |
| Registros.WithDaysPut | src/stores/registros.js:153 | writing one more fetched day sets its pairs |
| Registros.WithIdsPut | src/stores/registros.js:154 | writing one more fetched day sets its id unless null |
| Registros.WithDays | src/stores/registros.js:152-153 | the pairs map with every fetched day written over it |
| Registros.WithIds | src/stores/registros.js:152-154 | the id map with every fetched day's non-null id written over it |
| Registros.CollectDays | src/stores/registros.js:143-147 | the loop builds exactly the day map |
| Registros.RecordCache.constructor | src/stores/registros.js:5-15 | an empty cache with no user |
| Registros.RecordCache.Init | src/stores/registros.js:17-20 | a non-nullish user id is stored as `Number(uid)`; a nullish one keeps the old user |
| Registros.RecordCache.PairsCountOf | src/stores/registros.js:97-100 | the number of pairs of a day, 0 when it is not cached |
| Registros.RecordCache.PairsCountByDate | src/stores/registros.js:89-96 | one count per cached day, each equal to `pairsCountOf` |
| Registros.RecordCache.EnsureDayLoaded | src/stores/registros.js:127-132 | a cached day is left alone; otherwise the day query's first record is cached with its id when non-null |
| Registros.LoadDay | src/stores/registros.js:127-132 | `ensureDayLoaded` on values: the day is cached afterwards, every cached day keeps its pairs, every other day keeps its id, and a cached day leaves the store as it was |
| Registros.LoadDayFetches | src/stores/registros.js:111-132 | loading an uncached day caches the pairs of the first record of that user and day, or none (and no id) when there is none |
| Registros.RecordCache.FetchRange | src/stores/registros.js:134-148 | the day map of the range query's answer |
| Registros.RecordCache.PreloadRange | src/stores/registros.js:150-157 | the cache becomes the old one with every fetched day written |
| Registros.RecordCache.WriteDays | src/stores/registros.js:152-155 | the loop writes every fetched day and its non-null id |
| Registros.RecordCache.WriteDay | src/stores/registros.js:153-154 | one fetched day: its pairs are cached, and its id unless that id is null or undefined |
| Registros.RecordCache.Persist | src/stores/registros.js:172-219 | sends exactly the planned write; a created id is remembered only when the store accepted it |
| Registros.RecordCache.SendCreate | src/stores/registros.js:190-217 | the store changes as `CreateOp` says; the new id is remembered for the day exactly when the create succeeded |
| Registros.RecordCache.SetPairs | src/stores/registros.js:222-224 | a copy of the list, or no pairs when it is not a list |
| Registros.RecordCache.AddPair | src/stores/registros.js:225-228 | one pair appended, a missing end read as "" |
| Registros.RecordCache.RemovePairAt | src/stores/registros.js:229-234 | the day becomes `RemoveAt` of its pairs |
| Registros.RecordCache.DuplicatePairAt | src/stores/registros.js:235-240 | a copy of the indexed pair is appended; with no pair there, nothing changes |
| Registros.RecordCache.SortPairsAsc | src/stores/registros.js:241-244 | the day's pairs are sorted by clock-in |
| Registros.RecordCache.ClearDay | src/stores/registros.js:245-247 | the day stays cached with no pairs |
| Registros.RecordCache.ClearAllFromClient | src/stores/registros.js:248-255 | both maps are emptied |
| Registros.RecordCache.ClearAllFromServer | src/stores/registros.js:257-266 | no record of the user remains and none is added; while ids are unique, every record of another user stays; only the records collection changes; the cache is emptied |
| Registros.NoOwnerLeft | src/stores/registros.js:257-266 | once every id the user query listed is gone, no remaining record belongs to the user |
| Registros.RecordCache.DeleteEach | src/stores/registros.js:260-264 | after one delete per listed record, none of their ids remains, every record with another id stays, and no other collection or counter changes |
| Registros.DeletedUpTo | src/stores/registros.js:260-264 | after the first `i` deletes: only the collection changed, it holds only records it held, none with a deleted id, and every record with no deleted id |
| Registros.DeletedStep | src/stores/registros.js:262 | one more delete by the next listed id moves `DeletedUpTo` one record on |
| Registros.OwnerMatches | src/stores/registros.js:258 | a record passes the user filter exactly when its `String(userId)` is the user's |
| Registros.OthersKept | src/stores/registros.js:257-266 | with unique ids, deleting the ids the user query listed keeps every record of another user |
| Registros.SameIdSameRecord | src/services/adapters/localStorageAdapter.js:174 | in a collection with unique ids, one id names one record, so deleting by id removes only that record |
| Jornada.DayTotal | src/stores/jornada.js:53 | a day total is never negative, and 0 for no pairs |
| Jornada.DayTotalAgree | src/stores/jornada.js:53 | the page's total equals the total the cache persists |
| Jornada.TotalOfDate | src/stores/jornada.js:71-74 | an uncached day totals 0; otherwise the day's total |
| Jornada.DayRem | src/stores/jornada.js:65 | JavaScript `%`: the remainder has the dividend's sign and differs from it by a multiple of 1440 |
| Jornada.IncompleteCount | src/stores/jornada.js:57 | at most the number of pairs |
| Jornada.Incomplete | src/stores/jornada.js:57 | a pair lacking a truthy `in` or `out` |
| Jornada.InvalidCount | src/stores/jornada.js:58-68 | at most the number of pairs |
| Jornada.Invalid | src/stores/jornada.js:60-67 | a complete pair with an unreadable end, or a circular difference of 0 or over 960 minutes |
| Jornada.CountsDisjoint | src/stores/jornada.js:57-61 | incomplete pairs are never invalid: the two counts add up to at most the number of pairs |
| Jornada.InvalidWithinDay | src/stores/jornada.js:58-68 | within one day, a complete pair is invalid exactly when its length is 0 or over 960 |
| Jornada.DayRemShift | src/stores/jornada.js:65 | for two times of one day, adding a day before taking the remainder changes nothing |
| Jornada.OutOfRangeNotFlagged | src/stores/jornada.js:62-66 | "99:99"–"00:00" counts 0 minutes yet is not invalid, because the circular difference is negative |
| Jornada.CountPositive | src/stores/jornada.js:86 | at most the number of days |
| Jornada.WorkedIffTotal | src/stores/jornada.js:85-86 | with non-negative day totals, no day worked exactly when the total is 0 |
| Jornada.Totals | src/stores/jornada.js:96-100 | one non-negative total per day |
| Jornada.Summarize | src/stores/jornada.js:85-87 | total is the sum, `daysWorked` the count of positive days (0 exactly when the total is 0), the average 0 without days worked and otherwise `total / daysWorked` |
| Jornada.CurrentWeek | src/stores/jornada.js:75-88 | seven days from the week start, each with its total, and the figures over them (`daysWorked` at most 7) |
| Jornada.HistoryOf | src/stores/jornada.js:93-109 | the week `i` back: key "first_last" and the figures of its seven days |
| Jornada.NextUser | src/stores/jornada.js:27 | `Number(uid) \|\| null`: a non-zero number or null |
| Jornada.NextUserStable | src/stores/jornada.js:27-28 | normalising an already normalised id changes nothing |
| Jornada.TargetOf | src/stores/jornada.js:32 | `Number(target) \|\| 480`: never 0, 480 when missing, 0 or not a number |
| Jornada.JornadaStore.constructor | src/stores/jornada.js:19-24 | no user, target 480, today, four weeks |
| Jornada.JornadaStore.Pairs | src/stores/jornada.js:52 | the current day's pairs, none when it is not cached |
| Jornada.JornadaStore.Init | src/stores/jornada.js:26-43 | normalised user and target; only a change of user empties the cache and returns to today |
| Jornada.JornadaStore.EnsureCurrentDayLoaded | src/stores/jornada.js:137-139 | the store and cache become `LoadDay` of the old ones for the current day: the current day is cached, and every cached day is kept |
| Jornada.JornadaStore.PreloadWeeksRange | src/stores/jornada.js:140-151 | the store read of the range from the oldest week shown to the end of this week, the cache written with the fetched days, the current day defaulted to no pairs; all of it equal to `PreloadWeeks` |
| Jornada.PreloadWeeks | src/stores/jornada.js:140-151 | `preloadWeeksRange` on values: the range query from the oldest week shown to the end of this week, its days written into the cache, the current day defaulted to no pairs |
| Jornada.PreloadWeeksCaches | src/stores/jornada.js:140-151 | after the preload the store is prepared, the current day is cached, and no cached day or id is dropped |
| Jornada.JornadaStore.SwitchUser | src/stores/jornada.js:45-49 | `init` with the kept target, so `reg.userId` becomes `NextUser(uid)` when that is not null and otherwise keeps its old value (uid 0, "" or "abc" leave the previous user in place); then the store and cache become `LoadDay` of the current day followed by `PreloadWeeks`, starting from an empty cache exactly when the user changed |
| Jornada.TargetOfNum | src/stores/jornada.js:32 | a target passed back into `init` (as `switchUser` does at line 46) is kept, except 0, which falls back to 480 |
| Jornada.JornadaStore.WeeklyHistory | src/stores/jornada.js:90-111 | exactly `max(1, weeksToShow)` lines, line `i` the figures of the week `i` back |
| Jornada.JornadaStore.SetPairs | src/stores/jornada.js:159-161 | `setPairs` on the current day |
| Jornada.JornadaStore.AddPair | src/stores/jornada.js:162-165 | an empty pair appended to the current day; then the store changes by the Merge or Create that `PlanPersist` plans for the new pairs, and a created id is remembered only on success |
| Jornada.JornadaStore.RemovePair | src/stores/jornada.js:166-168 | `removePairAt` on the current day |
| Jornada.JornadaStore.DuplicatePair | src/stores/jornada.js:169-171 | `duplicatePairAt` on the current day |
| Jornada.JornadaStore.SortPairs | src/stores/jornada.js:172-174 | `sortPairsAsc` on the current day |
| Jornada.JornadaStore.ClearDay | src/stores/jornada.js:175-177 | `clearDay` on the current day |
| Jornada.JornadaStore.Persist | src/stores/jornada.js:178-180 | the store changes by the Merge or Create that `PlanPersist` plans for the current day; a created id is remembered only on success |
| Jornada.JornadaStore.ClearAll | src/stores/jornada.js:181-185 | no record of the user remains; while ids are unique, every record of another user stays; only the records collection changes; the cache holds only the current day, with no pairs |
| Api.First10 | src/services/api.js:129 | `slice(0, 10)` |
| Api.DayPart | src/services/api.js:128-130 | the day part has no dash and at most ten characters |
| Api.MakeRegistroId | src/services/api.js:127-133 | fails exactly when the day part is empty or the user is falsy; otherwise the first dash splits the id into the day part and `String(userId)` |
| Api.MakeRegistroIdAgrees | src/services/api.js:127-133 | for a "YYYY-MM-DD" day and a non-zero user, it equals the cache's `recordId` (arguments swapped) |
| Api.MakeRegistroIdIgnoresTime | src/services/api.js:129 | only the first ten characters of the date count |
| Api.MakeRegistroIdRefuses | src/services/api.js:131 | a missing date, an all-dash date and a user of 0, null or undefined are refused |
| Api.EncodeURIComponent | src/services/api.js:141 | the result holds only unreserved characters and `%XY` escapes, so no `/` or `?`, and is never shorter |
| Api.EncodeIdentity | src/services/api.js:141 | encoding changes nothing exactly when every character is unreserved |
| Api.Utf8 | src/services/api.js:141 | the UTF-8 bytes `encodeURIComponent` escapes a character as |
| Api.EncodeChar | src/services/api.js:141 | one character: itself when unreserved, otherwise `%XY` per UTF-8 byte |
| Api.RecordIdUnreserved | src/services/api.js:127-133 | ids of an ISO day and a numeric user need no escaping |
| Api.CollectionRoute | src/services/api.js:148 | "/registros" routes to the records collection without id |
| Api.ItemPath | src/services/api.js:141 | the record path "/registros/" followed by the encoded id |
| Api.ItemRoute | src/services/api.js:141-153 | a record path routes to the ENCODED id; it reaches `id` exactly when encoding leaves it unchanged |
| Api.SaveBody | src/services/api.js:144-149 | the payload with `id` set to the record id, overriding any previous id; refused exactly when the id is |
| Api.SaveRegistro | src/services/api.js:144-149 | an invalid payload changes nothing; otherwise the body is posted to "/registros" |
| Api.GetRegistroByDate | src/services/api.js:139-142 | a `get` of the record path of the id |
| Api.DeleteRegistroByDate | src/services/api.js:151-154 | a `delete` of the record path of the id |
| Api.ByDateAddressesSavedId | src/services/api.js:139-154 | for an ISO day and a numeric user, get and delete by date act on the record `saveRegistro` names |
| Api.SaveCreates | src/services/api.js:148 | saving is a `post` on the records collection |
| Api.PostWithId | src/services/api.js:148 | a post with an id succeeds exactly when no record has that id |
| Api.PostThenReadById | src/services/api.js:139-149 | after a successful post, a read of the record path finds the new record |
| Api.PostTwiceConflicts | src/services/api.js:144-149 | posting the same record again is a Conflict |
| Api.SaveThenReadByDate | src/services/api.js:139-149 | after saving a day, reading it by date finds the saved record, and saving it again is a Conflict |

## Left out

- I/O and the transport. This covers `fetch`, `_json`, `request`, URL query strings and `apiBase`. The cache talks to the store through its routed operations: the server decodes record paths, so ids reach it as they are. Of `request`, only the production routing to the local store is modelled; the json-server path through `fetch` is left out.
- `localStorage` itself, JSON parsing, and the dynamic import of the seed file. The saved snapshot is the `saved` field, and the seed is an optional initial database.
- Time. `new Date().toISOString()` is the `now` parameter and `todayISO()` is the `today` parameter.
- The calendar helpers of dates.js and registros.js. These are `asDate`, `toISODate`, `addDays`, `getWeekStart`, `formatShort`, `weekLabel`, `dateISOAtWeekOffset`, `pairMinutesTz` and the weekday labels. They depend on `date-fns`, time zones and `Date`. Days are opaque "YYYY-MM-DD" strings, and the days around the current week are the parameter `dayAt`. So the week and history labels and `currentWeekStart` are not modelled.
- Concurrency. This covers the `enqueue` promise queues, `Promise.all` in `clearAllFromServer` and `getUserById`, and `await` interleavings. Writes run one at a time in call order.
- The reactive wiring. The `watch` calls that reload on a date or week change are not modelled; callers invoke `EnsureCurrentDayLoaded` and `PreloadWeeksRange` explicitly.
- `apiBase` normalisation in both `init` functions.
- Floating point. `progressDaily` is left out. `avgPerDay` is an exact rational, while the page divides in floating point.
- Numbers are integers. `Number(s)` covers "", an optional sign and decimal digits; whitespace, fractions, exponents, hex and `Infinity` are left out. `formatMinutes` takes an integer, so `Math.round` is the identity.
- `toLowerCase` is ASCII-only, in the `q` search.
- Query.KeyCmp: the JavaScript comparator returns 0 only for `a === b`, otherwise 1 when `a > b` and -1 else. JavaScript's `>` turns records and arrays into their string forms, compares two strings as strings, and otherwise converts both sides to numbers (`null` and `false` to 0, `true` to 1, `undefined` to NaN, a string by `Number`). So `cmp` returns -1 both ways, and is not an order, exactly where neither side is greater for two values that are not identical. That happens when a side converts to NaN (NaN itself, `undefined`, or a non-numeric string against a number, boolean or `null`). It also happens when both sides convert to equal values: `"5"` against 5, `null` against 0 or `false`, two distinct record objects, or two distinct arrays with the same string form. The model instead orders values of two different kinds by kind, and returns 0 for NaN against NaN, for any two records and for arrays with the same string form. On the mixed-kind pairs that JavaScript does order consistently, the kind order can give the opposite sign: the model has `KeyCmp(Str("3"), Num(5)) == 1` where `cmp("3", 5)` is -1, `KeyCmp(Bool(true), Num(0)) == -1` where `cmp(true, 0)` is 1, and `KeyCmp(Null, Num(-1)) == -1` where `cmp(null, -1)` is 1. Query.SortItems and Query.RunQuery inherit both differences on a `_sort` field whose values mix kinds, such as `id` when numeric and string ids coexist.
- JsValues.StrCmp: the model compares strings by Unicode code point, while JavaScript's `<` and `>` compare UTF-16 code units. The two orders differ when a character above U+FFFF (encoded with a surrogate in D800–DBFF) meets one in U+E000–U+FFFF: by code point the first is larger, by code unit it is smaller. `JsValues.LexLess` and every `_gte`/`_lte` bound and `_sort` on strings inherit this difference.
- Query.SortItems: an `_order` that is truthy but not a string makes `toLowerCase` throw. The model does not throw: it sorts ascending for every `_order` that is not a string. On a `_sort` field whose values mix kinds, its order follows the Query.KeyCmp line above.
- Registros.RecordCache.SortPairsAsc: when a clock-in cannot be read, the comparator returns NaN, which the sort reads as 0. The comparator is then inconsistent and the order is engine-defined. `SortByStart` gives one such order, which can differ from a given engine's; the empty pair that `addPair` appends is the usual case.
- DocumentStore.WithCollection: a collection name that clashes with a key the db object already has that is not an array (`_meta`, or an inherited one such as `constructor`, `toString` or `__proto__`) makes the JavaScript throw a TypeError: in `reduce` inside `ensureCollection` when the name has no counter yet, and otherwise in the `find`, `filter`, `some` or `findIndex` of the operation. The model keeps collections apart from `_meta` and has no inherited keys, so every such name behaves as an ordinary collection, empty at first; `DocumentStore.Prepare` and the `GetOp`…`DeleteOp` operations inherit this. The record cache only ever uses `registros`.
- Sorting.Sort: stability is not stated as a property.
- Pair ends: a non-string `in`/`out` read from the server becomes "".
- Registros.RecordCache.ClearAllFromServer: the deletes use each listed record's `String(id)`. A delete that fails (an id another delete already removed) is ignored, as `Promise.all` over `fetch` ignores HTTP errors.
- Api.First10: `slice` counts UTF-16 code units, the model counts characters. They differ only for characters outside the Basic Multilingual Plane.
- Api.SaveBody: a null payload (`payload \|\| {}`) is not modelled separately. It behaves like an empty payload, which is refused.
- `getUserById`, `patchUser`, `getRegistrosByUser`, `getEscalasByUser` and `http` are I/O wrappers outside the record core.
- `src/stores/auth.js`, `src/stores/user.js`, the router, the theme and the breadcrumbs are not part of this model. The approval workflow is not implemented by any of the modelled files.
