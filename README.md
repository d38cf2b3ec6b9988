# DescuentosUY core, modelled in Dafny

DescuentosUY is a Next.js site that lists store discounts in Uruguay near the
user. This project models the client- and page-side logic that decides what the
site shows and remembers:

- **Home ranking** (`HomeRanking`). The `search_stores` rows, one per branch,
  are collapsed into one store per `store_id`, keeping the nearest branch.
  The best-discount list and the nearby list take six stores each. The link to
  the map carries the search fields.
- **Search fields** (`Search`, `UrlParams`). `URLSearchParams` is a class over an
  ordered list of pairs. `Search` holds the RPC argument defaults and the
  `data ?? []` fallback shared by both pages.
- **Map page** (`MapPage`): the link back to the list.
- **Location storage** (`LocationStorage`): the session record of the last fix
  or of a denial. The session store is a class over a `map<string, string>`,
  and an invariant is proved for every sequence of mutations.
- **Location overlay** (`LocationStatus`): the accuracy and age labels, the
  filter on the coordinate inputs, manual location (typed coordinates or a
  geocoded address), the retry button and what the overlay shows.
- **Location handler** (`LocationHandler`). The component's refs are fields of a
  class. It gates the one-time position request, accepts or rejects watch
  updates, stops the watch, and handles permission denials.
- **Store page** (`StoreDetail`). Branch distances are attached, then the
  branches are sorted in place by distance or by rating; the sort is an
  insertion sort over an array.
- **Opening hours** (`OpeningHours`): today's line and hours, the word-for-word
  Spanish translation loop, the badge, the view and its toggle.
- **Leaflet icons** (`LeafletIcons`): resolving a bundled image's URL from the
  shapes bundlers produce, with a fallback.

`JSON.stringify`/`JSON.parse`, `Number()`, `parseFloat`, `calculateDistance`,
URL encoding, number-to-text conversion, `Date.now()` and the geocoding request
are parameters of the operations that use them. Nothing is assumed about them
in general; each read-back lemma requires only the one fact it uses:
`SaveThenLoad` that the saved meta's text parses back to that meta and is not
empty, `DeniedThenLoad` that the printed time reads back as the same number,
and `DeniedWithoutTimestamp` that `Number('')` is 0.

## Model

| member | source | states |
|---|---|---|
| Js.TrimKeepsEnds | descuentosuy/src/components/OpeningHours.tsx:37 | `trim()` yields a slice of the text with no whitespace at either end |
| Js.TrimEmpty | descuentosuy/src/components/OpeningHours.tsx:37 | the trimmed text is empty exactly when the text is all whitespace |
| Js.TrimNoWhitespace | descuentosuy/src/components/OpeningHours.tsx:37 | a text without whitespace trims to itself |
| UrlParams.SetPair | descuentosuy/src/components/LocationHandler.tsx:19-20 | after `set(name, value)`, `get(name)` is the new value and every other name keeps its value |
| UrlParams.SetPairOthers | descuentosuy/src/components/LocationHandler.tsx:19-20 | `set` touches only the pairs of its own name: with those removed, the list is the same before and after, order and repeats included, and afterwards exactly one pair has that name |
| UrlParams.SetPairNew | descuentosuy/src/components/LocationHandler.tsx:19-20 | setting a name that is not yet present appends one pair at the end |
| UrlParams.RemoveName | descuentosuy/src/components/LocationStatus.tsx:116-117 | after `delete(name)` the name is gone, all other lookups are unchanged, and a list without the name is untouched |
| UrlParams.RemoveNameSubsequence | descuentosuy/src/components/LocationStatus.tsx:116-117 | `delete` keeps the remaining pairs in their order |
| UrlParams.RemoveNameCounts | descuentosuy/src/components/LocationStatus.tsx:116-117 | `delete` drops every pair of the name and keeps every other pair as often as it occurs |
| UrlParams.SerializeEmpty | descuentosuy/src/components/LocationStatus.tsx:184-186 | `toString()` is empty exactly when there are no pairs, so a `queryString ? ... : path` link has a query exactly when there are parameters |
| UrlParams.WithLatLon | descuentosuy/src/components/LocationHandler.tsx:18-20 | after setting `lat` then `lon`, both read back as given and every other parameter is unchanged |
| UrlParams.WithoutLatLon | descuentosuy/src/components/LocationStatus.tsx:115-117 | after deleting `lat` and `lon`, neither remains and every other parameter is unchanged |
| UrlParams.TruthyPairsFour | descuentosuy/src/app/page.tsx:95-107 | the reference list of forwarded pairs for four fields is the concatenation of each field's own contribution |
| UrlParams.TruthyPairsEmpty | descuentosuy/src/app/page.tsx:108 | no pair is forwarded exactly when no field is truthy |
| UrlParams.TruthyPairsLookup | descuentosuy/src/app/page.tsx:96-107 | with distinct field names, a name is forwarded exactly when its field is truthy, and then with that field's text |
| UrlParams.TruthyPairsMissing | descuentosuy/src/app/page.tsx:96-107 | a name that is not a field is never forwarded |
| UrlParams.TruthyPairsSet | descuentosuy/src/app/page.tsx:96-107 | one more conditional `set` on a new name extends the forwarded pairs exactly as the reference does |
| UrlParams.SearchParams.constructor | descuentosuy/src/app/page.tsx:95 | a new `URLSearchParams` is empty |
| UrlParams.SearchParams.From | descuentosuy/src/components/LocationStatus.tsx:181 | `new URLSearchParams(current)` holds the current pairs |
| UrlParams.SearchParams.Set | descuentosuy/src/app/page.tsx:97 | `set` updates the pairs as `SetPair` |
| UrlParams.SearchParams.Delete | descuentosuy/src/components/LocationStatus.tsx:116 | `delete` updates the pairs as `RemoveName` |
| UrlParams.SearchParams.SetIfTruthy | descuentosuy/src/app/page.tsx:96-98 | `if (value) set(name, value)` on a new name appends the pair exactly when the value is truthy |
| Search.SearchFieldsLookup | descuentosuy/src/app/page.tsx:95-108 | the map link carries each of query, sort, lat and lon exactly when it is truthy, with its own text |
| Search.SearchFieldsEmpty | descuentosuy/src/app/page.tsx:95-108 | the link carries at most four pairs, and none exactly when all four fields are falsy |
| Search.SearchFieldsOrder | descuentosuy/src/app/page.tsx:95-107 | the names carried follow the order query, sort, lat, lon |
| Search.SearchArgs | descuentosuy/src/app/page.tsx:48-53 | `search_term` defaults to `''`; `sort_option` defaults to `'default'` and is never empty; each coordinate is `null` exactly when its parameter is falsy, and is otherwise the parsed text. The map page's call at app/mapa/page.tsx:42-47 is the same |
| Search.RowsOrEmpty | descuentosuy/src/app/mapa/page.tsx:67 | missing RPC data gives an empty branch list; present data is kept |
| HomeRanking.ReduceMax | descuentosuy/src/app/page.tsx:35-38 | the fold from 0 yields a value that is at least 0, at least every numeric value (non-numbers count as 0), and is either 0 or one of those values |
| HomeRanking.MaxPromotionValue | descuentosuy/src/app/page.tsx:31-39 | 0 for no promotions; otherwise the maximum of 0 and the numeric values |
| HomeRanking.Dedup | descuentosuy/src/app/page.tsx:61-80 | the map after the loop has one key per distinct `store_id` of the rows and no other key; its key list has no duplicates |
| HomeRanking.DedupKeepsPreferred | descuentosuy/src/app/page.tsx:62-80 | for every store, the kept entry is built from the designated branch. If some branch has a distance, that is the first branch at the minimum distance; otherwise it is the first branch |
| HomeRanking.KeptOther | descuentosuy/src/app/page.tsx:63-70 | a row of another store leaves a store's designated branch unchanged |
| HomeRanking.KeptNew | descuentosuy/src/app/page.tsx:66-67 | the first row of a store is its designated branch so far |
| HomeRanking.KeptReplaced | descuentosuy/src/app/page.tsx:66-70 | a row that passes the replacement condition (it has a distance and the kept one has none, or it is strictly nearer) is the new designated branch |
| HomeRanking.KeptStays | descuentosuy/src/app/page.tsx:66-70 | a row that fails the condition (no distance, or a tie or farther) leaves the designated branch unchanged, so the first seen wins ties |
| HomeRanking.DedupKeysStep | descuentosuy/src/app/page.tsx:71 | `Map.set` appends a new store id and leaves the key order unchanged for a known one |
| HomeRanking.DedupFirstAppearanceOrder | descuentosuy/src/app/page.tsx:61-81 | the map's keys are in the order of each store's first row |
| HomeRanking.UniqueStoresKeys | descuentosuy/src/app/page.tsx:81 | the i-th store of `Array.from(values())` is the entry of the i-th key and has that id |
| HomeRanking.UniqueStoresDistinct | descuentosuy/src/app/page.tsx:61-81 | no store id appears twice in `uniqueStores` |
| HomeRanking.UniqueStoresCover | descuentosuy/src/app/page.tsx:61-81 | an id has a store in `uniqueStores` exactly when it occurs in the rows |
| HomeRanking.UniqueStoresPreferred | descuentosuy/src/app/page.tsx:66-78 | each store in `uniqueStores` is the card of its designated branch |
| HomeRanking.UniqueStoresOrder | descuentosuy/src/app/page.tsx:71-81 | `uniqueStores` lists stores in the order of each store's first row |
| HomeRanking.StoreMap.constructor | descuentosuy/src/app/page.tsx:61 | a new `Map` is empty |
| HomeRanking.StoreMap.Set | descuentosuy/src/app/page.tsx:71 | `set` stores the entry; a new key goes last and an existing key keeps its position |
| HomeRanking.StoreMap.Values | descuentosuy/src/app/page.tsx:81 | the values come in key order |
| HomeRanking.DedupStores | descuentosuy/src/app/page.tsx:61-81 | the loop over the rows produces exactly `UniqueStores`, the list the lemmas above characterise |
| HomeRanking.Insert | descuentosuy/src/app/page.tsx:86 | inserting into a sorted list keeps it sorted and adds exactly that element |
| HomeRanking.SortBy | descuentosuy/src/app/page.tsx:86 | the sort yields a permutation in non-decreasing key order |
| HomeRanking.Filter | descuentosuy/src/app/page.tsx:85 | `filter` keeps every element that passes, as often as it occurs, and nothing else |
| HomeRanking.Take | descuentosuy/src/app/page.tsx:87 | `slice(0, n)` is the prefix of length `min(n, length)` |
| HomeRanking.SelectTop | descuentosuy/src/app/page.tsx:83-93 | filter, sort and slice yield at most n kept elements from the input, in key order; a kept element left out ranks no better than each of the n selected |
| HomeRanking.TopDiscountStores | descuentosuy/src/app/page.tsx:83-88 | at most six stores, all scoring above 0, in non-increasing score order, drawn from the input; a positive-scoring store is left out only when six stores each score at least as much |
| HomeRanking.NearbyStores | descuentosuy/src/app/page.tsx:90-93 | at most six stores, all with a distance, nearest first, drawn from the input; a store with a distance is left out only when six stores are each at least as near |
| HomeRanking.UserLocation | descuentosuy/src/app/page.tsx:44 | a user location exists exactly when `lat` or `lon` is truthy, and it holds both as given |
| Search.SearchLink | descuentosuy/src/app/page.tsx:95-108 | the one link builder both pages use: exactly the truthy search fields in order, the page's bare link when there are none, otherwise its prefix followed by the serialised pairs |
| HomeRanking.BuildMapHref | descuentosuy/src/app/page.tsx:95-108 | the conditional `set` calls build exactly the truthy fields in order; the link is `/mapa` when there are none, otherwise `/mapa?` followed by the serialised pairs |
| MapPage.BuildListHref | descuentosuy/src/app/mapa/page.tsx:69-82 | the same pairs as the map link; the link is `/?` when there are none, otherwise `/?` followed by the serialised pairs |
| Search.SetSearchFields | descuentosuy/src/app/mapa/page.tsx:68-80 | the four conditional `set` calls on an empty parameter set leave exactly the truthy fields' pairs, in the order query, sort, lat, lon |
| LocationStorage.AfterSave | descuentosuy/src/utils/locationStorage.ts:43-51 | `saveGeoMeta` stores the JSON text under the meta key and removes the denial flag and its timestamp; no other key changes |
| LocationStorage.AfterDenied | descuentosuy/src/utils/locationStorage.ts:53-61 | `markGeoDenied` stores `'true'` and the printed time, and removes the meta; no other key changes |
| LocationStorage.AfterClear | descuentosuy/src/utils/locationStorage.ts:63-71 | `clearGeoState` removes all three keys and nothing else |
| LocationStorage.Load | descuentosuy/src/utils/locationStorage.ts:18-41 | a `'true'` flag yields denied, with `Number(ts ?? '')` or absent when not finite. Otherwise a missing, empty or unparseable meta yields null, and a parseable one yields granted with its fields |
| LocationStorage.SaveThenLoad | descuentosuy/src/utils/locationStorage.ts:43-51 | after a save, loading gives granted with exactly the saved meta, given that this meta's JSON text parses back to it and is not empty |
| LocationStorage.DeniedThenLoad | descuentosuy/src/utils/locationStorage.ts:53-61 | after a denial at `now`, loading gives denied at `now`, given that the printed time reads back as `now` |
| LocationStorage.ClearThenLoad | descuentosuy/src/utils/locationStorage.ts:63-71 | after a clear, loading gives null |
| LocationStorage.DeniedWithoutTimestamp | descuentosuy/src/utils/locationStorage.ts:27-28 | a flag without a timestamp loads as denied at time 0, because `Number('')` is 0 |
| LocationStorage.UnparseableMeta | descuentosuy/src/utils/locationStorage.ts:35-39 | without a denial, a meta that fails to parse loads as null |
| LocationStorage.MutatorsIdempotent | descuentosuy/src/utils/locationStorage.ts:43-71 | clearing twice equals clearing once; saving the same meta twice equals saving it once |
| LocationStorage.DeniedOverwrites | descuentosuy/src/utils/locationStorage.ts:53-61 | a later denial replaces an earlier one |
| LocationStorage.ApplyEstablishes | descuentosuy/src/utils/locationStorage.ts:43-71 | after any one mutation, whatever the store held, the meta and the flag are never both stored, and the timestamp is stored exactly when the flag is |
| LocationStorage.ApplyAllExclusive | descuentosuy/src/utils/locationStorage.ts:43-71 | no sequence of mutations breaks that invariant, and any non-empty sequence establishes it |
| LocationStorage.ApplyAllOthersUnchanged | descuentosuy/src/utils/locationStorage.ts:43-71 | no sequence of mutations touches a key other than the module's three |
| LocationStorage.GeoSession.GetItem | descuentosuy/src/utils/locationStorage.ts:25 | `getItem` is null exactly for an absent key, and otherwise the stored text |
| LocationStorage.GeoSession.SaveGeoMeta | descuentosuy/src/utils/locationStorage.ts:43-51 | the set and remove steps leave the store as `AfterSave`, with the invariant holding |
| LocationStorage.GeoSession.MarkGeoDenied | descuentosuy/src/utils/locationStorage.ts:53-61 | the steps leave the store as `AfterDenied`, with the invariant holding |
| LocationStorage.GeoSession.ClearGeoState | descuentosuy/src/utils/locationStorage.ts:63-71 | the steps leave the store as `AfterClear`, with the invariant holding |
| LocationStatus.Round | descuentosuy/src/components/LocationStatus.tsx:18 | `Math.round` gives the integer within half a unit, halves rounded up |
| LocationStatus.FormatAccuracy | descuentosuy/src/components/LocationStatus.tsx:8-19 | no accuracy gives the approximate label; up to 5 m shows 5, up to 15 m shows 15; beyond that the rounded metres, never below 15 |
| LocationStatus.FormatRelativeTime | descuentosuy/src/components/LocationStatus.tsx:21-35 | no label exactly for a falsy timestamp. Under a minute reads as seconds; under an hour as whole minutes in 1..59, bracketing the age; otherwise as whole hours of at least 1, bracketing the age |
| LocationStatus.ClampValue | descuentosuy/src/components/LocationStatus.tsx:37-39 | the result is no longer than the input and holds only digits, `+`, `-` and `.` |
| LocationStatus.ClampValueSubsequence | descuentosuy/src/components/LocationStatus.tsx:38 | the filter only deletes characters and keeps the order of the rest |
| LocationStatus.ClampValueCounts | descuentosuy/src/components/LocationStatus.tsx:38 | each allowed character is kept as often as it occurs, and every other character is dropped |
| LocationStatus.ClampValueOfAllowed | descuentosuy/src/components/LocationStatus.tsx:38 | a value of allowed characters only is unchanged |
| LocationStatus.ClampValueIdempotent | descuentosuy/src/components/LocationStatus.tsx:38 | filtering twice equals filtering once |
| LocationStatus.EstimatedAccuracy | descuentosuy/src/components/LocationStatus.tsx:61 | 15 m exactly for a `ROOFTOP` match, otherwise 60 m |
| LocationStatus.ManualLocation | descuentosuy/src/components/LocationStatus.tsx:146-179 | each error is stated by the exact inputs that cause it: bad number format, out of range, missing address, geocoding failure. Typed coordinates are used only when both are non-empty after trimming, and then in range with no accuracy; otherwise the geocoded position is used, with its estimated accuracy |
| LocationStatus.ManualMeta | descuentosuy/src/components/LocationStatus.tsx:188-195 | the saved fix has the target position, the accuracy, time `now` and source `manual` |
| LocationStatus.DecideManual | descuentosuy/src/components/LocationStatus.tsx:146-175 | the checks run in the source's order and the result is the reference decision `ManualLocation`: the first failing check names the error, otherwise the target position |
| LocationStatus.SubmitManual | descuentosuy/src/components/LocationStatus.tsx:139-202 | the step-by-step submission decides as `ManualLocation`. On success the URL parameters get `lat`/`lon`, the page is replaced by the path, `?` and those parameters, and the session holds the manual fix; on an error there is no navigation and neither changes |
| LocationStatus.Retry | descuentosuy/src/components/LocationStatus.tsx:113-124 | the retry clears the stored state and drops `lat` and `lon` from the parameters, keeping the others; it replaces the page with the path, plus `?` and the parameters when any remain |
| LocationStatus.Status | descuentosuy/src/components/LocationStatus.tsx:204-215 | denied comes first, then manual, then searching when `lat` or `lon` is missing; detected only otherwise (each case stated as an iff) |
| LocationStatus.AccuracyLineFor | descuentosuy/src/components/LocationStatus.tsx:217-222 | the permissions hint exactly for a denial, otherwise the accuracy label of the stored fix |
| LocationStatus.UpdatedLabel | descuentosuy/src/components/LocationStatus.tsx:224 | the age label of the stored state's time: a denial's `updatedAt`, a fix's `meta.updatedAt`, and no label without a stored state |
| LocationStatus.ShowOverlay | descuentosuy/src/components/LocationStatus.tsx:230-233 | the overlay is hidden exactly when `lat`, `lon` and the stored state are all missing |
| LocationStatus.ShowRetry | descuentosuy/src/components/LocationStatus.tsx:235 | retry is offered exactly when the status message is the denial |
| LocationHandler.AcceptsUpdate | descuentosuy/src/components/LocationHandler.tsx:107-119 | an update is taken exactly when its accuracy improved or it moved more than 20 m: a move over 20 m is taken with or without a reported accuracy, an improved accuracy is taken however small the move, with no previous fix every update is taken, without a new accuracy only a move over 20 m counts, and within 20 m only an accuracy better by more than 10 m counts |
| LocationHandler.SameFixRejected | descuentosuy/src/components/LocationHandler.tsx:107-119 | an update identical to the last fix is rejected |
| LocationHandler.SmallChangeRejected | descuentosuy/src/components/LocationHandler.tsx:107-119 | an update within 20 m whose accuracy is not better by more than 10 m is rejected |
| LocationHandler.ShouldRequest | descuentosuy/src/components/LocationHandler.tsx:68-87 | no request when the URL has both coordinates, when one was already made, after a stored denial, or without geolocation; a request in every other case |
| LocationHandler.GpsMeta | descuentosuy/src/components/LocationHandler.tsx:93-99 | the saved fix carries the position, its accuracy, time `now` and source `gps` |
| LocationHandler.Classify | descuentosuy/src/components/LocationHandler.tsx:38-66 | no details exactly without an error object; denied, timeout and unavailable exactly for codes 1, 3 and 2 |
| LocationHandler.Handler.constructor | descuentosuy/src/components/LocationHandler.tsx:11-13 | the refs start unset: nothing requested, no watch, no last fix |
| LocationHandler.Handler.ApplyLocation | descuentosuy/src/components/LocationHandler.tsx:15-29 | one navigation, push or replace, to the current parameters with `lat`/`lon` set; no ref changes |
| LocationHandler.Handler.StopWatching | descuentosuy/src/components/LocationHandler.tsx:31-36 | clears a running watch exactly once and forgets its id |
| LocationHandler.Handler.RequestEffect | descuentosuy/src/components/LocationHandler.tsx:68-87 | requests a position exactly when `ShouldRequest` holds. The request flag is set whenever the URL lacks a coordinate, so at most one request is ever made |
| LocationHandler.Handler.OnInitialPosition | descuentosuy/src/components/LocationHandler.tsx:88-102 | the first fix becomes the last fix, is pushed into the URL and saved as GPS, and a watch starts |
| LocationHandler.Handler.OnWatchUpdate | descuentosuy/src/components/LocationHandler.tsx:103-135 | an update is taken exactly when `AcceptsUpdate` holds. A taken one becomes the last fix, replaces the URL, is saved, and at 30 m or better clears the running watch once and forgets its id; above 30 m the watch is kept. A rejected one changes no fix, navigation, session entry, watch or `clearWatch` record |
| LocationHandler.Handler.HandleGeoError | descuentosuy/src/components/LocationHandler.tsx:38-66 | only a permission denial changes the session, marking it denied at `now` |
| LocationHandler.Handler.OnWatchError | descuentosuy/src/components/LocationHandler.tsx:137-140 | the watch error is handled (only a denial marks the session), then the running watch is cleared once and its id forgotten; the fix, the navigations, the request flag and the request count are unchanged |
| StoreDetail.WithDistance | descuentosuy/src/components/StoreDetail.tsx:55-61 | the distance is present exactly when the user's and the branch's coordinates are all truthy, and is then the computed distance; no other field changes |
| StoreDetail.WithDistances | descuentosuy/src/components/StoreDetail.tsx:55-61 | a new list with one branch-with-distance per branch, in order |
| StoreDetail.LeqTotal | descuentosuy/src/components/StoreDetail.tsx:63-70 | any two branches compare in at least one direction |
| StoreDetail.LeqTransitive | descuentosuy/src/components/StoreDetail.tsx:63-70 | the comparator's order is transitive |
| StoreDetail.SortedByDistance | descuentosuy/src/components/StoreDetail.tsx:65 | in distance order, distances do not decrease and branches without one come last |
| StoreDetail.SortedByRating | descuentosuy/src/components/StoreDetail.tsx:66-67 | in rating order, ratings do not increase, a missing rating counting as 0 |
| StoreDetail.SortInPlace | descuentosuy/src/components/StoreDetail.tsx:63-70 | the in-place sort leaves the array sorted in the chosen order, as a permutation of its old contents |
| StoreDetail.SortedBranches | descuentosuy/src/components/StoreDetail.tsx:54-71 | the result is sorted and is a permutation of the branches with distances; the input array is not modified |
| OpeningHours.TodayIndex | descuentosuy/src/components/OpeningHours.tsx:33-34 | JS day 0 maps to 6 and day d to d - 1, that is `(d + 6) % 7`, always in 0..6 |
| OpeningHours.IndexOf | descuentosuy/src/components/OpeningHours.tsx:37 | `indexOf` is -1 exactly when the character is absent, and otherwise its first position |
| OpeningHours.LineAt | descuentosuy/src/components/OpeningHours.tsx:36 | today's line, or `''` when there is none |
| OpeningHours.AfterFirst | descuentosuy/src/components/OpeningHours.tsx:37 | a text without the character is kept whole |
| OpeningHours.AfterFirstAt | descuentosuy/src/components/OpeningHours.tsx:37 | with the first occurrence of the character at k, the rest starts at position k + 1 |
| OpeningHours.HoursPart | descuentosuy/src/components/OpeningHours.tsx:37 | a line with no `:` gives the whole trimmed line |
| OpeningHours.HoursAfterFirstColon | descuentosuy/src/components/OpeningHours.tsx:37 | with the first `:` at position k, the hours are the trimmed text after k |
| OpeningHours.ReplaceAllAbsent | descuentosuy/src/components/OpeningHours.tsx:47 | a global replacement of a word that does not occur changes nothing |
| OpeningHours.ReplaceAllPrefix | descuentosuy/src/components/OpeningHours.tsx:47 | a text that starts with the word starts with its replacement |
| OpeningHours.ReplaceAllAt | descuentosuy/src/components/OpeningHours.tsx:47 | the replacement is global: the first occurrence, wherever it is, becomes the replacement, the text before it is kept, and the replacement goes on over the text after it |
| OpeningHours.ReplaceAllSplit | descuentosuy/src/components/OpeningHours.tsx:47 | a text split around its first occurrence keeps the part before it, replaces the occurrence and goes on after it |
| OpeningHours.TranslateWithUntouched | descuentosuy/src/components/OpeningHours.tsx:43-50 | a line containing none of the table's words is not changed |
| OpeningHours.TranslateLine | descuentosuy/src/components/OpeningHours.tsx:44-49 | the loop over the table replaces each word in table order, giving the reference translation |
| OpeningHours.TranslateWeekdayText | descuentosuy/src/components/OpeningHours.tsx:43-50 | the translated list has the same length as the input, and each line is the reference translation of its source line |
| OpeningHours.TranslateSundayClosed | descuentosuy/src/components/OpeningHours.tsx:15-24 | `'Sunday: Closed'` translates to `'Domingo: Cerrado'` |
| OpeningHours.Status | descuentosuy/src/components/OpeningHours.tsx:39 | `'Abierto ahora'` exactly when `open_now` is true |
| OpeningHours.ReplaceFirstAbsent | descuentosuy/src/components/OpeningHours.tsx:62 | a text without the word is unchanged |
| OpeningHours.ReplaceFirstAt | descuentosuy/src/components/OpeningHours.tsx:62 | only the first occurrence is replaced, and the text around it is kept |
| OpeningHours.Render | descuentosuy/src/components/OpeningHours.tsx:29-76 | nothing is rendered without data or without `weekday_text`. Otherwise: the badge and today's hours with `Closed` shown as `Cerrado`; rows only while expanded, one per translated line, with today's row highlighted |
| OpeningHours.Rows | descuentosuy/src/components/OpeningHours.tsx:68-76 | collapsed, there are no rows; expanded, one row per line in order, the translated line as its text, and only today's row highlighted |
| OpeningHours.HoursToggle.constructor | descuentosuy/src/components/OpeningHours.tsx:27 | the list starts collapsed |
| OpeningHours.HoursToggle.Toggle | descuentosuy/src/components/OpeningHours.tsx:56 | each click flips the state, so two clicks restore it |
| LeafletIcons.ResolveIconUrl | descuentosuy/src/utils/leafletIconSetup.ts:13-43 | nothing for a falsy module; a non-empty string yields itself; in an object a string `src` comes first, then a string `default`, then a string `default.src`; any other shape yields nothing |
| LeafletIcons.ResolvedFromModule | descuentosuy/src/utils/leafletIconSetup.ts:13-43 | every resolved URL is a string read from one of the three places |
| LeafletIcons.EmptyStringModule | descuentosuy/src/utils/leafletIconSetup.ts:14-16 | an empty-string module is falsy and resolves to nothing |
| LeafletIcons.FinalIconUrl | descuentosuy/src/utils/leafletIconSetup.ts:51-53 | the resolved URL when there is one, otherwise the existing option |
| LeafletIcons.DefaultIcon | descuentosuy/src/utils/leafletIconSetup.ts:51-53 | each of the three URLs falls back to its own same-named existing option |
| LeafletIcons.StringImportsNeedNoFallback | descuentosuy/src/utils/leafletIconSetup.ts:51-59 | three non-empty string imports need no fallback and trigger no warning |

## Left out

- React rendering, styling, effects scheduling and the `mounted` flag: the model keeps the values the components compute, not the markup.
- The network: the `search_stores` RPC, the geocoding fetch (a parameter returning a position or nothing), and the store page's data loading.
- The admin upload panel and the branch-details sync route (remote database calls and Places API fetches).
- The `typeof window` / `typeof navigator` guards: the model is the browser case.
- The console logging and the reload after retry.
- Floating point and NaN. Positions, accuracies and distances are reals, and the movement check compares squares instead of taking a root (`sqrt(x) * k > 20` becomes `x * k * k > 400`). `Number()` is a parameter that yields nothing for a non-finite result.
- LocationStatus.FormatAccuracy: a NaN accuracy (approximate label in the source) is not modelled, since the model has no NaN.
- `Number.prototype.toFixed(6)`, which rewrites the inputs after geocoding, and the unreachable `targetLat == null` branch of the submission.
- The third comparator branch (`return 0`) of the store page: the sort order type has only the two orders the page can select.
- HomeRanking.SortBy, StoreDetail.SortInPlace and StoreDetail.SortedBranches (which sorts with it): stability (equal keys keeping their order) is not stated.
- The module-level `mergeOptions` call and the deletion of `_getIconUrl` in the Leaflet setup: a global side effect on the library.
- Promotion lists that are `null`: the model's list is always present; an empty list gives 0, as in the source.
- LocationHandler.Classify: an error object without a `code` is not told apart from a missing error (both are `None`); in the source an object that has neither `code` nor a `PERMISSION_DENIED` constant compares `undefined === undefined` and is marked denied. The browser's geolocation errors always carry both.
- A denial flag without a timestamp loads as denied at time 0, because `Number('')` is 0; the model follows the code.
