# Pokemon collection and discovery core, modelled in Dafny

The application is a browser front end for the PokeAPI catalog. It has two pieces of state. The first is a discovery feed: an infinite scroll that loads the catalog 6 entries at a time. The second is a personal collection: an ordered list of Pokemon, kept in the browser's localStorage under the key `pokemon_collection`, to which the user adds and from which the user removes and reorders entries. This project models the three files behind those pieces and proves what they promise.

- `collection_service.dfy` (module `CollectionService`) models the collection store:
  - The class `CollectionStore` has one mutable field, `stored`, which is the text under the storage key. It has one method per operation of the service.
  - There is no copy in memory. The queries (`GetCollection`, `IsInCollection`, `GetCollectionCount`) read and decode `stored` afresh. `SaveCollection` writes without reading.
  - The operations that change the list (`AddToCollection`, `RemoveFromCollection`, `ReorderCollection`) read the stored list, compute the new one and write the whole of it back. Two cases have nothing to change and write nothing: adding an id already present, and a reorder with an index out of range.
  - JSON encoding and decoding is a pair of functions given as an input (`Codec`). Whether a `setItem` write succeeds is a method parameter (`writeOk`).
  - The module also holds the list operations the methods use (`HasId`, `AddEntry`, `RemoveId`, `Move`) and lemmas about them.
  - It also models `reorderCollection` exactly as written (`ReorderAsWritten`), which exhibits the finding below.
- `pokemon_api.dfy` (module `PokemonApi`) models the catalog client:
  - the status checks of `getPokemonList` and `getPokemon`;
  - the normalisation of a raw `/pokemon/{nameOrId}` response: capitalised name, image fallback, upper-cased types with their colours from `TYPE_COLORS`, and stats defaulting to 0;
  - the order-preserving batch.
  - Each HTTP exchange is an input function from the request to its outcome: a network failure, or a response with its `ok` flag and a body that is readable or not.
- `pokemon_discovery.dfy` (module `PokemonDiscovery`) models the feed:
  - the page function given to `useInfiniteQuery`, its next-page rule, and the retry policy (`retry: 2` with exponential `retryDelay`);
  - the flattened list the grid shows;
  - the class `InfiniteQuery`, which holds the query state the component relies on: the committed pages and their offsets, the next-page cursor, the fetch in flight and the last error. Its methods are the load-more effect and the settling of a fetch.
- `pokemon_types.dfy` holds the entity types. `wrappers.dfy` holds `Option` and `Result`.

`getPokemonBatch` has a `catch` block that can never run, because `Promise.all` is returned without being awaited. A batch therefore fails with the first detail error it meets, never with the batch message. The same applies to `getPokemonList`: it returns `response.json()` without awaiting it, so a body that fails to parse escapes that function's `catch`. The model gives this case its own error, `ListBodyUnreadable`.

The code and the design description disagree in two places:

- The design says reordering validates both indices against `[0, length)`. The code validates nothing (see Findings). For reordering, the model has both: `ReorderAsWritten` is the code as written, and the store's `ReorderCollection` is the corrected operation the design describes.
- The design says a failed write leaves an in-memory copy authoritative for the session. Here the model follows the code. The code keeps no in-memory copy. After a failed write, the operation's return value holds the new list, but the next read returns the old stored value. `SaveCollection` and the other writing methods state exactly that.

## Model

| member | source | states |
|---|---|---|
| CollectionService.HasId | app/services/collectionService.ts:53-56 | The scan answers true exactly when some entry carries the id. |
| CollectionService.CollectionStore.constructor | app/services/collectionService.ts:3-5 | The store starts over whatever text is already stored under the key. |
| CollectionService.CollectionStore.GetCollection | app/services/collectionService.ts:7-17 | A read returns the decoded stored list. Missing, empty or undecodable text gives `[]`. |
| CollectionService.CollectionStore.SaveCollection | app/services/collectionService.ts:20-28 | A successful write stores the encoding of the whole list, and a later read returns that list. A failed write leaves the stored text unchanged. |
| CollectionService.CollectionStore.AddToCollection | app/services/collectionService.ts:31-42 | A present id means the list is returned unchanged with no write. Otherwise the Pokemon is appended, and the new list is written and returned. Distinct ids stay distinct. |
| CollectionService.CollectionStore.RemoveFromCollection | app/services/collectionService.ts:45-50 | The list without the id is returned and written back, even when nothing was removed. Distinct ids stay distinct. |
| CollectionService.CollectionStore.IsInCollection | app/services/collectionService.ts:53-56 | True exactly when some stored entry carries the id. |
| CollectionService.CollectionStore.ReorderCollection | app/services/collectionService.ts:59-65 | With both indices in range, the entry moves from `start` to `end` and the result is written. Otherwise nothing is written. The result is always a permutation of the stored list, and it has distinct ids exactly when the stored list does. |
| CollectionService.CollectionStore.GetCollectionCount | app/services/collectionService.ts:68-70 | The count is the length of the stored list. |
| CollectionService.LoadDegradesToEmpty | app/services/collectionService.ts:10-16 | A read never fails. An absent value, the empty string or an undecodable text reads as `[]`, and anything else reads as its decoding. |
| CollectionService.SaveLoadRoundTrip | app/services/collectionService.ts:7-28 | For an encoding that round-trips, saving a list and loading it gives that list back. |
| CollectionService.AddEntryFacts | app/services/collectionService.ts:33-41 | A present id means no change. An absent id means the Pokemon is appended after the old entries in their order. Either way the id is present afterwards. |
| CollectionService.AddIdempotent | app/services/collectionService.ts:33-41 | Adding the same Pokemon twice is the same as adding it once. |
| CollectionService.AddPreservesDistinct | app/services/collectionService.ts:33-38 | The duplicate check keeps ids distinct. |
| CollectionService.RemoveIdAppend | app/services/collectionService.ts:47 | The filter distributes over concatenation, so removal keeps relative order. |
| CollectionService.RemoveIdFacts | app/services/collectionService.ts:47 | An entry survives exactly when it was present and has another id. No entry with the id is left. An absent id changes nothing, and a present id shortens the list. |
| CollectionService.AddThenRemove | app/services/collectionService.ts:31-50 | Adding an absent Pokemon and then removing its id gives the original list back. |
| CollectionService.RemovePreservesDistinct | app/services/collectionService.ts:47 | Filtering keeps ids distinct. |
| CollectionService.Move | app/services/collectionService.ts:61-62 | The two splices on in-range indices keep the length and put the moved entry at `end`. Taking that entry out again leaves what removing it from `start` leaves. |
| CollectionService.MovePermutes | app/services/collectionService.ts:61-62 | A move is a permutation: same length, same multiset. |
| CollectionService.MoveInverse | app/services/collectionService.ts:61-62 | Moving back from `end` to `start` undoes the move. |
| CollectionService.MoveKeepsDistinct | app/services/collectionService.ts:61-62 | A move keeps distinct ids distinct and cannot make duplicated ids distinct. |
| CollectionService.MoveExamples | app/services/collectionService.ts:59-64 | Move semantics, not a swap: `ABCD` with (0,2) gives `BCAD`, with (3,0) gives `DABC`, and a one-entry list with (0,0) is unchanged. |
| CollectionService.Load | app/services/collectionService.ts:10-16 | Computes what a read returns: `[]` for nothing stored, for the empty string and for undecodable text, and otherwise the decoding. `LoadDegradesToEmpty` states the cases. |
| CollectionService.AddEntry | app/services/collectionService.ts:33-41 | Computes the list an add returns: unchanged when the id is present, and otherwise the Pokemon appended. `AddEntryFacts`, `AddIdempotent` and `AddPreservesDistinct` state its properties. |
| CollectionService.RemoveId | app/services/collectionService.ts:47 | Computes the filtered list: the entries without the id, in their order. `RemoveIdFacts` and `RemoveIdAppend` state its properties. |
| CollectionService.RemoveAt | app/services/collectionService.ts:61 | What remains after the first splice takes out the in-range entry `i`: one entry fewer. |
| CollectionService.InsertAt | app/services/collectionService.ts:62 | The second splice inserting `x` at a position at most the length: one entry more. |
| CollectionService.ReorderAsWritten | app/services/collectionService.ts:59-64 | The two splices as written, with no index check. The length is kept exactly when the clamped start lands inside the list; a start clamped to the end adds one slot. |
| CollectionService.SpliceStart | app/services/collectionService.ts:61-62 | The array's splice puts its start position within `[0, len]`, and an in-range start is used as given. |
| CollectionService.ReorderAsWrittenInRange | app/services/collectionService.ts:59-64 | On in-range indices the code as written is exactly the move. |
| CollectionService.ReorderAsWrittenPastEnd | app/services/collectionService.ts:61-62 | A start index at or past the end makes the list one longer, and one slot holds `undefined`. |
| CollectionService.ReorderEmptyCounterexample | app/services/collectionService.ts:59-64 | Reordering the empty collection with (0,0) yields `[undefined]`. |
| PokemonApi.GetPokemonList | app/services/pokemonApi.ts:47-57 | Success exactly when an ok response with a readable body arrives, and the body is returned as it is. A network failure or non-ok status gives the fixed list error. An ok response whose body does not parse gives `ListBodyUnreadable`, which escapes the function's `catch`. |
| PokemonApi.GetPokemon | app/services/pokemonApi.ts:61-91 | Success exactly when an ok response with a readable body arrives, and then the result is the normalised body. Every failure is the one error naming the requested Pokemon. |
| PokemonApi.GetPokemonBatchFacts | app/services/pokemonApi.ts:94-97 | The batch succeeds exactly when every name's fetch succeeds, and then holds one result per name, in the names' order. A failed batch carries the error of a name that failed. |
| PokemonApi.Message | app/services/pokemonApi.ts:54-89 | The text each client error carries: the fixed list message, and the Pokemon message naming the requested name or id. No text is given for the list body's parse rejection, whose message comes from the JSON parser. |
| PokemonApi.GetPokemonBatch | app/services/pokemonApi.ts:94-97 | Computes the batch: each name's `GetPokemon` in order, failing with the first failing name's error. `GetPokemonBatchFacts` states its properties. |
| PokemonApi.UpperCase | app/services/pokemonApi.ts:75 | Computes the upper-cased type name. `UpperCaseFacts` states its properties. |
| PokemonApi.Capitalize | app/services/pokemonApi.ts:72 | Computes the display name. `CapitalizeFacts` states its properties. |
| PokemonApi.TypeColor | app/services/pokemonApi.ts:76 | Computes a type's badge colour from the table, or `#777777`. `TypeColorFacts` states its cases. |
| PokemonApi.NormaliseTypes | app/services/pokemonApi.ts:74-77 | Computes the normalised types in order. `NormaliseTypesFacts` states them entry by entry. |
| PokemonApi.StatOf | app/services/pokemonApi.ts:79-84 | Computes one stat by scanning for its name. `StatOfFirstMatch` and `StatOfFirstWins` state what it yields. |
| PokemonApi.StatsOf | app/services/pokemonApi.ts:78-85 | Computes the six stats, each under its own raw name. `StatsOfFacts` ties each field to its name. |
| PokemonApi.Normalise | app/services/pokemonApi.ts:70-86 | Computes the entity `getPokemon` returns for a readable body. `NormaliseFacts` states it field by field. |
| PokemonApi.ToUpperCharFacts | app/services/pokemonApi.ts:72-75 | Upper-casing a character turns a lower-case letter upper-case, leaves anything else alone, and is idempotent. |
| PokemonApi.UpperCaseFacts | app/services/pokemonApi.ts:75 | Upper-casing a type name keeps its length, maps every character, leaves no lower-case letter, and is idempotent. |
| PokemonApi.CapitalizeFacts | app/services/pokemonApi.ts:72 | The name keeps its length. The first character is upper-cased and the rest is unchanged. The empty name stays empty. Capitalising twice is the same as capitalising once. |
| PokemonApi.TypeColorFacts | app/services/pokemonApi.ts:6-25 | A type in the table gets its table colour, which is never the fallback. Any other type gets `#777777`. |
| PokemonApi.NormaliseTypesFacts | app/services/pokemonApi.ts:74-77 | The types keep their order and number. Entry `i` is raw type `i` upper-cased, with its table colour. |
| PokemonApi.StatOfFirstMatch | app/services/pokemonApi.ts:79-84 | The lookup meets `FirstStatIs`: it yields the base value of the first raw stat with that name, or 0 when no raw stat has it. |
| PokemonApi.StatOfFirstWins | app/services/pokemonApi.ts:79-84 | Later duplicates of a stat name never affect the value. |
| PokemonApi.StatsOfFacts | app/services/pokemonApi.ts:78-85 | Each of the six fields meets `FirstStatIs` under its own raw name: `hp`, `attack`, `defense`, `special-attack`, `special-defense` and `speed`. |
| PokemonApi.ChooseImage | app/services/pokemonApi.ts:73 | The image is the official artwork when it is present and non-empty, and otherwise the front sprite. |
| PokemonApi.NormaliseFacts | app/services/pokemonApi.ts:70-86 | The normalised entity keeps the id. Its name is the capitalised raw name. Its image is the official artwork when present and non-empty, and otherwise the front sprite. Its types keep their order, each upper-cased with its table colour. Each of the six stats (`hp`, `attack`, `defense`, `special-attack`, `special-defense`, `speed`) is the first raw stat under its own name, or 0. |
| PokemonDiscovery.QueryFn | app/components/PokemonDiscovery.tsx:37-50 | A failed page always carries the one page error. A page's next offset is either none or the page parameter plus 6. |
| PokemonDiscovery.QueryFnSuccess | app/components/PokemonDiscovery.tsx:39-45 | A successful page holds the details of the listed names, one per name and in order. It points to offset plus 6 exactly when the list response has a `next` link. |
| PokemonDiscovery.QueryFnFailure | app/components/PokemonDiscovery.tsx:38-49 | The page fails exactly when the list request fails or some detail request fails. It then carries the fixed page message. |
| PokemonDiscovery.FirstPageExample | app/components/PokemonDiscovery.tsx:37-45 | A first page listing bulbasaur and ivysaur shows Bulbasaur (id 1) and Ivysaur (id 2) in that order, and points to offset 6. |
| PokemonDiscovery.GetNextPageParam | app/components/PokemonDiscovery.tsx:51 | The next page is the one the last page points to. `QueryFnSuccess` states when that is offset plus 6, and `CommitKeepsWellFormed` states how the offsets chain. |
| PokemonDiscovery.RetryDelay | app/components/PokemonDiscovery.tsx:56 | Computes the wait after a failed attempt: 1000 ms doubled per earlier failure, capped at 30000 ms. `RetryDelayFacts` and `RetryDelayGrowth` state its properties. |
| PokemonDiscovery.Flatten | app/components/PokemonDiscovery.tsx:107 | Computes the grid's list, page after page. `FlattenAppend` and `FlattenLength` state its properties. |
| PokemonDiscovery.InfiniteQuery.IsLoading | app/components/PokemonDiscovery.tsx:31 | The first page is loading: a fetch is pending and no page has arrived yet. The constructor starts in this state. |
| PokemonDiscovery.InfiniteQuery.HasNextPage | app/components/PokemonDiscovery.tsx:51 | A next page exists exactly when the cursor, the last page's next offset, is set. `Valid` keeps the cursor equal to it. |
| PokemonDiscovery.InfiniteQuery.IsFetchingNextPage | app/components/PokemonDiscovery.tsx:30 | A next-page fetch is in flight: a fetch is pending and the first page has already arrived. `LoadMoreEffect` uses it as its guard. |
| PokemonDiscovery.RetryDelayFacts | app/components/PokemonDiscovery.tsx:56 | The delays start at 1000 and 2000 ms, never exceed 30000 ms, and never decrease. |
| PokemonDiscovery.RetryDelayGrowth | app/components/PokemonDiscovery.tsx:56 | Below the cap each delay doubles. From attempt index 5 on, the delay is the 30000 ms cap. |
| PokemonDiscovery.RetryFrom | app/components/PokemonDiscovery.tsx:55-56 | From attempt `k`, retrying stops at the first success or after attempt 2, and waits `RetryDelay(j)` after failed attempt `j`. It fails only when every remaining attempt fails. |
| PokemonDiscovery.FetchPage | app/components/PokemonDiscovery.tsx:55-56 | A page fetch makes 1 to 3 attempts, each one the whole page, with delays 1000 and 2000 between them. It returns the first success. It fails, with the page error, exactly when all 3 attempts fail. |
| PokemonDiscovery.TwoFailuresThenSuccess | app/components/PokemonDiscovery.tsx:55-56 | Two failures followed by a success give one page after 3 attempts, with waits of 1000 and 2000 ms. |
| PokemonDiscovery.FlattenAppend | app/components/PokemonDiscovery.tsx:107 | Committing a page extends the flattened list by exactly that page's Pokemon, at the end. |
| PokemonDiscovery.FlattenLength | app/components/PokemonDiscovery.tsx:107 | The flattened list holds as many Pokemon as all the pages together. |
| PokemonDiscovery.PageParamsIncrease | app/components/PokemonDiscovery.tsx:51-52 | Loaded page offsets strictly increase, so no offset is loaded twice. |
| PokemonDiscovery.CommitKeepsWellFormed | app/components/PokemonDiscovery.tsx:44-52 | Committing the page fetched at the next offset keeps the pages at offsets 0, 6, 12, and so on, each pointing to the next. |
| PokemonDiscovery.InfiniteQuery.constructor | app/components/PokemonDiscovery.tsx:35-52 | Mounting starts with no pages and one fetch in flight, for 6 names at offset 0. |
| PokemonDiscovery.InfiniteQuery.LoadMoreEffect | app/components/PokemonDiscovery.tsx:61-65 | A fetch starts exactly when the sentinel is in view, a next page exists and no next-page fetch runs. The fetch targets the cursor. Every other trigger changes nothing, so duplicate triggers coalesce. |
| PokemonDiscovery.InfiniteQuery.Settle | app/components/PokemonDiscovery.tsx:37-58 | The fetch in flight settles through its retries. Success appends its page, moves the cursor to the page's next offset, clears the error, and extends the flattened list by the page. Failure records the page error and leaves the pages, the cursor and the list as they were. |
| PokemonDiscovery.InfiniteQuery.Commit | app/components/PokemonDiscovery.tsx:42-51 | A successful page goes at the end, its next offset becomes the cursor, and the state invariant is kept. |
| PokemonDiscovery.InfiniteQuery.Fail | app/components/PokemonDiscovery.tsx:46-48 | A failed fetch records its error, and nothing else but the in-flight marker changes. |

## Left out

- The `typeof window === 'undefined'` branch of the collection service is left out: the server-side render, where reads are empty and writes do nothing. The model is the browser case only.
- A `getItem` that throws and text that fails to parse both reach the same `catch`. The model has one path for both: the decoder answers `None`.
- The codec is an input. The model does not capture well-formed JSON whose value is not a list of Pokemon, which the source returns unchecked.
- Diagnostics written with `console.error` are not modelled, because they have no effect on state.
- The network is an input. `fetchWithTimeout`, its 10-second `AbortController` timer and the URLs it builds are not modelled. Each request's outcome is a parameter.
- PokemonApi.Message: the list body's parse rejection carries a message from the JSON parser, and that text depends on the runtime. The model gives no text for it.
- PokemonApi.GetPokemonBatchFacts: `Promise.all` rejects with whichever detail fetch fails first in time. The model picks the first failing name in input order, so its contract only promises the error of some failing name.
- PokemonApi.ToUpperCharFacts: `toUpperCase` is modelled for ASCII letters only. Full Unicode case mapping is not modelled.
- PokemonApi.TypeColorFacts: the model's lookup treats names the JavaScript object inherits from its prototype as missing, giving them `#777777`. In the source such a name, `constructor` say, finds the inherited function, which is truthy, so that function becomes the colour.
- Ids and base stats are unbounded integers. The JavaScript number type, with its non-integer and NaN values, is not modelled.
- The query library's internals are not modelled: caching, `staleTime`, `gcTime`, `refetchOnWindowFocus`, timers and request deduplication. Only the state transitions the component relies on are modelled, and the retry delays are recorded rather than waited.
- The intersection observer is not modelled. Whether `inView` is true is an input of the effect.
- The rendering is not modelled: the loading and error screens, the "Try Again" reload, the grid and its cards.
- The drag-and-drop reordering in the collection view is not part of this model. It uses its own array move and `saveCollection`, not `reorderCollection`.
- Concurrency is not modelled. Each store method is one atomic step, and no other tab writes the same storage key between a read and the following write.
- `reorderCollection` splices a freshly parsed array in place. The model works on values instead, with the same result, because that array is not shared with anything before it is saved.
- `reorderCollection` with non-integer indices is not modelled: JavaScript truncates them.
- CollectionService.CollectionStore.ReorderCollection: it also refuses negative indices and an `end` at or past the length. The array's splice clamps those into valid moves (`(0, 3)` on three entries moves the first to the end). The model follows the design's rule that both indices lie in `[0, length)`, and does not reproduce that clamping for in-list starts.

## Findings

| source | as written | input that shows it | evidently intended | confidence | as-written member | corrected member |
|---|---|---|---|---|---|---|
| app/services/collectionService.ts:59-64 | The two splices run on any indices. When `startIndex` is at or past the end, the first splice removes nothing, `removed` is `undefined`, and the second splice inserts it. The saved list then holds a `null` (through JSON) that is not a Pokemon, and any later `isInCollection` reads `.id` of it. | `reorderCollection(0, 0)` on the empty collection stores `[undefined]` | Indices outside `[0, length)` are rejected, and the collection stays a permutation of itself | not executed | CollectionService.ReorderEmptyCounterexample | CollectionService.CollectionStore.ReorderCollection |
