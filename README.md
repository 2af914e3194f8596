# File server cache and request dispatcher, modelled in Dafny

The repository is a small Java client/server system. Clients send one request line per
connection. The server keeps the files in a storage directory and answers requests about them.
It caches computed results (file listings, file contents, line/word/character counts) in a
shared LRU cache, `CacheService`, which is bounded by `maxSize` (6 in the server).

This project models two parts of it:

- **`CacheService`** (`src/CacheService.java`) is an access-ordered `LinkedHashMap`.
  - Every read and every write first runs `performCacheCleanup`. That loop evicts the least recently used entry while `size() >= maxSize`.
  - `get` and `put` move the touched key to the most recently used end.
  - `handleServerRemovalRequest(f)` walks the map with an iterator and removes every key that starts with `f + ","`.
- **`ClientHandler.processClientMessage`** and the helpers it calls (`src/Server.java`).
  - The request is split on `","`. The file name is the trimmed first field plus `".txt"`.
  - Three fields are an option (`get`, `read`) plus a count option (`lines`, `words`, `characters`). These are looked up in the cache, computed on a miss and written back.
  - Two fields are a file operation: `update`, `remove`, `store`, `totals` or `exit`.
  - The response text is built up piece by piece.

## Layout

| file | module | what |
|---|---|---|
| `wrappers.dfy` | `Wrappers` | `Option`: Java's `null` result |
| `java_text.dfy` | `JavaText` | `startsWith`, `trim`, `split(",")`, `length()`, `String.valueOf` |
| `lru_model.dfy` | `LruModel` | The cache's abstract state (`Lru`: keys from least to most recently used, plus a key→value map). One function per cache operation. Lemmas about recency, capacity and invalidation. |
| `cache_service.dfy` | `Cache` | `class CacheService`. Its fields are updated in place, and each method is proved to move `State()` exactly as the `LruModel` function says. |
| `counting.dfy` | `Counting` | `countLines` and `countWords`, each proved equal to an independent count, and `countCharacters` as the UTF-16 length |
| `dispatch.dfy` | `Dispatch` | `Process`: what one request does to the response, the cache and the files. Written as a function of the request, the cache state, the files and the environment. |
| `dispatch_facts.dfy` | `DispatchFacts` | Lemmas about the dispatcher: parsing, which keys are read, written and invalidated, and the error answers |
| `server.dfy` | `Server` | `class ClientHandler`. It updates the shared `CacheService` and the storage directory in place, and each method is proved to match `Dispatch`. |

Helpers without a row of their own, each covered by the rows named after it:

- `Dispatch.Key`, `Dispatch.Header`, `Dispatch.WithHit`: the key and response pieces of the three-field branch. Covered by `Dispatch.ThreeField` and the `DispatchFacts` lemmas.
- `Dispatch.CountLabel`: the count texts of `src/Server.java:116`, `121`, `126`. Covered by `Dispatch.CountStage`, `DispatchFacts.MissCachesBoth` and `DispatchFacts.StoreThenRead`.
- `Dispatch.TotalCount` and `Dispatch.TotalsOrder` (the array at `src/Server.java:291`): covered by `Dispatch.TotalsStep`, `Dispatch.Totals` and `DispatchFacts.TotalsStepCaches`.
- `JavaText.StartsWith`: covered by `LruModel.Invalidated` and `DispatchFacts.KeyPrefixExact`.
- `JavaText.TrimStart`, `JavaText.TrimEnd`: the two halves of `trim`. Covered by `JavaText.Trim` and `JavaText.TrimIsMiddle`.
- `LruModel.Without`: the order with one key taken out. Covered by `LruModel.MovedToEnd` and `LruModel.Written`.
- `LruModel.Keep`, `LruModel.DroppedSeen`: the iterator's kept order and removed values so far. Covered by `LruModel.KeepStep`, `LruModel.DroppedSeenStep`, `LruModel.KeepAllDone` and `Cache.CacheService.RemoveKeysStartingWith`.
- `LruModel.EvictTimes`: n turns of the cleanup loop. Covered by `LruModel.EvictTimesDrops`, `LruModel.EvictTimesAppend` and `LruModel.CleanupNeverEndsWithoutCapacity`.

Modelling choices:

- **Files.** The storage directory is a map from file name to content (`ProgramDirectory.files`).
- **Environment.** The things the server does not control come in through `Dispatch.Env`:
  - the result of `listFiles()`, as an optional sequence of entries, each with an `isFile` flag;
  - what `storeFile`/`updateFile` see when they open the file and read the upload:
    - data arrives;
    - `read` returns -1;
    - opening the file throws;
    - reading throws after the file was truncated;
  - whether `File.delete()` succeeds.
- **Uncaught exceptions.** A runtime exception that escapes `processClientMessage` is an `Outcome` of its own, `Uncaught`. Two such cases are modelled:
  - a line with fewer than two fields: `parts[1]` throws for a line with one field, and `parts[0]` already throws for a line with none, such as `","`, whose split is empty. Both are `ArrayIndexOutOfBoundsException`;
  - `fos.write(buffer, 0, -1)` at the end of the stream.
  
  Two other unchecked exceptions that can escape are not modelled (see "## Left out").
- **Behaviours of the code the model reproduces.**
  - A cache of capacity 0 never finishes a read or a write: its cleanup loop runs forever (`CleanupNeverEndsWithoutCapacity`).
  - In a cache of capacity 2, after `put(k1)` and `put(k2)`, a `get(k1)` misses, because the read's own cleanup evicts `k1` (`TwoSlotReadOfEldest`).
  - A put followed by a get of the same key returns the value when `maxSize >= 2`. With `maxSize == 1` the read misses (`WriteThenRead`).
  - Empty content counts 1 word (`EdgeCounts`).
  - `countCharacters` counts UTF-16 code units, so a character outside the Basic Multilingual Plane counts 2 (`SurrogatePairCharacters`).
  - The value cached under an option's key is the whole response built so far: the header, any hit line and the option's text (`OptionMissAfterCountHit`).
  - A `store` over an existing file replaces its content but leaves its cached `read` and count entries in place, so later hits show the old content (`TwoFieldWithoutCacheEffect`).
  - An `update` whose upload read fails has already truncated the file, and it does not invalidate the file's cache entries (`Dispatch.Updated`, the `ReadFailed` case).
  - An unrecognised option is rejected only when its key misses the cache. A key such as `f.txt,lines`, which a count wrote, makes a request with option `lines` go on as a hit (`Dispatch.OptionStage`).

## Model

| member | source | states |
|---|---|---|
| Cache.CacheService.constructor | src/CacheService.java:12-22 | A new cache is empty and satisfies the invariant: unique keys, all of them mapped, at most `maxSize` of them. A negative `maxSize`, for which the `LinkedHashMap` constructor throws, is excluded. |
| Server.ProgramDirectory.constructor | src/Server.java:31 | The storage directory starts with the given files. |
| Server.ClientHandler.constructor | src/Server.java:39-43 | A handler works on the shared cache it is given and on the storage directory. |
| Server.NewSharedCache | src/Server.java:9 | The server's shared cache is a fresh, empty, valid `CacheService` with `maxSize` 6. |
| LruModel.Evicted | src/CacheService.java:45-52 | `evict` removes exactly the first key in access order (the least recently used) and its entry. The other keys keep their order and values. An empty cache is left as it is. Well-formedness is preserved. |
| Cache.CacheService.RemoveEldestEntry | src/CacheService.java:17-20 | The `removeEldestEntry` override is false in every valid state, so the hook never evicts on its own. |
| Cache.CacheService.Evict | src/CacheService.java:45-52 | The method changes the state exactly as `Evicted` says. |
| LruModel.CleanedUp | src/CacheService.java:55-59 | With `maxSize >= 1`, cleanup ends with fewer than `maxSize` keys. When it evicted anything, exactly `maxSize - 1` keys are left. What is left is the most recent suffix of the order, with unchanged values. Well-formedness is preserved. |
| Cache.CacheService.PerformCacheCleanup | src/CacheService.java:55-59 | The loop terminates (it decreases the size) and ends in `CleanedUp` of the old state. |
| LruModel.EvictTimesDrops | src/CacheService.java:45-52 | `n` evictions drop exactly the first `min(n, size)` keys in access order. |
| LruModel.EvictTimesAppend | src/CacheService.java:56-57 | One more turn of the loop is one more eviction after the others. |
| LruModel.CleanupNeverEndsWithoutCapacity | src/CacheService.java:55-59 | With `maxSize <= 0`, the loop guard `size() >= maxSize` still holds after any number of evictions. Once the map is empty, a further `evict` changes nothing, so the loop never ends. |
| LruModel.MovedToEnd | src/CacheService.java:15 | Access order: the touched key ends up last, the others keep their relative order, and unique keys stay unique. The size grows only for a new key. |
| LruModel.Read | src/CacheService.java:29-32 | `getElement` hits exactly when the key survives cleanup, and then returns the stored value and moves the key to most recently used. A miss returns `None`, distinct from any stored string, and leaves the cleaned-up state. From a well-formed state it ends valid and below `maxSize`. |
| Cache.CacheService.GetElement | src/CacheService.java:29-32 | The method returns the value and reaches the state that `Read` gives. |
| LruModel.Written | src/CacheService.java:39-42 | `putElement` stores `v` under `k` as most recently used, after cleanup. Every other entry is the cleaned-up one, unchanged. From a well-formed state the result is valid, holding at most `maxSize` keys. |
| Cache.CacheService.PutElement | src/CacheService.java:39-42 | The state becomes `Written`. The invariant holds and `removeEldestEntry` (`size() > maxSize`) is false after the insertion, so that hook never fires. |
| Cache.CacheService.HandleServerReadRequest | src/CacheService.java:66-69 | Returns what `Read` gives and keeps the invariant. |
| Cache.CacheService.HandleServerWriteRequest | src/CacheService.java:76-79 | Ends in `Written` and keeps the invariant. |
| LruModel.Invalidated | src/CacheService.java:85-95 | Removal keeps exactly the entries whose key does not start with `fileName + ","`. Their values are unchanged and their order is a subsequence of the old order. Validity is preserved. |
| Cache.CacheService.HandleServerRemovalRequest | src/CacheService.java:85-95 | The method ends in `Invalidated` of the old state and keeps the invariant. |
| Cache.CacheService.RemoveKeysStartingWith | src/CacheService.java:87-94 | The iterator loop leaves the order filtered by the prefix (`Keep`). It removes from the map exactly the entries of the keys that were visited and start with the prefix. |
| LruModel.KeepKeepsOrder | src/CacheService.java:87-94 | The surviving keys are a subsequence of the old order. |
| LruModel.KeepKeepsDistinct | src/CacheService.java:87-94 | Filtering keeps unique keys unique. |
| LruModel.KeepStep | src/CacheService.java:88-93 | One iteration is an invariant step: removing the current key when it matches, or stepping past it when it does not, extends the filtered prefix by one key. |
| LruModel.DroppedSeenStep | src/CacheService.java:91-92 | Visiting one more key removes its entry exactly when it starts with the prefix. |
| LruModel.KeepAllDone | src/CacheService.java:85-95 | Once every key has been visited, the filtered order and map are `Invalidated`. |
| LruModel.ReadOfEldestOnFullCacheMisses | src/CacheService.java:29-32 | On a full cache, reading the least recently used key misses, because cleanup has just evicted it. |
| LruModel.WriteThenRead | src/CacheService.java:29-42 | A read right after a write of the same key returns the written value when `maxSize >= 2`, and misses when `maxSize == 1`. |
| LruModel.ReadLatestOfFull | src/CacheService.java:29-32 | In a full cache the most recently used key survives the read's cleanup exactly when `maxSize >= 2`. |
| LruModel.ReadLatestWithRoom | src/CacheService.java:29-32 | Below capacity, a read of a present key hits. |
| LruModel.WriteWithRoomAppends | src/CacheService.java:39-42 | Below capacity, writing a new key appends it as most recently used and evicts nothing. |
| LruModel.TwoSlotReadOfEldest | src/CacheService.java:29-42 | Starting from an empty cache of capacity 2, `put(k1)`, `put(k2)`, then `get(k1)` misses and leaves only `k2`. |
| LruModel.TwoSlotFullReadOfEldest | src/CacheService.java:29-32 | A capacity-2 cache holding `k1` then `k2`: `get(k1)` misses and leaves only `k2`, because the cleanup evicts `k1` first. |
| LruModel.TwoPutsWithRoom | src/CacheService.java:39-42 | Two puts of distinct keys into an empty cache with room for both leave both, in put order. |
| LruModel.PutIntoEmpty | src/CacheService.java:39-42 | A put into an empty cache leaves just that entry. |
| LruModel.PutIntoSingle | src/CacheService.java:39-42 | A put of a new key into a one-entry cache with room for two keeps both, the new key most recently used. |
| JavaText.Trim | src/Server.java:75-76 | `trim()` returns a string no longer than its argument whose first and last characters are above U+0020. |
| JavaText.TrimIsMiddle | src/Server.java:75-76 | The result is a slice of the argument, and everything cut off before and after it is at or below U+0020. |
| JavaText.SplitAll | src/Server.java:74 | The fields between separators contain no separator and join back to the input. A string without the separator is one field. |
| JavaText.StripTrailingEmpty | src/Server.java:74 | `split` with limit 0 drops exactly the trailing empty fields. |
| JavaText.Split | src/Server.java:74 | `split(",")` gives `[s]` when there is no comma. Otherwise it gives comma-free fields, either none at all or ending in a non-empty one. |
| JavaText.SplitAllOfJoin | src/Server.java:74 | Splitting comma-free fields joined by commas gives the fields back. |
| JavaText.SplitJoin | src/Server.java:74 | The same holds for `split(",")`, given at least two fields and a non-empty last one. |
| JavaText.Utf16Length | src/Server.java:197 | `length()` counts one unit per character of the Basic Multilingual Plane and two for any other, so it lies between the number of characters and twice that. It equals the number of characters exactly when all of them are in that plane. |
| JavaText.NatToString | src/Server.java:115 | `String.valueOf(n)` is a non-empty string of decimal digits without a leading zero. |
| JavaText.NatToStringRoundTrip | src/Server.java:115 | Reading back the digits of a cached count gives the count. |
| Counting.LineCount | src/Server.java:171 | `Files.lines(...).count()` is at most the length of the content, and 0 exactly for empty content. |
| Counting.LineCountIsBreaks | src/Server.java:167-176 | The `Files.lines` count equals the number of terminators (`\n`, `\r`, `\r\n`), plus one for a last line without one. A trailing terminator adds no line, and empty content has 0 lines. |
| Counting.LineCountAfterFirst | src/Server.java:171 | A terminator-free line followed by `"\n"` counts one line before the rest. |
| Counting.LineCountOfOneLine | src/Server.java:171 | Non-empty content without a terminator is one line. |
| Counting.WsPieces | src/Server.java:184 | The fields between whitespace runs contain no whitespace, and there is at least one field. |
| Counting.SplitWs | src/Server.java:184 | `split("\\s+")` gives `[s]` when there is no whitespace. Otherwise it gives whitespace-free fields, either none or ending in a non-empty one. |
| Counting.WordCount | src/Server.java:184 | Content without whitespace, the empty content included, is one word. |
| Counting.WordCountIsRuns | src/Server.java:179-189 | `split("\\s+").length` equals the number of maximal non-whitespace runs, plus one when leading whitespace precedes a word. Empty content counts 1 word. |
| Counting.CountOf | src/Server.java:167-202 | Lines are at most the length and 0 exactly for empty content. Whitespace-free content is one word. Characters are between the number of code points and twice that, equal to it exactly when all are in the Basic Multilingual Plane. |
| Counting.SurrogatePairCharacters | src/Server.java:197 | A character outside the Basic Multilingual Plane counts 2 characters. |
| Counting.AfterLine | src/Server.java:171 | What is left after one `readLine` is a proper suffix of the content. |
| Counting.SampleLines | src/Server.java:167-176 | `"a b\nc"` has 2 lines. |
| Counting.SampleWords | src/Server.java:179-202 | `"a b\nc"` has 3 words and 5 characters. |
| Counting.EdgeCounts | src/Server.java:167-189 | Empty content has 0 lines and 1 word. `"  "` has 0 words. `" a"` has 2 words. |
| Dispatch.RegularNames | src/Server.java:263-267 | The listed names are exactly those of the regular files. |
| Dispatch.JoinNames | src/Server.java:265-271 | The joined names start with the first name and, for two or more, end with `", "` and the last name. |
| Dispatch.FileNames | src/Server.java:258-273 | A null listing or one without regular files gives "No files found.". A single regular file gives its name. Otherwise the text starts with the first regular file's name. |
| Dispatch.FileContent | src/Server.java:276-285 | `readFileContent` gives a stored file's content, and "Failed to read file." when it cannot be read. Its partner is `DispatchFacts.StoreThenRead`. |
| Dispatch.CountFile | src/Server.java:167-202 | A file that cannot be read counts 0. A readable file has 0 lines exactly when it is empty. |
| Dispatch.ParseCountKind | src/Server.java:112-129 | Exactly `lines`, `words` and `characters` are count options. |
| Dispatch.OptionStage | src/Server.java:94-107 | The option part gives up (the "Invalid option. Supported options" return) exactly when the option missed and is neither `get` nor `read`. Validity is preserved. |
| Dispatch.CountStage | src/Server.java:108-131 | The count part keeps the files and preserves validity. |
| Dispatch.ThreeField | src/Server.java:79-131 | A three-field request leaves the files alone. From a well-formed cache it ends valid. |
| Dispatch.Stored | src/Server.java:205-218 | `storeFile` never touches the cache, and changes no file but its own. |
| Dispatch.Updated | src/Server.java:221-237 | `updateFile` changes no other file and keeps the cache valid. An upload read that fails leaves the file truncated and the cache as it was. |
| Dispatch.Removed | src/Server.java:240-255 | `removeFile` always replies, changes no other file and keeps the cache valid. |
| Dispatch.TotalsStep | src/Server.java:293-315 | One round of `getSystemTotals` keeps the cache valid. |
| Dispatch.TotalsOver | src/Server.java:288-318 | `getSystemTotals` over a list of options keeps the cache valid. |
| Dispatch.Totals | src/Server.java:288-318 | `getSystemTotals` over `lines`, `words`, `characters` keeps the cache valid. |
| Dispatch.TotalsOverSnoc | src/Server.java:293-316 | The loop visits the options in list order: one more option is one more round after the others. |
| Dispatch.TwoField | src/Server.java:132-157 | A two-field request keeps the cache valid. |
| Dispatch.Finish | src/Server.java:136-148 | Completing a file operation's reply leaves cache and files as the operation left them. The request throws exactly when the operation threw. |
| Dispatch.Process | src/Server.java:73-164 | Any request keeps the cache valid and its `maxSize` unchanged. |
| DispatchFacts.NoCommaThrows | src/Server.java:74-76 | A line without a comma throws at `parts[1]`, and cache and files are unchanged. |
| DispatchFacts.TwoFieldRequest | src/Server.java:74-77 | `"f,op"` is the two-field request on `trim(f) + ".txt"` with option `trim(op)`. |
| JavaText.TrimUntrimmedEnds | src/Server.java:75-80 | A non-empty string whose first and last characters are above a space is its own trim. |
| DispatchFacts.ThreeFieldRequest | src/Server.java:74-80 | `"f,op,count"` is the three-field request on `trim(f) + ".txt"`. |
| DispatchFacts.TooManyFields | src/Server.java:158-159 | Four or more fields give exactly the "Invalid message format" text, with nothing changed. |
| DispatchFacts.FourFieldsSplit | src/Server.java:74 | Four or more comma-free fields, the last non-empty, split into four or more parts. |
| DispatchFacts.KeyPrefixExact | src/CacheService.java:91 | For comma-free names, a key of file `f` starts with `g + ","` exactly when `f == g`. |
| DispatchFacts.KeysOfOneFileDiffer | src/Server.java:83-84 | Different options of one file have different keys. |
| DispatchFacts.UpdateDropsOnlyItsFile | src/Server.java:221-237 | After a successful update of `g`, a result of file `f` is cached exactly when it was before and `f != g`, with its value unchanged. The file holds the upload. |
| DispatchFacts.RemoveInvalidatesOnlyExisting | src/Server.java:240-255 | `remove` of an existing file invalidates its keys whether or not the delete succeeds, and deletes the file only on success. A missing file gives "File does not exist." and nothing changes. |
| DispatchFacts.TwoFieldWithoutCacheEffect | src/Server.java:144-155 | `exit` and an unknown option answer with their fixed text and change nothing. `store` never changes the cache. |
| DispatchFacts.UnknownOptionWritesNothing | src/Server.java:94-104 | An unknown option that misses gives the fixed "Invalid option. Supported options" text. The cache only went through the two lookups, option key first. |
| DispatchFacts.InvalidCountOptionAfterCaching | src/Server.java:94-130 | Take a `get`/`read` miss whose count option is unknown and misses too. The reply is "Invalid count option." yet the option's result is cached. |
| DispatchFacts.ThreeFieldBothMiss | src/Server.java:83-107 | When both lookups miss, no hit line is echoed and the option stage starts from the header alone. |
| DispatchFacts.OptionMissAfterCountHit | src/Server.java:83-107 | A `get`/`read` miss after a count hit caches, under the option's key, the header, the count's "Cache hit for" line and the option's text. The count writes nothing, and the reply ends in `"\nDone."`. |
| DispatchFacts.BothHitWriteNothing | src/Server.java:83-91 | When both keys hit, the reply is the header and both "Cache hit for" lines, and the cache only went through the two lookups. |
| DispatchFacts.CountMissAfterOptionHit | src/Server.java:83-127 | An option hit followed by a known count option's miss caches `String.valueOf(count)` under the count key and appends the count after the option's hit line. |
| DispatchFacts.StoreThenRead | src/Server.java:73-285 | The request `"f,store"` with a received upload leaves the cache as it was and the file holding the upload. A later request `"f,read,<count option>"` whose two keys miss then replies with `"\nContent of f.txt: "` followed by exactly that content, and with its count. |
| DispatchFacts.StoreRequest | src/Server.java:132-157 | The request `"f,store"` with a received upload answers "File stored successfully.", leaves the cache as it was and stores the upload under `trim(f) + ".txt"`. |
| DispatchFacts.ReadRequestBothMiss | src/Server.java:73-131 | The request `"f,read,<count option>"` whose two keys miss replies with the header, the file's content, the count line and `"\nDone."`. |
| DispatchFacts.ReadRequestIsThreeField | src/Server.java:74-80 | `"f,read,<count option>"` with a known count option is the three-field request with options `read` and that count option. |
| DispatchFacts.PlainThreeFieldRequest | src/Server.java:74-80 | `"f,op,count"` whose options have no comma and are their own trim is the three-field request with exactly those options. |
| DispatchFacts.CountOptionIsPlain | src/Server.java:112-129 | A known count option is non-empty, has no comma, and neither starts nor ends with a character that trim strips. |
| DispatchFacts.CountOptionTrimmed | src/Server.java:112-129 | A known count option has no comma and is its own trim. |
| DispatchFacts.ReadOptionTrimmed | src/Server.java:99 | The option `read` has no comma and is its own trim. |
| DispatchFacts.MissCachesBoth | src/Server.java:94-127 | On a double miss with a known count option, `get`/`read` caches the whole response so far under the option key and `String.valueOf(count)` under the count key, and answers with both, ending in `"\nDone."`. |
| LruModel.CleanupKeepsLatest | src/CacheService.java:55-59 | With `maxSize >= 2`, the most recently used key survives cleanup. |
| DispatchFacts.SecondWriteKeepsFirst | src/CacheService.java:39-42 | With `maxSize >= 2`, a write right after a write of another key keeps both values. |
| DispatchFacts.TotalsStepCaches | src/Server.java:294-315 | A totals miss caches `String.valueOf(count)` under the key. A hit writes nothing. |
| Server.ClientHandler.ProcessClientMessage | src/Server.java:73-164 | The reply (or escaping exception), the new cache state and the new files are exactly `Process` of the old ones. The cache stays valid. |
| Server.ClientHandler.ProcessThreeFields | src/Server.java:79-131 | The three-field branch ends exactly as `ThreeField` says. |
| Server.ClientHandler.FinishStages | src/Server.java:93-131 | After the lookups, the branch ends as `OptionStage` followed by `CountStage`. |
| Server.ClientHandler.FinishOption | src/Server.java:94-107 | The option part appends and caches as `OptionStage` says. On the early return, the cache is unchanged. |
| Server.ClientHandler.FinishCounting | src/Server.java:108-131 | The count part caches and appends as `CountStage` says, then appends `"\nDone."`. |
| Server.ClientHandler.ProcessTwoFields | src/Server.java:132-157 | The two-field branch ends exactly as `TwoField` says. |
| Server.ClientHandler.StoreFile | src/Server.java:205-218 | Ends as `Stored` says. |
| Server.ClientHandler.UpdateFile | src/Server.java:221-237 | Ends as `Updated` says, and the cache is invalidated only after a successful write. |
| Server.ClientHandler.WriteUpload | src/Server.java:206-216 | The file is truncated when it is opened, then holds the upload. A `-1` read throws after the truncation, and a failed open leaves the file as it was. |
| Server.ClientHandler.RemoveFile | src/Server.java:240-255 | Ends as `Removed` says. |
| Server.ClientHandler.GetSystemTotals | src/Server.java:288-318 | The loop over `lines`, `words`, `characters` ends in `Totals`. |
| Server.ClientHandler.GetFileNames | src/Server.java:258-273 | Returns the regular files' names joined by `", "`, or "No files found." when there is none or the listing is null. |

## Left out

- `src/Client.java` is not part of this model. It is an interactive console and socket loop with no logic beyond string concatenation.
- `Server.main`, the thread per connection and the `Semaphore` gate (`src/Server.java:11-24`, `46-66`) are left out. They are socket I/O and concurrency. Each request is modelled as running alone.
- The `synchronized` methods and the unsynchronized public `evict` are modelled single-threaded. Interleavings of concurrent requests are not modelled.
- The socket input is left out: `readLine` of the request, the single `is.read` of at most 8192 bytes and byte decoding. Requests and uploads are strings, and an upload arrives whole (`Dispatch.Upload`).
- The real file system is a map from name to content plus a given listing. This leaves out:
  - directory entries that are not regular files but still pass `exists()`;
  - the listing's order;
  - the charset;
  - an I/O error on a file that exists (such a file always counts and reads).
- `Server.ClientHandler.WriteUpload`: an `IOException` from `fos.write` or `fos.close` after a successful read is not modelled. It would leave a partly written file and the failure text.
- `Dispatch.CountFile`: `Files.lines` in `countLines` (`src/Server.java:171`, also reached from `getSystemTotals`) decodes strictly as UTF-8. On content that is not valid UTF-8 it throws an `UncheckedIOException`, which the `catch (IOException e)` does not catch, so it escapes `processClientMessage`. The model's files are strings, with no byte encoding, so every file has a line count.
- `Dispatch.CountFile`/`Dispatch.FileContent`: a name that `Paths.get` rejects, such as one holding a NUL character, throws `InvalidPathException` (`src/Server.java:170`, `182`, `195`, `278`), and it escapes. The model treats every name as a plain map key: such a file is absent, so it reads as "Failed to read file." and counts 0.
- Logging (`System.out.println`, `printStackTrace`) and the debug method `printCacheContents` are left out.
- A `null` request line (a client that closes without sending) would make `message.split` throw. It is not modelled: requests are strings.
- `Cache.CacheService.constructor`: does not model a negative `maxSize`. The `LinkedHashMap` constructor throws for it, so it is a precondition here.
- The `(int)` cast of the `long` line count and `int` overflow of counts are not modelled. Counts are unbounded naturals.
- `CacheService<K, V>` is modelled with `String` keys and values only, as the server instantiates it.
- `Server.ClientHandler.ProcessClientMessage`: requires a cache with `maxSize >= 1`. With `maxSize <= 0` the first lookup never returns (`CleanupNeverEndsWithoutCapacity`), and the server uses 6.
- Strings are sequences of Unicode code points, not of UTF-16 code units. A lone surrogate, which a Java string can hold after decoding malformed bytes, cannot be represented. `countCharacters` still counts UTF-16 code units, through `JavaText.Utf16Length`.
