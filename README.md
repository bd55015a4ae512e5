# pokedexcli core, modelled in Dafny

pokedexcli is a command-line REPL that pages through the PokeAPI location-area
listing. This project models its sequential core:

- `cleanInput`, the tokenizer. It trims a line, lower-cases it and splits it into
  fields at white space (module `Input`, file `input.dfy`).
- The dispatch step of the REPL loop. The first word names a command in the
  registry and the remaining words are its arguments (module `Repl`, file `repl.dfy`).
- The `map` / `mapb` commands (module `Pagination`, file `pagination.dfy`). They form
  a two-field cursor (`config.Next`, `config.Previous`) over the listing. Each page
  is loaded cache-aside: look the URL up in the cache; on a miss, fetch it, store the
  raw body under the URL, then decode it.
- `pokecache.Cache` (module `PokeCache`, file `pokecache.dfy`). This is a class
  holding a map from key to (bytes, creation time) and a fixed interval.
  - `Add` stamps the entry with an explicit time `now`.
  - `Get` never checks expiry.
  - The background reaper is an explicit `Reap(now)` step. It removes every entry
    created before `now - interval`.
- Supporting modules:
  - `CacheTrace` (`cache_trace.dfy`) replays a sequence of adds and reaper sweeps. It
    states what `Get` then observes and bounds how long an entry stays readable.
  - `CacheTests` (`cache_tests.dfy`) runs the scenarios of `pokecache/cache_test.go`
    against the class.
  - `InputCases` (in `input.dfy`) proves the table cases of `repl_test.go`.

Times are integers in nanoseconds, like Go's `time.Duration`. The network request
with the reading of its body is a function parameter `fetch: string -> Result<Bytes>`.
JSON decoding is a function parameter `decode: Bytes -> Result<Page>`.

`pokecache/cache.go` is not part of this model. Its tests and call sites show
that `Add` then `Get` finds the value and that an entry eventually disappears.
They do not show what removes it or when. The model therefore rests on two
assumptions of its own:

- `Get` does no expiry check; it reports whatever is still in the map.
- Only the reaper removes entries. It ticks once per interval, counted from the
  cache's creation, and each tick drops the entries older than one interval.

A cache that instead checks an entry's age on every `Get`, or a reaper whose
ticker starts later, would behave differently; see "## Findings".

## Model

| member | source | states |
|---|---|---|
| `Input.TrimLeft` | main.go:41 | the result is the suffix of the input left after an all-space prefix, and it does not start with white space |
| `Input.TrimRight` | main.go:41 | the result is the prefix of the input left before an all-space suffix, and it does not end with white space |
| `Input.TrimSpace` | main.go:41 | the trimmed line neither starts nor ends with white space |
| `Input.TrimSpaceInfix` | main.go:41 | the trimmed line is the infix `s[i..j]` whose outside parts are all white space |
| `Input.ToLower` | main.go:42 | lower-casing keeps the length and maps each character through ASCII lower-casing |
| `Input.WordEnd` | main.go:43 | the first field of a line ends at the first white space or at the end of the line |
| `Input.Fields` | main.go:43 | every field is non-empty and free of white space, and a line without upper-case letters gives only lower-case fields |
| `Input.CleanInput` | main.go:40-45 | every returned word is non-empty, contains no white space and has no upper-case letter |
| `Input.FieldsOfSpaced` | main.go:43 | words laid out with white-space gaps (non-empty between words) split back into exactly those words, in order |
| `Input.SpacedFields` | main.go:43 | every line is its fields laid out with such gaps, so the fields are exactly its maximal non-space runs, in order |
| `Input.FieldsIgnoresOuterSpace` | main.go:41-43 | white space around a line does not change its fields |
| `Input.CleanInputIsFieldsOfLower` | main.go:40-45 | trimming is redundant: `cleanInput(s)` equals the fields of the lower-cased `s` |
| `Input.CleanInputLayout` | main.go:40-45 | the lower-cased line is exactly its tokens joined by runs of white space, with optional white space at both ends |
| `Input.CleanInputOfSpaced` | main.go:40-45 | lower-case words laid out with any valid gaps tokenize back to themselves |
| `Input.CleanInputLowersWords` | repl_test.go:16-23 | words of any case, with any spacing, tokenize to the same words lower-cased (for example "Charmander Bulbasaur PIKACHU") |
| `Input.CleanInputIdempotent` | main.go:40-45 | tokenizing the tokens joined by single spaces gives the same tokens |
| `Input.CleanInputOfBlank` | repl_test.go:24-31 | an empty or all-white-space line has no tokens |
| `InputCases.HelloWorld` | repl_test.go:12-15 | "  hello  world  " tokenizes to "hello", "world" |
| `InputCases.Blank` | repl_test.go:24-31 | "" and "   " tokenize to no words |
| `PokeCache.Lookup` | pokecache/cache_test.go:16-19 | a key is found exactly when it is in the map, with its stored bytes |
| `PokeCache.Reaped` | pokecache/cache_test.go:61-79 | a reap keeps exactly the entries created at or after the cutoff, unchanged |
| `PokeCache.ReapKeepsFresh` | pokecache/cache_test.go:62-79 | reaping at `now` keeps an entry exactly when at most one interval has passed since its `Add` |
| `PokeCache.Cache.constructor` | pokecache/cache_test.go:10 | `NewCache(interval)` starts empty with that interval |
| `PokeCache.Cache.Add` | pokecache/cache_test.go:14 | the entry for the key becomes the given bytes stamped with `now`; other keys are unchanged |
| `PokeCache.Cache.Get` | pokecache/cache_test.go:16-19 | found exactly when the key is present, with the stored bytes; otherwise empty bytes and false; no expiry check |
| `PokeCache.Cache.Reap` | pokecache/cache_test.go:21-25 | the entries become those a reap at `now - interval` keeps |
| `CacheTrace.LastPut` | pokecache/cache_test.go:14 | the index found is an `Add` of the key with no later `Add` of it; none means the key was never added |
| `CacheTrace.ReplayLookup` | pokecache/cache_test.go:9-79 | after any adds and sweeps, a key is present exactly when it was added and no sweep after its last `Add` ran more than one interval later; if present, it holds that `Add`'s bytes and time |
| `CacheTrace.AddThenGet` | pokecache/cache_test.go:14-19 | after `Add(k, v)`, `Get(k)` finds `v`, whatever happened before |
| `CacheTrace.NeverAddedMisses` | main.go:72-78 | a key never added is not found |
| `CacheTrace.NoPrematureExpiry` | pokecache/cache_test.go:62-71 | while every sweep runs at most one interval after the `Add`, the value is still found |
| `CacheTrace.ExpiredAfterSweep` | pokecache/cache_test.go:21-25 | once a sweep runs more than one interval after the last `Add`, the key is not found |
| `CacheTrace.RemovingTick` | pokecache/cache_test.go:61-79 | with ticks every interval from creation, tick number `t0 / interval + 2` is the first to remove an entry added at `t0`, and it comes at most two intervals after `t0` |
| `CacheTrace.StalenessBound` | pokecache/cache_test.go:61-79 | with the reaper ticking every interval, an entry is gone no later than two intervals after its `Add` |
| `CacheTests.Play` | pokecache/cache_test.go:9-26 | running adds and sweeps on a `Cache` object yields exactly the replayed entries |
| `CacheTests.AddGet` | pokecache/cache_test.go:28-59 | in a fresh cache, for every key and value, `Add` then `Get` finds exactly the added bytes |
| `CacheTests.AddSweepGet` | pokecache/cache_test.go:9-26 | `Get` right after `Add` hits, and after a sweep it hits exactly when no more than one interval separates the `Add` from the sweep |
| `CacheTests.ReapLoop` | pokecache/cache_test.go:61-80 | with a 5ms interval and ticks at 5ms and 10ms, the entry is found at once and is gone at 10ms |
| `CacheTests.TestCacheAsWritten` | pokecache/cache_test.go:21-25 | with a 2s interval and a tick at 2s, the entry is still found at 3s |
| `CacheTests.TestCacheTwoIntervals` | pokecache/cache_test.go:9-26 | with ticks at 2s and 4s, the entry is found at once and is gone after the second tick |
| `Pagination.Load` | main.go:71-96 | a hit decodes the cached bytes and requests nothing; a miss requests the URL; a failed fetch adds nothing; a fetched body is stored under the URL before decoding, even if decoding then fails |
| `Pagination.LoadTransparent` | main.go:72-96 | when the cache agrees with the network, a load gives the page the network alone gives, and the cache still agrees afterwards |
| `Pagination.LoadTwiceHits` | main.go:85-90 | after a successful fetch, loading the same URL again requests nothing and decodes the same bytes |
| `Pagination.Turn` | main.go:71-104 | on success the cursor becomes exactly the page's next/previous links; on any error the cursor is unchanged and the error is returned |
| `Pagination.MapUrl` | main.go:66-69 | `map` requests `Next` when it is set and the first-page URL otherwise; it requests the first-page URL exactly when `Next` is unset or points at that page |
| `Pagination.MapStep` | main.go:65-105 | `map` requests `Next` if set, else the first-page URL; a cached URL is not requested and the cache is unchanged; on error the cursor is unchanged; a fetched body is cached |
| `Pagination.MapBackStep` | main.go:107-147 | `mapb` with no previous link requests nothing and changes nothing; otherwise it requests only the uncached previous URL, keeps the cursor on error and caches a fetched body |
| `Pagination.MapAfterLastPageRestarts` | main.go:65-104 | after a page without a next link, `map` clears `Next`, so the following `map` goes back to the first-page URL |
| `Pagination.PagingTransparent` | main.go:65-147 | when the cache agrees with the network, `map` and `mapb` move the cursor and report errors exactly as with an empty cache |
| `Pagination.Config.constructor` | main.go:178-179 | the cursor starts empty with a fresh, empty cache whose interval is 5 seconds |
| `Pagination.TurnTo` | main.go:71-104 | the cursor, the cache, the request and the error are those `Turn` specifies |
| `Pagination.CommandMap` | main.go:65-105 | `commandMap` changes the cursor and cache as `MapStep` specifies |
| `Pagination.CommandMapBack` | main.go:107-147 | `commandMapBack` changes the cursor and cache as `MapBackStep` specifies |
| `Repl.Dispatch` | main.go:189-204 | an empty word list is skipped; otherwise the first word selects the registered command and the rest are its arguments, or the first word is reported as unknown |
| `Repl.DispatchTyped` | main.go:188-204 | a name followed by arguments, in any case and spacing, runs the command registered under the lower-cased name with the lower-cased arguments, or is unknown |
| `Repl.RegisteredNamesRun` | main.go:150-173 | the registry `init` builds (the constant `Repl.Registry`) holds exactly "exit", "help", "map" and "mapb", and each name typed alone, with any white space around it, runs the command registered under it |
| `Repl.BlankLineSkipped` | main.go:189-192 | a blank line dispatches nothing |
| `Repl.Step` | main.go:188-204 | only `map` and `mapb` change the cursor or the cache, as their specifications say; a blank line, an unknown name, `help` and `exit` leave both unchanged and request nothing |

## Left out

- Console I/O: the `bufio.Scanner` loop over standard input, the prompt and every `fmt.Print*`. This includes the area names `map` prints, "Unknown command", "you're on the first page" and the error messages. A turn instead returns what it did.
- `commandExit`'s `os.Exit(0)`: process exit. In the model, `exit` changes no state.
- `commandHelp`'s listing: it prints the registry in Go's unspecified map order. In the model, `help` changes no state.
- `http.Get`, `io.ReadAll` and `resp.Body.Close`: network I/O. They become the oracle `fetch`. A failure of either the request or the body read is one `Err`.
- `json.Unmarshal` into `LocationAreaResponse`: a library call. It becomes the oracle `decode`.
- The reaper goroutine, its ticker, the cache's mutex and wall-clock time: concurrency and real time. `Add` takes `now`, and each reaper tick is an explicit `Reap(now)`. Race-freedom is not modelled.
- The internals of `pokecache/cache.go`: it is not part of this model. The model assumes there is no expiry check in `Get`, no per-key lifetime and no size limit, and that the reaper's ticker starts when the cache is created. An age check in `Get` is not modelled.
- Unicode in `strings.ToLower`: only the ASCII letters A-Z are lower-cased; other characters are left as they are. White space is the full `unicode.IsSpace` set.
- Byte strings: Go strings are bytes, and `strings.ToLower` passes them through `strings.Map`, which replaces invalid UTF-8 with U+FFFD. The model's `string` is a sequence of Unicode characters, so it cannot express invalid UTF-8 input or that replacement.
- `Input.CleanInputLowersWords`: it proves the "Charmander Bulbasaur PIKACHU" and "   Mixed  CASE    and   spacing  " table rows (repl_test.go:16-23) for all words and spacings at once. Those two strings are not also checked as literals.

## Findings

| source | as written | input that shows it | evidently intended | confidence | as-written member | corrected member |
|---|---|---|---|---|---|---|
| pokecache/cache_test.go:21-25 | `TestCache` expects the entry to be gone 3s after `Add` with a 2s interval | the reaper ticks at 2s and 4s after creation; `Add` at 1ns; the 2s tick's cutoff is time 0, so the entry survives, and `Get` at 3s still finds it | wait more than two intervals, the worst-case staleness of a reaper ticking once per interval | medium: it assumes `Get` does no expiry check and the reaper ticks once per interval from creation. An age check in `Get`, or a ticker started after `Add`, would make `TestCache` pass, and so can real scheduling delays; not executed | `CacheTests.TestCacheAsWritten` | `CacheTests.TestCacheTwoIntervals` |
