# pokedexcli in Dafny

A Dafny model of the core of pokedexcli, an interactive shell that pages through
location areas of a remote Pokemon API, caches the raw responses for a short
time and lets the user catch Pokemon into an in-memory dex.

What is modelled:

- **The expiring byte cache** (`internal/pokecache/pokecache.go`), module
  `PokeCache` in `pokecache.dfy`. `Cache` is a class whose `cache` field is the
  map from key to `Entry(createdAt, val)`. `Add` and `Get` work as in the source.
  `ReapPass(t)` is one tick of the reaper goroutine. It is a loop over the keys
  that deletes every entry whose age `t - createdAt` is strictly greater than
  the interval, and it is proved equal to the specification function `Reaped`.
  Lemmas about `Reaped` cover idempotence, a later reap subsuming an earlier
  one, and a fresh `Add` surviving a reap. Client methods replay the source's
  expiry test and the cache's basic promises: miss on a new cache, and, on any
  cache, hit after `Add` and last write wins.
- **The glue in `main.go`**, module `Pokedex` in `pokedex.dfy`:
  - `cleanInput` as `Fields(Lower(text))`, over ASCII. Lemmas cover the token
    shape, concatenation, splitting a space-joined line, and both test cases.
  - `getData`, the read-through cache protocol, specified by `GetDataReply` and
    `GetDataCache`, with lemmas for the hit, miss and read-through cases.
  - The `map`/`mapb` pagination cursor, as class `Config`.
  - The caught-Pokemon dex in `catch`/`inspect`, as class `Session`, which also
    holds the process-wide cache. `explore` is modelled too.
- The response shapes of `internal/pokeapi/pokeapi.go` (module `PokeApi`) and
  `Option`/`Result` (module `Wrappers`).

Inputs that stand for what lies outside the program's own code:

- Time is an integer count of nanoseconds, passed in by the caller (`now` for
  `Add`, the tick time `t` for `ReapPass`) in place of `time.Now()` and the
  ticker.
- The HTTP fetch is a `Result<T>` input (`fetch`).
- JSON is a `Codec<T>`: `marshal` is an opaque encoder and `unmarshal` an
  opaque decoder that may fail.
- The random catch is a boolean `caught`.
- Go's `(T, error)` results are `Reply<T>`, and Go's zero values are explicit
  constants (`ZeroPokeMap`, ...).

Facts of the code the model follows:

- `NewCache` always starts the reaper; reaping cannot be turned off.
- The cache does not store its interval. The reaper goroutine captures it, and
  the model stores it as the constant field `Cache.interval`.
- `NewCache` with a non-positive interval panics inside the goroutine
  (`time.NewTicker` refuses it), so the constructor requires `interval > 0`.
- `main.go` prints `Name`, `Height`, `Weight`, `Stats` and `Types` of a caught
  Pokemon, but the `pokeapi.Pokemon` struct declares only `BaseExperience`. The
  model follows the struct, and `inspect` returns the whole dex entry it would
  show.

## Model

| member | source | states |
|---|---|---|
| `PokeCache.Cache.constructor` | internal/pokecache/pokecache.go:18-24 | a new cache holds no entries and keeps the interval it was given |
| `PokeCache.Cache.Add` | internal/pokecache/pokecache.go:26-34 | the entry for the key becomes `{now, val}`; every other key keeps its presence and its entry |
| `PokeCache.Cache.Get` | internal/pokecache/pokecache.go:36-44 | hit exactly when the key is present, then the stored payload; on a miss an empty payload; nothing changes |
| `PokeCache.Cache.ReapPass` | internal/pokecache/pokecache.go:51-58 | the loop leaves exactly `Reaped(old cache)`: keys only removed, no entry older than the interval remains, every entry of age at most the interval (equal included) is kept unchanged |
| `PokeCache.ReapedIdempotent` | internal/pokecache/pokecache.go:52-57 | a second reap at the same tick changes nothing |
| `PokeCache.ReapedLaterSubsumes` | internal/pokecache/pokecache.go:52-57 | reaping at t1 and then at a later t2 equals reaping at t2; a later reap keeps a subset of the keys |
| `PokeCache.ReapedKeepsFreshAdd` | internal/pokecache/pokecache.go:52-57 | an entry added no longer than the interval before the tick survives, and the other entries are reaped as without it |
| `PokeCache.NewCacheMisses` | internal/pokecache/pokecache.go:18-42 | `Get` on a new cache returns an empty payload and false for every key |
| `PokeCache.GetAfterAdd` | internal/pokecache/pokecache.go:26-44 | on any cache, `Get` right after `Add(k, v)` returns `(v, true)` |
| `PokeCache.LastWriteWins` | internal/pokecache/pokecache.go:33 | on any cache, after `Add(k, v1)` and `Add(k, v2)`, `Get(k)` is `(v2, true)`, and another key keeps its own payload |
| `PokeCache.ReapLoopScenario` | repl_test.go:44-60 | an added entry is found at once, survives a tick at age at most the interval, and is missing after a tick at age greater than the interval |
| `Pokedex.Word` | main.go:112 | the result is the longest prefix of the input without white space |
| `Pokedex.Fields` | main.go:112 | every field is non-empty and free of white space, and is made of characters of the input |
| `Pokedex.FieldsConcat` | main.go:112 | concatenating the fields gives the input with its white space removed |
| `Pokedex.FieldsOfUnwords` | main.go:112 | splitting a line made of tokens joined by single spaces gives back those tokens |
| `Pokedex.FieldsSkipsSpace` | main.go:112 | white space before the rest of a line produces no field |
| `Pokedex.FieldsOfToken` | main.go:112 | a token on its own is exactly one field |
| `Pokedex.FieldsOfSeparatedTriple` | main.go:112 | three tokens separated by two non-empty runs of white space, which may differ, are exactly the three fields |
| `Pokedex.FieldsOfPaddedPair` | main.go:112 | two tokens with a non-empty run of white space between them and any white space, possibly none, before and after are exactly the two fields; the three runs are independent |
| `Pokedex.FieldsEmptyIffBlank` | main.go:112 | a string has no fields exactly when every character of it is white space |
| `Pokedex.LowerKeepsBlank` | main.go:112 | lowering a line keeps it blank, and keeps it non-blank |
| `Pokedex.CleanInput` | main.go:111-113 | every token is non-empty, has no white space and no upper-case letter; the tokens concatenate to the lowered input without white space |
| `Pokedex.CleanInputPadded` | repl_test.go:15-16 | `"  hello  world  "` gives `["hello", "world"]` |
| `Pokedex.CleanInputMixedCase` | repl_test.go:19-20 | `"Charmander Bulbasaur PIKACHU"` gives `["charmander", "bulbasaur", "pikachu"]` |
| `Pokedex.CommandWordAsWritten` | main.go:92-97 | defined only on lines with a field; the command is a non-empty lower-case token without white space, the argument such a token or `""`, and together they begin the lowered line with its white space removed; which words they are is stated by `Pokedex.CommandIsFirstWord`, `Pokedex.ArgumentIsSecondWord` and `Pokedex.NoArgumentAfterLastWord` |
| `Pokedex.CommandIsFirstWord` | main.go:92-93 | on a line whose lowered text is blanks, then a word, then white space or the end, the as-written dispatcher is defined and its command is that word |
| `Pokedex.ArgumentIsSecondWord` | main.go:92-97 | when a non-empty blank run and a second word follow the command word, the as-written dispatcher reads exactly the pair of the two words |
| `Pokedex.NoArgumentAfterLastWord` | main.go:92-97 | when only white space follows the command word, the line has one field and the as-written dispatcher's argument is `""` |
| `Pokedex.BlankLineHasNoCommand` | main.go:92-93 | for every line, the as-written dispatcher's precondition fails exactly when the line is blank (empty or all white space) |
| `Pokedex.CommandWord` | main.go:92-97 | no command exactly when the line is blank; otherwise exactly what the as-written dispatcher reads |
| `Pokedex.GetDataHitIgnoresFetch` | main.go:131-136 | on a hit the reply is the decoding of the cached bytes whatever a fetch would give, and the cache is unchanged |
| `Pokedex.GetDataMiss` | main.go:137-145 | on a miss a successful fetch is returned and its encoding is cached under the url alone, other keys untouched; a failed fetch returns the zero value with its error and leaves the cache unchanged |
| `Pokedex.ReadThrough` | main.go:129-147 | after a miss cached a fetched value, the next call on the url is a hit that returns the value, if decoding undoes encoding, whatever the network says |
| `Pokedex.Config.constructor` | main.go:78-81 | the cursor starts at the first page with no previous page |
| `Pokedex.Session.constructor` | main.go:83-84 | the session starts with an empty cache of interval 7 seconds and an empty dex |
| `Pokedex.Session.GetData` | main.go:129-147 | the reply and the new cache are `GetDataReply` and `GetDataCache` of the old cache |
| `Pokedex.Session.DisplayLocationAreas` | main.go:149-157 | `Next` and `Previous` become the fields of the page getData returned, which is the zero page when the fetch failed; the cache is updated as by getData; no error |
| `Pokedex.Session.CommandMap` | main.go:159-161 | shows the page at the old `Next` |
| `Pokedex.Session.CommandMapb` | main.go:163-169 | with no previous page nothing changes and no error is returned; otherwise shows the page at the old `Previous` |
| `Pokedex.Session.CommandExplore` | main.go:171-183 | an empty name changes nothing; otherwise the area's url is read through the cache; never an error |
| `Pokedex.Session.CommandCatch` | main.go:185-211 | an empty name changes nothing; a failed lookup returns "pokemon X not found" and keeps the dex; otherwise a catch stores the Pokemon under its name and an escape keeps the dex |
| `Pokedex.Session.CommandInspect` | main.go:213-236 | an empty name does nothing; a caught Pokemon is shown; one not in the dex gives "you have not caught that pokemon" |
| `Pokedex.CatchThenInspect` | main.go:203-220 | in a new session a caught Pokemon can be inspected and an escaped one cannot |
| `Pokedex.FirstPageMapb` | main.go:163-167 | on a new cursor `mapb` returns no error and stays on the first page |

## Left out

- The goroutine, the `sync.Mutex` and the `time.Ticker` of `reapLoop` and `NewCache`. The model is sequential: the lock does nothing, and the reaper is one `ReapPass` per tick, called by the client at times it chooses. Concurrent interleavings and the bounded-staleness timing of the real ticker are not modelled.
- `time.Now()` in `Add`, because the clock is an input. Nothing constrains successive `now` values, so the model does not promise that `createdAt` never decreases across overwrites.
- `PokeCache.Cache.ReapPass`: ages are unbounded integers. Go's `Time.Sub` saturates at the bounds of a 64-bit duration, and its monotonic clock reading is not modelled.
- All of `internal/pokeapi/pokeapi.go` except its response types. That covers the HTTP client, reading the body, the status-code check and JSON decoding, which are I/O behind the `fetch` input.
- The real `json.Marshal` and `json.Unmarshal`. They are the opaque `Codec` functions. Marshal's error is dropped, as in the source.
- The catch probability of `commandCatch` (floating point and `rand.Float64`). It is the boolean `caught`.
- The REPL loop, `bufio` scanning, every `fmt.Print`, `commandExit`'s `os.Exit` and `commandPokedex`/`commandHelp`. They only print or exit. The command table and the lookup of the command word are not modelled either. Only the reading of the line's first two fields is modelled, as `CommandWord`.
- The unused `input` argument of the `map` and `mapb` callbacks.
- The aliasing of Go slices in the cache. Go's `Add` stores the caller's `[]byte` and `Get` returns that same slice, so a later write through either would show in the other. `Bytes` is a value in the model, and no caller in `main.go` writes to either slice.
- `Pokedex.CleanInput`: only ASCII. White space is tab, line feed, vertical tab, form feed, carriage return and space, and only `A`-`Z` are lowered. Go's `unicode.IsSpace` also counts non-ASCII spaces such as U+0085 and U+00A0, and `strings.ToLower` maps all of Unicode. The model leaves those characters unchanged, inside fields.

## Findings

| source | as written | input that shows it | evidently intended | confidence | as-written member | corrected member |
|---|---|---|---|---|---|---|
| main.go:92-93 | `params[0]` is read without checking that `cleanInput` returned any field | any blank line, for instance `""` or `"   "`: no fields, so the index is out of range and the program panics | treat a line without fields as no command | high; not executed | `Pokedex.CommandWordAsWritten` (with `Pokedex.BlankLineHasNoCommand`) | `Pokedex.CommandWord` |
