/**
 * The sequential glue of the shell (main.go): tokenising an input line, the
 * read-through use of the response cache, the pagination cursor of the `map`
 * and `mapb` commands, and the set of caught Pokemon.
 *
 * What lies outside the program's own code is an input to the model: the
 * outcome of the HTTP fetch is a `Result<T>`, JSON encoding and decoding are a
 * `Codec<T>`, the clock is a `now` parameter and the random catch is a boolean.
 */
module Pokedex {
  import opened Wrappers
  import opened PokeCache
  import opened PokeApi

  // ---------------------------------------------------------------------------
  // cleanInput: strings.Fields(strings.ToLower(text)), over ASCII.

  /** ASCII white space: tab, line feed, vertical tab, form feed, carriage return and space. */
  predicate IsSpace(c: char) {
    c == ' ' || '\t' <= c <= '\r'
  }

  predicate IsUpper(c: char) {
    'A' <= c <= 'Z'
  }

  function ToLower(c: char): char {
    if IsUpper(c) then (c as int + 32) as char else c
  }

  function Lower(s: string): string {
    seq(|s|, i requires 0 <= i < |s| => ToLower(s[i]))
  }

  /** What every field is: non-empty and free of white space. */
  predicate IsToken(w: string) {
    w != [] && forall i :: 0 <= i < |w| ==> !IsSpace(w[i])
  }

  predicate NoUpper(w: string) {
    forall c :: c in w ==> !IsUpper(c)
  }

  /** The longest prefix of `s` that holds no white space. */
  function Word(s: string): (w: string)
    ensures w <= s
    ensures forall i :: 0 <= i < |w| ==> !IsSpace(w[i])
    ensures |w| < |s| ==> IsSpace(s[|w|])
  {
    if s == [] || IsSpace(s[0]) then [] else [s[0]] + Word(s[1..])
  }

  /** strings.Fields: the maximal runs of non-space characters of `s`, in order. */
  function Fields(s: string): (r: seq<string>)
    ensures forall i :: 0 <= i < |r| ==> IsToken(r[i])
    ensures forall i, c :: 0 <= i < |r| && c in r[i] ==> c in s
    decreases |s|
  {
    if s == [] then []
    else if IsSpace(s[0]) then
      assert forall c :: c in s[1..] ==> c in s;
      Fields(s[1..])
    else
      var w := Word(s);
      assert forall c :: c in s[|w|..] ==> c in s;
      [w] + Fields(s[|w|..])
  }

  function Concat(ws: seq<string>): string {
    if ws == [] then [] else ws[0] + Concat(ws[1..])
  }

  /** `s` with its white space characters deleted. */
  function RemoveSpace(s: string): string {
    if s == [] then [] else (if IsSpace(s[0]) then [] else [s[0]]) + RemoveSpace(s[1..])
  }

  /** The words of `ws` joined by single spaces. */
  function Unwords(ws: seq<string>): string {
    if |ws| == 0 then [] else if |ws| == 1 then ws[0] else ws[0] + " " + Unwords(ws[1..])
  }

  lemma {:induction false} RemoveSpaceOfWord(s: string)
    ensures RemoveSpace(s) == Word(s) + RemoveSpace(s[|Word(s)|..])
  {
    if s == [] || IsSpace(s[0]) {
      assert s[|Word(s)|..] == s;
    } else {
      var w := Word(s[1..]);
      RemoveSpaceOfWord(s[1..]);
      assert Word(s) == [s[0]] + w;
      assert s[1..][|w|..] == s[|Word(s)|..];
      calc {
        RemoveSpace(s);
        [s[0]] + RemoveSpace(s[1..]);
        [s[0]] + (w + RemoveSpace(s[|Word(s)|..]));
        ([s[0]] + w) + RemoveSpace(s[|Word(s)|..]);
      }
    }
  }

  /** Concatenating the fields of `s` gives `s` with its white space removed. */
  lemma {:induction false} FieldsConcat(s: string)
    ensures Concat(Fields(s)) == RemoveSpace(s)
    decreases |s|
  {
    if s == [] {
    } else if IsSpace(s[0]) {
      FieldsConcat(s[1..]);
    } else {
      var w := Word(s);
      FieldsConcat(s[|w|..]);
      RemoveSpaceOfWord(s);
      assert ([w] + Fields(s[|w|..]))[1..] == Fields(s[|w|..]);
    }
  }

  lemma {:induction false} WordOfToken(w: string, rest: string)
    requires forall i :: 0 <= i < |w| ==> !IsSpace(w[i])
    requires rest == [] || IsSpace(rest[0])
    ensures Word(w + rest) == w
  {
    if w != [] {
      assert (w + rest)[1..] == w[1..] + rest;
      WordOfToken(w[1..], rest);
    }
  }

  /** A token followed by white space or the end of the line is one field. */
  lemma FieldsAfterToken(w: string, rest: string)
    requires IsToken(w)
    requires rest == [] || IsSpace(rest[0])
    ensures Fields(w + rest) == [w] + Fields(rest)
  {
    WordOfToken(w, rest);
    assert (w + rest)[|w|..] == rest;
  }

  /** Fields recovers the words a line was built from: splitting undoes joining. */
  lemma {:induction false} FieldsOfUnwords(ws: seq<string>)
    requires forall i :: 0 <= i < |ws| ==> IsToken(ws[i])
    ensures Fields(Unwords(ws)) == ws
  {
    if |ws| == 1 {
      FieldsAfterToken(ws[0], []);
      assert ws[0] + [] == ws[0];
    } else if |ws| > 1 {
      var tail := Unwords(ws[1..]);
      assert ws[0] + " " + tail == ws[0] + (" " + tail);
      FieldsAfterToken(ws[0], " " + tail);
      assert (" " + tail)[1..] == tail;
      FieldsOfUnwords(ws[1..]);
      assert ws == [ws[0]] + ws[1..];
    }
  }

  lemma LowerHasNoUpper(s: string)
    ensures NoUpper(Lower(s))
  {
    forall c | c in Lower(s) ensures !IsUpper(c) {
      var i :| 0 <= i < |s| && Lower(s)[i] == c;
    }
  }

  /** cleanInput: the lower-cased fields of a line. */
  function CleanInput(text: string): (r: seq<string>)
    ensures forall i :: 0 <= i < |r| ==> IsToken(r[i]) && NoUpper(r[i])
    ensures Concat(r) == RemoveSpace(Lower(text))
  {
    LowerHasNoUpper(text);
    FieldsConcat(Lower(text));
    Fields(Lower(text))
  }

  /** A white space character before the rest of a line produces no field. */
  lemma FieldsAfterSpace(c: char, rest: string)
    requires IsSpace(c)
    ensures Fields([c] + rest) == Fields(rest)
  {
    assert ([c] + rest)[1..] == rest;
  }

  /** White space before the rest of a line produces no field. */
  lemma {:induction false} FieldsSkipsSpace(pad: string, rest: string)
    requires forall i :: 0 <= i < |pad| ==> IsSpace(pad[i])
    ensures Fields(pad + rest) == Fields(rest)
  {
    if pad != [] {
      var tail := pad[1..] + rest;
      assert pad + rest == [pad[0]] + tail;
      FieldsAfterSpace(pad[0], tail);
      FieldsSkipsSpace(pad[1..], rest);
    } else {
      assert pad + rest == rest;
    }
  }

  /** A token, then white space, then the rest of a line: the token is the first field. */
  lemma FieldsTokenThenSpace(w: string, pad: string, rest: string)
    requires IsToken(w)
    requires pad != [] && forall i :: 0 <= i < |pad| ==> IsSpace(pad[i])
    ensures Fields(w + (pad + rest)) == [w] + Fields(rest)
  {
    assert (pad + rest)[0] == pad[0];
    FieldsAfterToken(w, pad + rest);
    FieldsSkipsSpace(pad, rest);
  }

  /** A token on its own is one field. */
  lemma FieldsOfToken(w: string)
    requires IsToken(w)
    ensures Fields(w) == [w]
  {
    FieldsAfterToken(w, []);
    assert w + [] == w;
  }

  /**
   * Two tokens with a run of white space between them, and any white space
   * (possibly none) before and after them, are exactly the two fields.
   */
  lemma FieldsOfPaddedPair(p0: string, h: string, p1: string, w: string, p2: string)
    requires forall i :: 0 <= i < |p0| ==> IsSpace(p0[i])
    requires p1 != [] && forall i :: 0 <= i < |p1| ==> IsSpace(p1[i])
    requires forall i :: 0 <= i < |p2| ==> IsSpace(p2[i])
    requires IsToken(h) && IsToken(w)
    ensures Fields(p0 + (h + (p1 + (w + p2)))) == [h, w]
  {
    FieldsSkipsSpace(p0, h + (p1 + (w + p2)));
    FieldsTokenThenSpace(h, p1, w + p2);
    if p2 == [] {
      assert w + p2 == w;
      FieldsOfToken(w);
    } else {
      assert p2 == p2 + [];
      FieldsTokenThenSpace(w, p2, []);
    }
  }

  lemma LowerPadded()
    ensures Lower("  hello  world  ") == "  hello  world  "
  {
  }

  lemma SplitPadded()
    ensures "  hello  world  " == "  " + ("hello" + ("  " + ("world" + "  ")))
  {
  }

  /** The first case of the tokeniser's test: runs of spaces around and between words are dropped. */
  lemma CleanInputPadded()
    ensures CleanInput("  hello  world  ") == ["hello", "world"]
  {
    LowerPadded();
    SplitPadded();
    FieldsOfPaddedPair("  ", "hello", "  ", "world", "  ");
  }

  /** Three tokens separated by two runs of white space, which may differ, are the three fields. */
  lemma FieldsOfSeparatedTriple(a: string, p1: string, b: string, p2: string, c: string)
    requires p1 != [] && forall i :: 0 <= i < |p1| ==> IsSpace(p1[i])
    requires p2 != [] && forall i :: 0 <= i < |p2| ==> IsSpace(p2[i])
    requires IsToken(a) && IsToken(b) && IsToken(c)
    ensures Fields(a + (p1 + (b + (p2 + c)))) == [a, b, c]
  {
    FieldsTokenThenSpace(a, p1, b + (p2 + c));
    FieldsTokenThenSpace(b, p2, c);
    FieldsOfToken(c);
  }

  lemma LowerMixedCase()
    ensures Lower("Charmander Bulbasaur PIKACHU") == "charmander bulbasaur pikachu"
  {
  }

  lemma SplitMixedCase()
    ensures "charmander bulbasaur pikachu" == "charmander" + (" " + ("bulbasaur" + (" " + "pikachu")))
  {
  }

  /** The second case of the tokeniser's test: upper-case letters are lowered. */
  lemma CleanInputMixedCase()
    ensures CleanInput("Charmander Bulbasaur PIKACHU") == ["charmander", "bulbasaur", "pikachu"]
  {
    LowerMixedCase();
    SplitMixedCase();
    FieldsOfSeparatedTriple("charmander", " ", "bulbasaur", " ", "pikachu");
  }

  // ---------------------------------------------------------------------------
  // The dispatcher's reading of a line: the command word and its first argument.

  /** A line with nothing but white space (the empty line included). */
  predicate IsBlank(line: string) {
    forall i :: 0 <= i < |line| ==> IsSpace(line[i])
  }

  /** A line has no fields exactly when it is blank. */
  lemma {:induction false} FieldsEmptyIffBlank(s: string)
    ensures Fields(s) == [] <==> IsBlank(s)
    decreases |s|
  {
    if s != [] {
      FieldsEmptyIffBlank(s[1..]);
      if IsSpace(s[0]) {
        assert IsBlank(s) <==> IsBlank(s[1..]) by {
          forall i | 1 <= i < |s| ensures s[i] == s[1..][i - 1] { }
        }
      } else {
        assert !IsBlank(s);
      }
    }
  }

  /** Lowering changes no character's being white space. */
  lemma LowerKeepsBlank(line: string)
    ensures IsBlank(Lower(line)) <==> IsBlank(line)
  {
    forall i | 0 <= i < |line| ensures IsSpace(Lower(line)[i]) <==> IsSpace(line[i]) { }
  }

  /**
   * The dispatcher as written: it indexes the first field without checking that
   * there is one, so it is defined only for lines with at least one field (on any
   * other line the index is out of range and the program panics). The command
   * word is a lower-case token, the argument a lower-case token or empty, and the
   * two begin the line's squeezed, lowered text. The lemmas after it say which
   * words they are: the first word and the second word, or `""`.
   */
  function CommandWordAsWritten(line: string): (r: (string, string))
    requires |CleanInput(line)| >= 1
    ensures IsToken(r.0) && NoUpper(r.0)
    ensures r.1 == "" || (IsToken(r.1) && NoUpper(r.1))
    ensures r.0 + r.1 <= RemoveSpace(Lower(line))
  {
    var params := CleanInput(line);
    var param1 := if |params| >= 2 then params[1] else "";
    assert Concat(params) == params[0] + Concat(params[1..]);
    assert |params| >= 2 ==> Concat(params[1..]) == params[1] + Concat(params[2..]);
    assert params[0] + param1 <= Concat(params);
    (params[0], param1)
  }

  /** The as-written dispatcher can read exactly the lines that are not blank. */
  lemma BlankLineHasNoCommand(line: string)
    ensures !(|CleanInput(line)| >= 1) <==> IsBlank(line)
  {
    FieldsEmptyIffBlank(Lower(line));
    LowerKeepsBlank(line);
  }

  /** The as-written dispatcher's command is the line's first word, whatever blank run precedes it. */
  lemma CommandIsFirstWord(line: string, p: string, w: string, rest: string)
    requires IsBlank(p) && IsToken(w)
    requires rest == [] || IsSpace(rest[0])
    requires Lower(line) == p + (w + rest)
    ensures |CleanInput(line)| >= 1 && CommandWordAsWritten(line).0 == w
  {
    FieldsSkipsSpace(p, w + rest);
    FieldsAfterToken(w, rest);
  }

  /** The as-written dispatcher's argument is the second word, after the blank run that ends the command. */
  lemma ArgumentIsSecondWord(line: string, p: string, w: string, q: string, v: string, rest: string)
    requires IsBlank(p) && IsToken(w)
    requires q != [] && IsBlank(q) && IsToken(v)
    requires rest == [] || IsSpace(rest[0])
    requires Lower(line) == p + (w + (q + (v + rest)))
    ensures |CleanInput(line)| >= 2 && CommandWordAsWritten(line) == (w, v)
  {
    FieldsSkipsSpace(p, w + (q + (v + rest)));
    FieldsTokenThenSpace(w, q, v + rest);
    FieldsAfterToken(v, rest);
  }

  /** When only white space follows the command, the as-written dispatcher's argument is empty. */
  lemma NoArgumentAfterLastWord(line: string, p: string, w: string, q: string)
    requires IsBlank(p) && IsToken(w) && IsBlank(q)
    requires Lower(line) == p + (w + q)
    ensures |CleanInput(line)| == 1 && CommandWordAsWritten(line) == (w, "")
  {
    FieldsSkipsSpace(p, w + q);
    if q == [] {
      assert w + q == w;
      FieldsOfToken(w);
    } else {
      assert q == q + [];
      FieldsTokenThenSpace(w, q, []);
    }
  }

  /** The dispatcher with the missing check: no command on a blank line, what the as-written dispatcher reads otherwise. */
  function CommandWord(line: string): (r: Option<(string, string)>)
    ensures r.None? <==> IsBlank(line)
    ensures r.Some? <==> |CleanInput(line)| >= 1
    ensures r.Some? ==> r.value == CommandWordAsWritten(line)
  {
    BlankLineHasNoCommand(line);
    var params := CleanInput(line);
    if |params| == 0 then None
    else Some((params[0], if |params| >= 2 then params[1] else ""))
  }

  // ---------------------------------------------------------------------------
  // getData: the read-through cache protocol.

  const LocationAreaURL := "https://pokeapi.co/api/v2/location-area/"
  const PokemonURL := "https://pokeapi.co/api/v2/pokemon/"
  const FirstPageURL := LocationAreaURL + "?offset=0&limit=20"
  const CacheInterval: Duration := 7 * Second

  /** Go's `(T, error)` pair: a value, and an error message when the call failed. */
  datatype Reply<T> = Reply(value: T, err: Option<string>)

  /**
   * JSON for one response type: `marshal` never fails (its error is dropped, a
   * failed encoding is whatever bytes it gives), and `unmarshal` decodes into the
   * type's zero value, yielding what it filled in and whether it failed.
   */
  datatype Codec<!T> = Codec(marshal: T -> Bytes, unmarshal: Bytes -> Reply<T>)

  /** What getData returns, given the cache it starts from and the outcome a fetch would have. */
  function GetDataReply<T>(m: map<string, Entry>, url: string, zero: T, fetch: Result<T>, codec: Codec<T>): Reply<T> {
    if url in m then codec.unmarshal(m[url].val)
    else match fetch
      case Ok(p) => Reply(p, None)
      case Err(e) => Reply(zero, Some(e))
  }

  /** The cache getData leaves behind. */
  function GetDataCache<T>(m: map<string, Entry>, url: string, now: Time, fetch: Result<T>, codec: Codec<T>): map<string, Entry> {
    if url !in m && fetch.Ok? then m[url := Entry(now, codec.marshal(fetch.value))] else m
  }

  /** A hit decodes the cached bytes: neither the reply nor the cache depends on what a fetch would give. */
  lemma GetDataHitIgnoresFetch<T>(m: map<string, Entry>, url: string, zero: T, now: Time, f1: Result<T>, f2: Result<T>, codec: Codec<T>)
    requires url in m
    ensures GetDataReply(m, url, zero, f1, codec) == GetDataReply(m, url, zero, f2, codec) == codec.unmarshal(m[url].val)
    ensures GetDataCache(m, url, now, f1, codec) == m
  {
  }

  /**
   * The cache changes only on a miss whose fetch succeeded, and then only at `url`;
   * the reply fails exactly when the fetch failed on a miss or the decoding failed on a hit.
   */
  lemma GetDataMiss<T>(m: map<string, Entry>, url: string, zero: T, now: Time, fetch: Result<T>, codec: Codec<T>)
    requires url !in m
    ensures fetch.Ok? ==> GetDataReply(m, url, zero, fetch, codec) == Reply(fetch.value, None)
    ensures fetch.Ok? ==> var m' := GetDataCache(m, url, now, fetch, codec);
              url in m' && m'[url] == Entry(now, codec.marshal(fetch.value)) &&
              m'.Keys == m.Keys + {url} &&
              forall k :: k in m ==> m'[k] == m[k]
    ensures fetch.Err? ==> GetDataReply(m, url, zero, fetch, codec) == Reply(zero, Some(fetch.error))
    ensures fetch.Err? ==> GetDataCache(m, url, now, fetch, codec) == m
  {
  }

  /**
   * Read-through: once a miss has cached a fetched value, the next getData on the
   * same url is a hit whatever the network would say, and it returns the fetched
   * value whenever decoding undoes encoding for it.
   */
  lemma ReadThrough<T>(m: map<string, Entry>, url: string, zero: T, t1: Time, t2: Time, p: T, later: Result<T>, codec: Codec<T>)
    requires url !in m
    requires codec.unmarshal(codec.marshal(p)) == Reply(p, None)
    ensures var m1 := GetDataCache(m, url, t1, Ok(p), codec);
            GetDataReply(m1, url, zero, later, codec) == Reply(p, None) &&
            GetDataCache(m1, url, t2, later, codec) == m1
  {
  }

  // ---------------------------------------------------------------------------
  // The session state: the pagination cursor, the cache and the caught Pokemon.

  /** The `map`/`mapb` cursor: the next page's URL and the previous page's, nil on the first page. */
  class Config {
    var next: string
    var previous: Option<string>

    constructor ()
      ensures next == FirstPageURL && previous == None
    {
      next := FirstPageURL;
      previous := None;
    }
  }

  /** The process-wide state that init() sets up: the response cache and the caught Pokemon. */
  class Session {
    const cache: Cache
    var pokemon: map<string, Pokemon>

    constructor ()
      ensures fresh(cache)
      ensures cache.cache == map[] && cache.interval == CacheInterval
      ensures pokemon == map[]
    {
      cache := new Cache(CacheInterval);
      pokemon := map[];
    }

    /** getData: serve `url` from the cache, or fetch it and cache its encoding when the fetch succeeds. */
    method GetData<T>(url: string, zero: T, now: Time, fetch: Result<T>, codec: Codec<T>) returns (r: Reply<T>)
      modifies cache
      ensures r == GetDataReply(old(cache.cache), url, zero, fetch, codec)
      ensures cache.cache == GetDataCache(old(cache.cache), url, now, fetch, codec)
    {
      var params := zero;
      var val, ok := cache.Get(url);
      if ok {
        r := codec.unmarshal(val);
        return;
      }
      match fetch {
        case Err(e) =>
          return Reply(params, Some(e));
        case Ok(p) =>
          params := p;
          var jsonData := codec.marshal(params);
          cache.Add(url, jsonData, now);
      }
      r := Reply(params, None);
    }

    /** Moves the cursor to the page fetched from `url`; a failed getData leaves the zero page's fields. */
    method DisplayLocationAreas(c: Config, url: string, now: Time, fetch: Result<PokeMap>, codec: Codec<PokeMap>)
      returns (err: Option<string>)
      modifies c, cache
      ensures var page := GetDataReply(old(cache.cache), url, ZeroPokeMap, fetch, codec).value;
              c.next == page.next && c.previous == page.previous
      ensures cache.cache == GetDataCache(old(cache.cache), url, now, fetch, codec)
      ensures err == None
    {
      var params := GetData(url, ZeroPokeMap, now, fetch, codec);
      c.next := params.value.next;
      c.previous := params.value.previous;
      err := None;
    }

    /** `map`: show the next page. */
    method CommandMap(c: Config, now: Time, fetch: Result<PokeMap>, codec: Codec<PokeMap>) returns (err: Option<string>)
      modifies c, cache
      ensures var page := GetDataReply(old(cache.cache), old(c.next), ZeroPokeMap, fetch, codec).value;
              c.next == page.next && c.previous == page.previous
      ensures cache.cache == GetDataCache(old(cache.cache), old(c.next), now, fetch, codec)
      ensures err == None
    {
      err := DisplayLocationAreas(c, c.next, now, fetch, codec);
    }

    /** `mapb`: show the previous page; on the first page nothing changes. */
    method CommandMapb(c: Config, now: Time, fetch: Result<PokeMap>, codec: Codec<PokeMap>) returns (err: Option<string>)
      modifies c, cache
      ensures err == None
      ensures old(c.previous) == None ==>
                c.next == old(c.next) && c.previous == None && cache.cache == old(cache.cache)
      ensures old(c.previous).Some? ==>
                var url := old(c.previous).value;
                var page := GetDataReply(old(cache.cache), url, ZeroPokeMap, fetch, codec).value;
                c.next == page.next && c.previous == page.previous &&
                cache.cache == GetDataCache(old(cache.cache), url, now, fetch, codec)
    {
      if c.previous == None {
        return None;
      }
      err := DisplayLocationAreas(c, c.previous.value, now, fetch, codec);
    }

    /** `explore <area>`: fetch (through the cache) the Pokemon of an area; an empty name does nothing. */
    method CommandExplore(input: string, now: Time, fetch: Result<LocationAreaPokemon>, codec: Codec<LocationAreaPokemon>)
      returns (err: Option<string>)
      modifies cache
      ensures err == None
      ensures input == "" ==> cache.cache == old(cache.cache)
      ensures input != "" ==> cache.cache == GetDataCache(old(cache.cache), LocationAreaURL + input, now, fetch, codec)
    {
      if input == "" {
        return None;
      }
      var url := LocationAreaURL + input;
      var params := GetData(url, ZeroLocationAreaPokemon, now, fetch, codec);
      err := None;
    }

    /**
     * `catch <name>`: look the Pokemon up (through the cache); an unknown name is
     * an error, otherwise a successful throw adds it to the dex and an escape
     * leaves the dex as it was. An empty name does nothing.
     */
    method CommandCatch(input: string, now: Time, fetch: Result<Pokemon>, codec: Codec<Pokemon>, caught: bool)
      returns (err: Option<string>)
      modifies this, cache
      ensures input == "" ==> err == None && pokemon == old(pokemon) && cache.cache == old(cache.cache)
      ensures input != "" ==>
                var url := PokemonURL + input;
                cache.cache == GetDataCache(old(cache.cache), url, now, fetch, codec)
      ensures input != "" ==>
                var r := GetDataReply(old(cache.cache), PokemonURL + input, ZeroPokemon, fetch, codec);
                if r.err.Some? then
                  err == Some("pokemon " + input + " not found") && pokemon == old(pokemon)
                else
                  err == None && pokemon == if caught then old(pokemon)[input := r.value] else old(pokemon)
    {
      if input == "" {
        return None;
      }
      var url := PokemonURL + input;
      var params := GetData(url, ZeroPokemon, now, fetch, codec);
      if params.err.Some? {
        return Some("pokemon " + input + " not found");
      }
      if caught {
        pokemon := pokemon[input := params.value];
      }
      err := None;
    }

    /** `inspect <name>`: show a caught Pokemon; one not in the dex is an error. An empty name does nothing. */
    method CommandInspect(input: string) returns (shown: Option<Pokemon>, err: Option<string>)
      ensures input == "" ==> shown == None && err == None
      ensures input != "" && input in pokemon ==> shown == Some(pokemon[input]) && err == None
      ensures input != "" && input !in pokemon ==> shown == None && err == Some("you have not caught that pokemon")
    {
      if input == "" {
        return None, None;
      }
      if input !in pokemon {
        return None, Some("you have not caught that pokemon");
      }
      var monster := pokemon[input];
      return Some(monster), None;
    }
  }

  /**
   * In a new session, a caught Pokemon can be inspected and an escaped one cannot.
   */
  method CatchThenInspect(name: string, now: Time, p: Pokemon, codec: Codec<Pokemon>, caught: bool)
    returns (catchErr: Option<string>, shown: Option<Pokemon>, inspectErr: Option<string>)
    requires name != ""
    ensures catchErr == None
    ensures caught ==> shown == Some(p) && inspectErr == None
    ensures !caught ==> shown == None && inspectErr == Some("you have not caught that pokemon")
  {
    var s := new Session();
    catchErr := s.CommandCatch(name, now, Ok(p), codec, caught);
    shown, inspectErr := s.CommandInspect(name);
  }

  /** On a new cursor `mapb` stays on the first page and fetches nothing. */
  method FirstPageMapb(now: Time, fetch: Result<PokeMap>, codec: Codec<PokeMap>)
    returns (err: Option<string>, next: string, previous: Option<string>)
    ensures err == None && next == FirstPageURL && previous == None
  {
    var s := new Session();
    var c := new Config();
    err := s.CommandMapb(c, now, fetch, codec);
    next, previous := c.next, c.previous;
  }
}
