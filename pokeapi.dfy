/**
 * The response shapes decoded from the remote API (internal/pokeapi/pokeapi.go).
 * Only the data is modelled here; the HTTP client and the JSON decoder are not.
 */
module PokeApi {
  import opened Wrappers

  /** One `{name, url}` element of a listing page's `results`. */
  datatype NamedResource = NamedResource(name: string, url: string)

  /** A page of location areas; `previous` is JSON `null` (nil) on the first page. */
  datatype PokeMap = PokeMap(count: int, next: string, previous: Option<string>, results: seq<NamedResource>)

  /** The Pokemon met in one location area, by name. */
  datatype LocationAreaPokemon = LocationAreaPokemon(pokemonEncounters: seq<string>)

  /** A Pokemon as the API struct declares it. */
  datatype Pokemon = Pokemon(baseExperience: int)

  /** Go's zero values of the three response types. */
  const ZeroPokeMap := PokeMap(0, "", None, [])
  const ZeroLocationAreaPokemon := LocationAreaPokemon([])
  const ZeroPokemon := Pokemon(0)
}
