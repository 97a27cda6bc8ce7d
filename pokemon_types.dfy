/** The normalised catalog entity and the raw PokeAPI response shape it is built from.
    The repository's `app/types/pokemon` module is not part of this model; these types
    are reconstructed from how `pokemonApi.ts` builds a Pokemon and how the collection
    service and the components read one. */
module PokemonTypes {
  import opened Wrappers

  /** One type badge of a Pokemon: its display name and its colour. */
  datatype PokemonType = PokemonType(name: string, color: string)

  /** The six base stats, each defaulting to 0 when the catalog omits it. */
  datatype Stats = Stats(
    hp: int,
    attack: int,
    defense: int,
    specialAttack: int,
    specialDefense: int,
    speed: int)

  /** The normalised entity. `id` is the catalog key that identifies a Pokemon
      everywhere; `image` is absent when the catalog has no sprite at all. */
  datatype Pokemon = Pokemon(
    id: int,
    name: string,
    image: Option<string>,
    types: seq<PokemonType>,
    stats: Stats)

  // ---- raw `/pokemon/{nameOrId}` response (the fields the normalisation reads) ----

  /** `sprites`: `front_default` and `other['official-artwork'].front_default`,
      both of which the catalog may send as null. */
  datatype RawSprites = RawSprites(frontDefault: Option<string>, officialArtwork: Option<string>)

  /** One entry of `types`: only `type.name` is read. */
  datatype RawTypeSlot = RawTypeSlot(typeName: string)

  /** One entry of `stats`: `stat.name` and `base_stat`. */
  datatype RawStat = RawStat(statName: string, baseStat: int)

  datatype RawPokemon = RawPokemon(
    id: int,
    name: string,
    sprites: RawSprites,
    types: seq<RawTypeSlot>,
    stats: seq<RawStat>)

  // ---- raw `/pokemon?offset&limit` response ----

  /** `results` (only each entry's `name` is read) and `next`, the URL of the
      following page or null. */
  datatype ListResponse = ListResponse(results: seq<string>, next: Option<string>)
}
