/** The catalog client of `app/services/pokemonApi.ts`: the status checks of the two
    HTTP calls, the normalisation of a raw `/pokemon/{nameOrId}` response into a
    Pokemon, and the order-preserving batch. The HTTP exchange itself is an input:
    a `fetch` function from the request to what came back. */
module PokemonApi {
  import opened Wrappers
  import opened PokemonTypes

  /** What one HTTP exchange produced: the request failed outright (network fault or
      the 10-second abort), or a response arrived with its `ok` flag and a body that
      either reads as the expected JSON shape or does not. */
  datatype HttpOutcome<T> = NetworkFailure | Response(ok: bool, body: Option<T>)

  /** A `/pokemon?offset=…&limit=…` request. */
  datatype ListRequest = ListRequest(offset: int, limit: int)

  /** The errors the client surfaces. `ListBodyUnreadable` is the JSON rejection that
      `getPokemonList` returns without awaiting, so it bypasses that function's catch. */
  datatype FetchError = ListFailed | PokemonFailed(nameOrId: string) | ListBodyUnreadable

  /** The message each error carries. The JSON rejection carries the parser's own
      message, which depends on the runtime and is not fixed here. */
  function Message(e: FetchError): (m: Option<string>)
  {
    match e
    case ListFailed => Some("Failed to fetch Pokemon list. Please try again.")
    case PokemonFailed(n) => Some("Failed to fetch Pokemon " + n + ". Please try again.")
    case ListBodyUnreadable => None
  }

  // ---------------------------------------------------------------------------
  // Status checks
  // ---------------------------------------------------------------------------

  /** `getPokemonList`: a network failure or a non-ok status is reported as the fixed
      list error; a readable ok body is returned as it is. */
  function GetPokemonList(offset: int, limit: int, fetch: ListRequest -> HttpOutcome<ListResponse>)
    : (r: Result<ListResponse, FetchError>)
    ensures r.Ok? <==> (fetch(ListRequest(offset, limit)).Response? && fetch(ListRequest(offset, limit)).ok
                        && fetch(ListRequest(offset, limit)).body.Some?)
    ensures r.Ok? ==> r.value == fetch(ListRequest(offset, limit)).body.value
    ensures !(fetch(ListRequest(offset, limit)).Response? && fetch(ListRequest(offset, limit)).ok) ==> r == Err(ListFailed)
    ensures fetch(ListRequest(offset, limit)) == Response(true, None) ==> r == Err(ListBodyUnreadable)
  {
    match fetch(ListRequest(offset, limit))
    case NetworkFailure => Err(ListFailed)
    case Response(ok, body) =>
      if !ok then Err(ListFailed)
      else if body.None? then Err(ListBodyUnreadable)
      else Ok(body.value)
  }

  /** `getPokemon`: every failure, including an unreadable body, becomes the one error
      naming the requested Pokemon; otherwise the body is normalised. */
  function GetPokemon(nameOrId: string, fetch: string -> HttpOutcome<RawPokemon>): (r: Result<Pokemon, FetchError>)
    ensures r.Ok? <==> (fetch(nameOrId).Response? && fetch(nameOrId).ok && fetch(nameOrId).body.Some?)
    ensures r.Ok? ==> r.value == Normalise(fetch(nameOrId).body.value)
    ensures r.Err? ==> r.error == PokemonFailed(nameOrId)
  {
    match fetch(nameOrId)
    case NetworkFailure => Err(PokemonFailed(nameOrId))
    case Response(ok, body) =>
      if ok && body.Some? then Ok(Normalise(body.value)) else Err(PokemonFailed(nameOrId))
  }

  /** `getPokemonBatch`: one `getPokemon` per name, all of which must succeed. */
  function GetPokemonBatch(names: seq<string>, fetch: string -> HttpOutcome<RawPokemon>)
    : (r: Result<seq<Pokemon>, FetchError>)
  {
    if names == [] then Ok([])
    else
      match GetPokemon(names[0], fetch)
      case Err(e) => Err(e)
      case Ok(p) =>
        match GetPokemonBatch(names[1..], fetch)
        case Err(e) => Err(e)
        case Ok(ps) => Ok([p] + ps)
  }

  /** The batch succeeds exactly when every name's fetch does, and then holds exactly
      one Pokemon per name, in the order of the names; a failed batch reports the
      error of one of the names that failed. */
  lemma {:induction false} GetPokemonBatchFacts(names: seq<string>, fetch: string -> HttpOutcome<RawPokemon>)
    ensures var r := GetPokemonBatch(names, fetch);
      && (r.Ok? <==> forall i :: 0 <= i < |names| ==> GetPokemon(names[i], fetch).Ok?)
      && (r.Ok? ==> |r.value| == |names|)
      && (r.Ok? ==> forall i :: 0 <= i < |names| ==> Ok(r.value[i]) == GetPokemon(names[i], fetch))
      && (r.Err? ==> exists i :: 0 <= i < |names| && GetPokemon(names[i], fetch) == Err(r.error))
  {
    if names != [] {
      GetPokemonBatchFacts(names[1..], fetch);
      assert forall i :: 1 <= i < |names| ==> names[1..][i - 1] == names[i];
    }
  }

  // ---------------------------------------------------------------------------
  // Normalisation
  // ---------------------------------------------------------------------------

  /** `toUpperCase` on one character, for the ASCII letters the catalog's names use. */
  function ToUpperChar(c: char): (u: char)
  {
    if 'a' <= c <= 'z' then (c as int - 'a' as int + 'A' as int) as char else c
  }

  predicate IsLower(c: char) { 'a' <= c <= 'z' }

  predicate IsUpper(c: char) { 'A' <= c <= 'Z' }

  /** The whole string upper-cased, character by character. */
  function UpperCase(s: string): (r: string)
  {
    seq(|s|, i requires 0 <= i < |s| => ToUpperChar(s[i]))
  }

  /** The display name: the first character upper-cased, the rest as sent; the empty
      name stays empty. */
  function Capitalize(s: string): (r: string)
  {
    if s == [] then [] else [ToUpperChar(s[0])] + s[1..]
  }

  /** `TYPE_COLORS`, keyed by the raw lower-case type name. */
  const TypeColors: map<string, string> := map[
    "normal" := "#A8A878",
    "fire" := "#F08030",
    "water" := "#6890F0",
    "electric" := "#F8D030",
    "grass" := "#78C850",
    "ice" := "#98D8D8",
    "fighting" := "#C03028",
    "poison" := "#A040A0",
    "ground" := "#E0C068",
    "flying" := "#A890F0",
    "psychic" := "#F85888",
    "bug" := "#A8B820",
    "rock" := "#B8A038",
    "ghost" := "#705898",
    "dragon" := "#7038F8",
    "dark" := "#705848",
    "steel" := "#B8B8D0",
    "fairy" := "#EE99AC"
  ]

  const DefaultTypeColor: string := "#777777"

  /** The badge colour of a raw type name: its table entry, or the grey fallback when
      the entry is missing or empty. Every table value is non-empty, so the fallback
      applies exactly to names outside the table. */
  function TypeColor(rawName: string): (c: string)
  {
    if rawName in TypeColors && TypeColors[rawName] != "" then TypeColors[rawName] else DefaultTypeColor
  }

  function NormaliseType(slot: RawTypeSlot): (t: PokemonType)
  {
    PokemonType(UpperCase(slot.typeName), TypeColor(slot.typeName))
  }

  /** Each raw type slot normalised, in the order the catalog sends them. */
  function NormaliseTypes(slots: seq<RawTypeSlot>): (r: seq<PokemonType>)
  {
    if slots == [] then [] else [NormaliseType(slots[0])] + NormaliseTypes(slots[1..])
  }

  /** The base value of the first raw stat named `name`, or 0 when none is. A found stat whose
      `base_stat` is 0 also yields 0, so the `||` adds no case of its own. */
  function StatOf(stats: seq<RawStat>, name: string): (v: int)
  {
    if stats == [] then 0
    else if stats[0].statName == name then stats[0].baseStat
    else StatOf(stats[1..], name)
  }

  function StatsOf(stats: seq<RawStat>): (s: Stats)
  {
    Stats(
      StatOf(stats, "hp"),
      StatOf(stats, "attack"),
      StatOf(stats, "defense"),
      StatOf(stats, "special-attack"),
      StatOf(stats, "special-defense"),
      StatOf(stats, "speed"))
  }

  /** The image shown: the official artwork unless it
      is null or empty, else the front sprite, whatever that is. */
  function ChooseImage(s: RawSprites): (image: Option<string>)
    ensures image == s.officialArtwork || image == s.frontDefault
    ensures image == s.officialArtwork <== (s.officialArtwork.Some? && s.officialArtwork.value != "")
    ensures image == s.frontDefault <== !(s.officialArtwork.Some? && s.officialArtwork.value != "")
  {
    match s.officialArtwork
    case Some(url) => if url != "" then Some(url) else s.frontDefault
    case None => s.frontDefault
  }

  /** The object literal `getPokemon` returns for a readable response. */
  function Normalise(raw: RawPokemon): (p: Pokemon)
  {
    Pokemon(raw.id, Capitalize(raw.name), ChooseImage(raw.sprites), NormaliseTypes(raw.types), StatsOf(raw.stats))
  }

  // ---------------------------------------------------------------------------
  // Properties of the normalisation
  // ---------------------------------------------------------------------------

  lemma ToUpperCharFacts(c: char)
    ensures IsLower(c) ==> IsUpper(ToUpperChar(c))
    ensures !IsLower(c) ==> ToUpperChar(c) == c
    ensures ToUpperChar(ToUpperChar(c)) == ToUpperChar(c)
  {
  }

  /** Upper-casing keeps the length, maps every character, and is idempotent. */
  lemma UpperCaseFacts(s: string)
    ensures |UpperCase(s)| == |s|
    ensures forall i :: 0 <= i < |s| ==> UpperCase(s)[i] == ToUpperChar(s[i])
    ensures forall i :: 0 <= i < |s| ==> !IsLower(UpperCase(s)[i])
    ensures UpperCase(UpperCase(s)) == UpperCase(s)
  {
    forall i | 0 <= i < |s| ensures UpperCase(UpperCase(s))[i] == UpperCase(s)[i] {
      ToUpperCharFacts(s[i]);
    }
  }

  /** The capitalised name has the same length, an upper-cased first character and
      the rest unchanged; the empty name stays empty; capitalising twice is once. */
  lemma CapitalizeFacts(s: string)
    ensures |Capitalize(s)| == |s|
    ensures s == [] ==> Capitalize(s) == []
    ensures s != [] ==> Capitalize(s)[0] == ToUpperChar(s[0]) && Capitalize(s)[1..] == s[1..]
    ensures s != [] && IsLower(s[0]) ==> IsUpper(Capitalize(s)[0])
    ensures Capitalize(Capitalize(s)) == Capitalize(s)
  {
    if s != [] {
      ToUpperCharFacts(s[0]);
      assert Capitalize(s)[1..] == s[1..];
    }
  }

  /** Every colour in the table differs from the default, so a known type is never
      shown in the fallback colour and the `||` of the source never fires for it. */
  lemma TypeColorFacts(rawName: string)
    ensures rawName in TypeColors ==> TypeColor(rawName) == TypeColors[rawName] != DefaultTypeColor
    ensures rawName !in TypeColors ==> TypeColor(rawName) == DefaultTypeColor
  {
  }

  /** The normalised types keep the raw order and length: entry `i` is the
      upper-cased raw name `i` with its table colour. */
  lemma {:induction false} NormaliseTypesFacts(slots: seq<RawTypeSlot>)
    ensures |NormaliseTypes(slots)| == |slots|
    ensures forall i :: 0 <= i < |slots| ==>
      NormaliseTypes(slots)[i] == PokemonType(UpperCase(slots[i].typeName), TypeColor(slots[i].typeName))
  {
    if slots != [] {
      NormaliseTypesFacts(slots[1..]);
      assert forall i :: 1 <= i < |slots| ==> NormaliseTypes(slots)[i] == NormaliseTypes(slots[1..])[i - 1];
    }
  }

  /** `v` is what the source reads for stat `name`: the `base_stat` of the first raw
      stat carrying that name, or 0 when no raw stat carries it. */
  predicate FirstStatIs(stats: seq<RawStat>, name: string, v: int)
  {
    && ((forall i :: 0 <= i < |stats| ==> stats[i].statName != name) ==> v == 0)
    && (forall i :: (0 <= i < |stats| && stats[i].statName == name
                     && (forall j :: 0 <= j < i ==> stats[j].statName != name)) ==>
                    v == stats[i].baseStat)
  }

  /** The lookup yields the first raw stat of that name, or 0 if none has it. */
  lemma {:induction false} StatOfFirstMatch(stats: seq<RawStat>, name: string)
    ensures FirstStatIs(stats, name, StatOf(stats, name))
  {
    if stats != [] && stats[0].statName != name {
      StatOfFirstMatch(stats[1..], name);
      assert forall i :: 1 <= i < |stats| ==> stats[1..][i - 1] == stats[i];
    }
  }

  /** `find` takes the first stat of a name: later duplicates are ignored. */
  lemma {:induction false} StatOfFirstWins(front: seq<RawStat>, back: seq<RawStat>, name: string)
    requires exists i :: 0 <= i < |front| && front[i].statName == name
    ensures StatOf(front + back, name) == StatOf(front, name)
  {
    assert (front + back)[0] == front[0];
    if front[0].statName != name {
      assert (front + back)[1..] == front[1..] + back;
      var i :| 0 <= i < |front| && front[i].statName == name;
      assert front[1..][i - 1].statName == name;
      StatOfFirstWins(front[1..], back, name);
    }
  }

  /** Each of the six stats is looked up under its own raw name. */
  lemma StatsOfFacts(stats: seq<RawStat>)
    ensures FirstStatIs(stats, "hp", StatsOf(stats).hp)
    ensures FirstStatIs(stats, "attack", StatsOf(stats).attack)
    ensures FirstStatIs(stats, "defense", StatsOf(stats).defense)
    ensures FirstStatIs(stats, "special-attack", StatsOf(stats).specialAttack)
    ensures FirstStatIs(stats, "special-defense", StatsOf(stats).specialDefense)
    ensures FirstStatIs(stats, "speed", StatsOf(stats).speed)
  {
    StatOfFirstMatch(stats, "hp");
    StatOfFirstMatch(stats, "attack");
    StatOfFirstMatch(stats, "defense");
    StatOfFirstMatch(stats, "special-attack");
    StatOfFirstMatch(stats, "special-defense");
    StatOfFirstMatch(stats, "speed");
  }

  /** The entity `getPokemon` builds, field by field: the id as sent, the capitalised
      name, the artwork-or-sprite image, the types in order with their colours, and
      each of the six stats looked up under its own raw name. */
  lemma NormaliseFacts(raw: RawPokemon)
    ensures Normalise(raw).id == raw.id
    ensures |Normalise(raw).name| == |raw.name|
    ensures raw.name != [] ==> Normalise(raw).name == [ToUpperChar(raw.name[0])] + raw.name[1..]
    ensures raw.sprites.officialArtwork.Some? && raw.sprites.officialArtwork.value != "" ==>
      Normalise(raw).image == raw.sprites.officialArtwork
    ensures !(raw.sprites.officialArtwork.Some? && raw.sprites.officialArtwork.value != "") ==>
      Normalise(raw).image == raw.sprites.frontDefault
    ensures |Normalise(raw).types| == |raw.types|
    ensures forall i :: 0 <= i < |raw.types| ==>
      Normalise(raw).types[i].name == UpperCase(raw.types[i].typeName) &&
      Normalise(raw).types[i].color == TypeColor(raw.types[i].typeName)
    ensures FirstStatIs(raw.stats, "hp", Normalise(raw).stats.hp)
    ensures FirstStatIs(raw.stats, "attack", Normalise(raw).stats.attack)
    ensures FirstStatIs(raw.stats, "defense", Normalise(raw).stats.defense)
    ensures FirstStatIs(raw.stats, "special-attack", Normalise(raw).stats.specialAttack)
    ensures FirstStatIs(raw.stats, "special-defense", Normalise(raw).stats.specialDefense)
    ensures FirstStatIs(raw.stats, "speed", Normalise(raw).stats.speed)
  {
    var p := Normalise(raw);
    assert |p.name| == |raw.name| && (raw.name != [] ==> p.name == [ToUpperChar(raw.name[0])] + raw.name[1..]) by {
      CapitalizeFacts(raw.name);
    }
    assert |p.types| == |raw.types| && forall i :: 0 <= i < |raw.types| ==>
      p.types[i] == PokemonType(UpperCase(raw.types[i].typeName), TypeColor(raw.types[i].typeName)) by {
      NormaliseTypesFacts(raw.types);
    }
    assert p.stats == StatsOf(raw.stats);
    StatsOfFacts(raw.stats);
  }
}
