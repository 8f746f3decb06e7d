/**
 * The data-shaping part of src/services/pokemonApi.ts. Every `fetch` is a parameter: a
 * function from URL to the response that URL produces, so each operation is the pure
 * projection the source performs on what comes back.
 */
module PokemonApi {
  import opened Wrappers
  import opened Text
  import opened Catalog

  const BaseUrl: string := "https://pokeapi.co/api/v2"

  /** The size of the bulk listing the source asks for. */
  const BulkLimit: nat := 1302

  /** One `{name, url}` entry of a listing. */
  datatype NamedResource = NamedResource(name: string, url: string)

  /** `PokemonListResponse`. */
  datatype ListResponse = ListResponse(count: int, next: Option<string>, previous: Option<string>, results: seq<NamedResource>)

  datatype TypeSlot = TypeSlot(typeName: string)
  datatype StatSlot = StatSlot(baseStat: int, statName: string)
  datatype AbilitySlot = AbilitySlot(abilityName: string, isHidden: bool)

  /** The detail record (`Pokemon` in the service), without the sprite URLs no page reads. */
  datatype PokemonData = PokemonData(
    id: int, name: string, height: int, weight: int,
    types: seq<TypeSlot>, stats: seq<StatSlot>, abilities: seq<AbilitySlot>)

  /** `PokemonBasicInfo`. */
  datatype BasicInfo = BasicInfo(id: int, name: string)

  /**
   * What awaiting `fetch(url)` and then `response.json()` yields: either the fetch rejects,
   * or there is a response with its `ok` flag and its body (`None` when `json()` rejects).
   */
  datatype Response<T> = NetworkFailure | Response(ok: bool, body: Option<T>)

  /**
   * Why a call rejects. The first four are the errors the service throws itself; the last two
   * are a rejected `fetch` and a body `json()` cannot decode.
   */
  datatype ApiError = NotFound(idOrName: string) | ListFailed | BasicListFailed | AllFailed | NetworkError | MalformedBody

  // ---------------------------------------------------------------------------
  // URLs
  // ---------------------------------------------------------------------------

  function PokemonUrl(idOrName: string): string {
    BaseUrl + "/pokemon/" + idOrName
  }

  /** The listing URL `getPokemonList(limit, offset)` requests. */
  function ListUrl(limit: int := 20, offset: int := 0): string {
    BaseUrl + "/pokemon?limit=" + IntToString(limit) + "&offset=" + IntToString(offset)
  }

  /** The bulk listing URL of `getAllPokemonBasic` and `getAllPokemon`. */
  function BulkUrl(): string {
    BaseUrl + "/pokemon?limit=" + IntToString(BulkLimit)
  }

  /** With the defaults, the listing asks for the first twenty entries. */
  lemma DefaultListUrl()
    ensures ListUrl() == "https://pokeapi.co/api/v2/pokemon?limit=20&offset=0"
  {
    SomeNumerals();
    assert ListUrl() == BaseUrl + "/pokemon?limit=" + "20" + "&offset=" + "0";
  }

  /** The bulk listing asks for every entry at once. */
  lemma BulkListUrl()
    ensures BulkUrl() == "https://pokeapi.co/api/v2/pokemon?limit=1302"
  {
    SomeNumerals();
    assert BulkUrl() == BaseUrl + "/pokemon?limit=" + "1302";
  }

  // ---------------------------------------------------------------------------
  // Response checks
  // ---------------------------------------------------------------------------

  /** The check of every top-level call: a rejected fetch, a non-ok status and an undecodable body all reject. */
  function Checked<T>(r: Response<T>, notOk: ApiError): (res: Result<T, ApiError>)
    ensures res.Ok? <==> r.Response? && r.ok && r.body.Some?
    ensures res.Ok? ==> res.value == r.body.value
    ensures r.Response? && !r.ok ==> res == Err(notOk)
  {
    match r
    case NetworkFailure => Err(NetworkError)
    case Response(ok, body) =>
      if !ok then Err(notOk)
      else match body
        case None => Err(MalformedBody)
        case Some(v) => Ok(v)
  }

  /** A per-entry detail reply the list calls can use: it arrived and decoded; its status is not looked at. */
  predicate Readable(r: Response<PokemonData>) {
    r.Response? && r.body.Some?
  }

  // ---------------------------------------------------------------------------
  // Projections
  // ---------------------------------------------------------------------------

  function TypeNames(ts: seq<TypeSlot>): seq<string> {
    seq(|ts|, i requires 0 <= i < |ts| => ts[i].typeName)
  }

  /** The list item built from one detail record. */
  function ItemOf(d: PokemonData): Pokemon {
    Pokemon(d.id, d.name, SpriteUrl(d.id), TypeNames(d.types))
  }

  /**
   * The per-entry fetches of a listing, combined as `Promise.all` combines them: one item
   * per entry in listing order, or a rejection when any entry's reply cannot be read.
   */
  function ReadDetails(results: seq<NamedResource>, fetchDetail: string -> Response<PokemonData>)
    : (r: Result<seq<Pokemon>, ApiError>)
    ensures r.Ok? <==> forall k :: 0 <= k < |results| ==> Readable(fetchDetail(results[k].url))
    ensures r.Ok? ==> |r.value| == |results|
    ensures r.Ok? ==> forall k :: 0 <= k < |results| ==>
                        r.value[k] == ItemOf(fetchDetail(results[k].url).body.value)
    decreases |results|
  {
    if results == [] then Ok([])
    else
      var first := fetchDetail(results[0].url);
      var later := ReadDetails(results[1..], fetchDetail);
      assert forall k :: 0 < k < |results| ==> results[k] == results[1..][k - 1];
      if first.NetworkFailure? then Err(NetworkError)
      else if first.body.None? then Err(MalformedBody)
      else if later.Err? then later
      else
        var r := Ok([ItemOf(first.body.value)] + later.value);
        assert forall k :: 0 < k < |results| ==> r.value[k] == later.value[k - 1];
        r
  }

  /** `getPokemonById(idOrName)`. */
  function GetPokemonById(idOrName: string, fetch: string -> Response<PokemonData>): (r: Result<PokemonData, ApiError>)
    ensures r.Ok? <==> var reply := fetch(PokemonUrl(idOrName)); reply.Response? && reply.ok && reply.body.Some?
    ensures fetch(PokemonUrl(idOrName)).NetworkFailure? ==> r == Err(NetworkError)
    ensures fetch(PokemonUrl(idOrName)).Response? && !fetch(PokemonUrl(idOrName)).ok ==> r == Err(NotFound(idOrName))
    ensures r.Ok? ==> fetch(PokemonUrl(idOrName)) == Response(true, Some(r.value))
  {
    Checked(fetch(PokemonUrl(idOrName)), NotFound(idOrName))
  }

  /** `getPokemonList(limit, offset)`. */
  function GetPokemonList(fetchList: string -> Response<ListResponse>, fetchDetail: string -> Response<PokemonData>,
                          limit: int := 20, offset: int := 0): (r: Result<seq<Pokemon>, ApiError>)
    ensures fetchList(ListUrl(limit, offset)).Response? && !fetchList(ListUrl(limit, offset)).ok ==> r == Err(ListFailed)
    ensures r.Ok? <==> var listing := fetchList(ListUrl(limit, offset));
      && listing.Response? && listing.ok && listing.body.Some?
      && forall k :: 0 <= k < |listing.body.value.results| ==> Readable(fetchDetail(listing.body.value.results[k].url))
    ensures r.Ok? ==> var listing := fetchList(ListUrl(limit, offset));
      && listing.Response? && listing.ok && listing.body.Some?
      && |r.value| == |listing.body.value.results|
      && forall k :: 0 <= k < |r.value| ==>
           && Readable(fetchDetail(listing.body.value.results[k].url))
           && r.value[k] == ItemOf(fetchDetail(listing.body.value.results[k].url).body.value)
  {
    match Checked(fetchList(ListUrl(limit, offset)), ListFailed)
    case Err(e) => Err(e)
    case Ok(data) => ReadDetails(data.results, fetchDetail)
  }

  /** The basic index: entry `i` of the listing becomes `{id: i + 1, name}`. */
  function Numbered(results: seq<NamedResource>): seq<BasicInfo> {
    seq(|results|, i requires 0 <= i < |results| => BasicInfo(i + 1, results[i].name))
  }

  /** `getAllPokemonBasic()`. */
  function GetAllPokemonBasic(fetchList: string -> Response<ListResponse>): (r: Result<seq<BasicInfo>, ApiError>)
    ensures fetchList(BulkUrl()).Response? && !fetchList(BulkUrl()).ok ==> r == Err(BasicListFailed)
    ensures r.Ok? <==> Checked(fetchList(BulkUrl()), BasicListFailed).Ok?
  {
    match Checked(fetchList(BulkUrl()), BasicListFailed)
    case Err(e) => Err(e)
    case Ok(data) => Ok(Numbered(data.results))
  }

  /** `getAllPokemon()`, kept by the service for compatibility: the bulk listing resolved entry by entry. */
  function GetAllPokemon(fetchList: string -> Response<ListResponse>, fetchDetail: string -> Response<PokemonData>)
    : (r: Result<seq<Pokemon>, ApiError>)
    ensures fetchList(BulkUrl()).Response? && !fetchList(BulkUrl()).ok ==> r == Err(AllFailed)
    ensures r.Ok? <==> var listing := fetchList(BulkUrl());
      && listing.Response? && listing.ok && listing.body.Some?
      && forall k :: 0 <= k < |listing.body.value.results| ==> Readable(fetchDetail(listing.body.value.results[k].url))
    ensures r.Ok? ==> var listing := fetchList(BulkUrl());
      && listing.Response? && listing.ok && listing.body.Some?
      && |r.value| == |listing.body.value.results|
      && forall k :: 0 <= k < |r.value| ==>
           && Readable(fetchDetail(listing.body.value.results[k].url))
           && r.value[k] == ItemOf(fetchDetail(listing.body.value.results[k].url).body.value)
  {
    match Checked(fetchList(BulkUrl()), AllFailed)
    case Err(e) => Err(e)
    case Ok(data) => ReadDetails(data.results, fetchDetail)
  }

  // ---------------------------------------------------------------------------
  // Properties
  // ---------------------------------------------------------------------------

  /**
   * The basic index has one entry per listing result, in the same order, and its ids run
   * 1, 2, 3, ...: the entry with id `n` is the `n`-th result, so ids are distinct.
   */
  lemma BasicIndexShape(fetchList: string -> Response<ListResponse>)
    requires GetAllPokemonBasic(fetchList).Ok?
    ensures var listing := fetchList(BulkUrl()).body.value.results;
      var index := GetAllPokemonBasic(fetchList).value;
      && |index| == |listing|
      && (forall i :: 0 <= i < |index| ==> index[i].name == listing[i].name && index[i].id == i + 1)
      && (forall i, j :: 0 <= i < j < |index| ==> index[i].id < index[j].id)
  {
  }

  /** Each item of a list call keeps the detail's id and name, and its image is the sprite for that id. */
  lemma ItemShape(d: PokemonData)
    ensures ItemOf(d).id == d.id && ItemOf(d).name == d.name
    ensures |ItemOf(d).types| == |d.types|
    ensures forall k :: 0 <= k < |d.types| ==> ItemOf(d).types[k] == d.types[k].typeName
    ensures ItemOf(d).image == SpriteUrl(d.id)
  {
  }

  /**
   * The per-entry detail fetches never consult `ok`: two fetchers whose replies agree on
   * arrival and body give the same page, whatever their status flags say.
   */
  lemma {:induction false} DetailStatusIgnored(results: seq<NamedResource>,
                                               f: string -> Response<PokemonData>, g: string -> Response<PokemonData>)
    requires forall k :: 0 <= k < |results| ==>
      && (f(results[k].url).Response? <==> g(results[k].url).Response?)
      && (f(results[k].url).Response? ==> f(results[k].url).body == g(results[k].url).body)
    ensures ReadDetails(results, f) == ReadDetails(results, g)
    decreases |results|
  {
    if results != [] {
      assert forall k :: 0 < k < |results| ==> results[k] == results[1..][k - 1];
      DetailStatusIgnored(results[1..], f, g);
    }
  }

  /** In particular a 404 detail reply with a decodable body still becomes a list item. */
  lemma NotFoundDetailStillListed(r: NamedResource, d: PokemonData, f: string -> Response<PokemonData>)
    requires f(r.url) == Response(false, Some(d))
    ensures ReadDetails([r], f) == Ok([ItemOf(d)])
  {
    assert Readable(f(r.url));
    var res := ReadDetails([r], f);
    assert res.Ok? && |res.value| == 1 && res.value[0] == ItemOf(d);
    assert res.value == [ItemOf(d)];
  }
}
