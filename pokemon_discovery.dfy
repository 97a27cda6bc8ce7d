/** The paging logic of `app/components/PokemonDiscovery.tsx`: the page function given
    to `useInfiniteQuery`, its next-page rule and retry policy, the infinite-query state
    those drive, the effect that asks for the next page, and the flattened list the
    grid shows. The query library itself is not part of this model; its state is
    reduced to the transitions the component relies on. */
module PokemonDiscovery {
  import opened Wrappers
  import opened PokemonTypes
  import opened PokemonApi

  /** Every page asks the list endpoint for 6 names. */
  const PageSize: nat := 6
  /** `initialPageParam`. */
  const InitialPageParam: nat := 0
  /** `retry: 2`: two more attempts after the first. */
  const MaxRetries: nat := 2
  const BaseRetryDelay: nat := 1000
  const MaxRetryDelay: nat := 30000
  /** The one error every failed page reports. */
  const PageErrorMessage: string := "Failed to fetch Pokémon data. Please try again later."

  /** What the page function resolves to: the page's Pokemon and the offset of the
      next page, or none when the catalog says there is no next page. */
  datatype Page = Page(pokemon: seq<Pokemon>, nextOffset: Option<nat>)

  /** The catalog as one attempt finds it: the answer to each list request and to
      each detail request. */
  datatype Network = Network(
    list: ListRequest -> HttpOutcome<ListResponse>,
    detail: string -> HttpOutcome<RawPokemon>)

  predicate Truthy(next: Option<string>)
  {
    next.Some? && next.value != ""
  }

  // ---------------------------------------------------------------------------
  // The page function and the next-page rule
  // ---------------------------------------------------------------------------

  /** `queryFn({ pageParam })`: list 6 names at the cursor, fetch all their details,
      and resolve to the page with `pageParam + 6` as the next offset when the list
      response has a `next` link. Any failure on the way is the one page error. */
  function QueryFn(pageParam: nat, net: Network): (r: Result<Page, string>)
    ensures r.Err? ==> r.error == PageErrorMessage
    ensures r.Ok? ==> r.value.nextOffset == None || r.value.nextOffset == Some(pageParam + PageSize)
  {
    match GetPokemonList(pageParam, PageSize, net.list)
    case Err(_) => Err(PageErrorMessage)
    case Ok(response) =>
      match GetPokemonBatch(response.results, net.detail)
      case Err(_) => Err(PageErrorMessage)
      case Ok(pokemon) =>
        Ok(Page(pokemon, if Truthy(response.next) then Some(pageParam + PageSize) else None))
  }

  /** The next page to load is the one the last loaded page points to, if any. */
  function GetNextPageParam(lastPage: Page): (next: Option<nat>)
  {
    lastPage.nextOffset
  }

  /** A page holds the details of the listed names, one per name and in their order,
      and has a next offset exactly when the list response has a `next` link. */
  lemma QueryFnSuccess(pageParam: nat, net: Network)
    requires QueryFn(pageParam, net).Ok?
    ensures GetPokemonList(pageParam, PageSize, net.list).Ok?
    ensures var response := GetPokemonList(pageParam, PageSize, net.list).value;
      var page := QueryFn(pageParam, net).value;
      && |page.pokemon| == |response.results|
      && (forall i :: 0 <= i < |response.results| ==>
            Ok(page.pokemon[i]) == GetPokemon(response.results[i], net.detail))
      && (Truthy(response.next) ==> GetNextPageParam(page) == Some(pageParam + PageSize))
      && (!Truthy(response.next) ==> GetNextPageParam(page) == None)
  {
    GetPokemonBatchFacts(GetPokemonList(pageParam, PageSize, net.list).value.results, net.detail);
  }

  /** The page function fails exactly when the list request fails or some detail
      request of the listed names fails; no page is produced from part of a batch,
      and every failure is the one page error. */
  lemma QueryFnFailure(pageParam: nat, net: Network)
    ensures QueryFn(pageParam, net).Err? <==>
      (var list := GetPokemonList(pageParam, PageSize, net.list);
       list.Err? ||
       exists i :: 0 <= i < |list.value.results| && GetPokemon(list.value.results[i], net.detail).Err?)
    ensures QueryFn(pageParam, net).Err? ==> QueryFn(pageParam, net) == Err(PageErrorMessage)
  {
    var list := GetPokemonList(pageParam, PageSize, net.list);
    if list.Ok? {
      GetPokemonBatchFacts(list.value.results, net.detail);
    }
  }

  /** A first page listing bulbasaur and ivysaur, with catalog ids 1 and 2, shows
      Bulbasaur and Ivysaur in that order and points to offset 6. */
  lemma FirstPageExample(net: Network, bulbasaur: RawPokemon, ivysaur: RawPokemon)
    requires net.list(ListRequest(0, PageSize)) ==
      Response(true, Some(ListResponse(["bulbasaur", "ivysaur"], Some("https://pokeapi.co/api/v2/pokemon?offset=6&limit=6"))))
    requires bulbasaur.id == 1 && bulbasaur.name == "bulbasaur"
    requires ivysaur.id == 2 && ivysaur.name == "ivysaur"
    requires net.detail("bulbasaur") == Response(true, Some(bulbasaur))
    requires net.detail("ivysaur") == Response(true, Some(ivysaur))
    ensures QueryFn(0, net).Ok?
    ensures var page := QueryFn(0, net).value;
      && |page.pokemon| == 2
      && page.pokemon[0].id == 1 && page.pokemon[0].name == "Bulbasaur"
      && page.pokemon[1].id == 2 && page.pokemon[1].name == "Ivysaur"
      && page.nextOffset == Some(6)
  {
  }

  // ---------------------------------------------------------------------------
  // Retry policy
  // ---------------------------------------------------------------------------

  function Pow2(k: nat): (p: nat)
    ensures p >= 1
  {
    if k == 0 then 1 else 2 * Pow2(k - 1)
  }

  /** The wait after failed attempt `attemptIndex` (counted from 0): one second doubled
      for each earlier failure, capped at 30 seconds. */
  function RetryDelay(attemptIndex: nat): (d: nat)
  {
    var raw := BaseRetryDelay * Pow2(attemptIndex);
    if raw < MaxRetryDelay then raw else MaxRetryDelay
  }

  lemma {:induction false} Pow2Monotone(j: nat, k: nat)
    requires j <= k
    ensures Pow2(j) <= Pow2(k)
  {
    if j < k {
      Pow2Monotone(j, k - 1);
    }
  }

  /** The delays start at 1000 and 2000, never exceed 30000 and never decrease. */
  lemma RetryDelayFacts(j: nat, k: nat)
    requires j <= k
    ensures RetryDelay(0) == 1000 && RetryDelay(1) == 2000
    ensures RetryDelay(k) <= MaxRetryDelay
    ensures RetryDelay(j) <= RetryDelay(k)
  {
    Pow2Monotone(j, k);
  }

  /** Below the cap each delay doubles, so the delays strictly increase until the
      cap, which attempt 5 reaches. */
  lemma {:induction false} RetryDelayGrowth(k: nat)
    ensures k < 4 ==> RetryDelay(k + 1) == 2 * RetryDelay(k)
    ensures k < 5 ==> RetryDelay(k) < RetryDelay(k + 1)
    ensures k >= 5 ==> RetryDelay(k) == MaxRetryDelay
  {
    assert Pow2(k + 1) == 2 * Pow2(k);
    if k >= 5 {
      Pow2Monotone(5, k);
      assert Pow2(5) == 32;
    } else if k == 4 {
      assert Pow2(4) == 16;
    } else {
      assert Pow2(3) == 8;
      Pow2Monotone(k, 3);
    }
  }

  /** How one page fetch settles: its final result, how many attempts it made, and the
      delays waited between them. */
  datatype Settled = Settled(result: Result<Page, string>, attempts: nat, delays: seq<nat>)

  /** Attempt `k` of a page fetch at `pageParam`, `net(k)` being the catalog as that
      attempt finds it: a failure with retries left waits `RetryDelay(k)` and tries
      the whole page again. */
  function RetryFrom(pageParam: nat, net: nat -> Network, k: nat): (s: Settled)
    requires k <= MaxRetries
    decreases MaxRetries - k
    ensures k < s.attempts <= MaxRetries + 1
    ensures |s.delays| == s.attempts - 1 - k
    ensures forall j :: 0 <= j < |s.delays| ==> s.delays[j] == RetryDelay(k + j)
    ensures forall j :: k <= j < s.attempts - 1 ==> QueryFn(pageParam, net(j)).Err?
    ensures s.result == QueryFn(pageParam, net(s.attempts - 1))
    ensures s.result.Err? <==> forall j :: k <= j <= MaxRetries ==> QueryFn(pageParam, net(j)).Err?
  {
    var r := QueryFn(pageParam, net(k));
    if r.Ok? || k == MaxRetries then Settled(r, k + 1, [])
    else
      var rest := RetryFrom(pageParam, net, k + 1);
      Settled(rest.result, rest.attempts, [RetryDelay(k)] + rest.delays)
  }

  /** One page fetch at `pageParam` with its retries, `net(k)` being the catalog as
      attempt `k` finds it: at most 3 attempts, each the whole page, the delays between
      them given by `RetryDelay`. It succeeds with the first attempt that succeeds and
      fails, with the one page error, only when all 3 attempts have failed. */
  function FetchPage(pageParam: nat, net: nat -> Network): (s: Settled)
    ensures 1 <= s.attempts <= MaxRetries + 1
    ensures |s.delays| == s.attempts - 1
    ensures forall j :: 0 <= j < |s.delays| ==> s.delays[j] == RetryDelay(j)
    ensures s.result == QueryFn(pageParam, net(s.attempts - 1))
    ensures forall j :: 0 <= j < s.attempts - 1 ==> QueryFn(pageParam, net(j)).Err?
    ensures s.result.Err? <==> forall j :: 0 <= j <= MaxRetries ==> QueryFn(pageParam, net(j)).Err?
    ensures s.result.Err? ==> s.attempts == MaxRetries + 1 && s.result == Err(PageErrorMessage)
    ensures s.result.Ok? ==>
      s.result.value.nextOffset == None || s.result.value.nextOffset == Some(pageParam + PageSize)
  {
    RetryFrom(pageParam, net, 0)
  }

  /** A page that fails twice and then succeeds is one successful page after exactly
      3 attempts, with delays of 1000 and then 2000 between them. */
  lemma TwoFailuresThenSuccess(pageParam: nat, net: nat -> Network)
    requires QueryFn(pageParam, net(0)).Err? && QueryFn(pageParam, net(1)).Err?
    requires QueryFn(pageParam, net(2)).Ok?
    ensures FetchPage(pageParam, net) == Settled(QueryFn(pageParam, net(2)), 3, [1000, 2000])
  {
    var s := FetchPage(pageParam, net);
    assert s.attempts == 3;
    RetryDelayFacts(0, 1);
  }

  // ---------------------------------------------------------------------------
  // The loaded pages and their flattened view
  // ---------------------------------------------------------------------------

  /** The grid's list: the Pokemon of every loaded page, page after page. */
  function Flatten(pages: seq<Page>): (all: seq<Pokemon>)
  {
    if pages == [] then [] else pages[0].pokemon + Flatten(pages[1..])
  }

  function TotalSize(pages: seq<Page>): (n: nat)
  {
    if pages == [] then 0 else |pages[0].pokemon| + TotalSize(pages[1..])
  }

  /** Committing a page extends the flattened view by exactly that page's Pokemon. */
  lemma {:induction false} FlattenAppend(pages: seq<Page>, page: Page)
    ensures Flatten(pages + [page]) == Flatten(pages) + page.pokemon
  {
    if pages == [] {
      assert [] + [page] == [page];
    } else {
      assert (pages + [page])[0] == pages[0] && (pages + [page])[1..] == pages[1..] + [page];
      FlattenAppend(pages[1..], page);
    }
  }

  /** The flattened view holds as many Pokemon as all pages together. */
  lemma {:induction false} FlattenLength(pages: seq<Page>)
    ensures |Flatten(pages)| == TotalSize(pages)
  {
    if pages != [] {
      FlattenLength(pages[1..]);
    }
  }

  /** The pages loaded so far sit at offsets 0, 6, 12, …, each but the last pointing
      to the next, and the last pointing to the next unloaded offset or to none. */
  predicate PagesWellFormed(pages: seq<Page>, pageParams: seq<nat>)
  {
    && |pages| == |pageParams|
    && (forall i :: 0 <= i < |pageParams| ==> pageParams[i] == PageSize * i)
    && (forall i :: 0 <= i < |pages| - 1 ==> pages[i].nextOffset == Some(PageSize * (i + 1)))
    && (pages != [] ==> pages[|pages| - 1].nextOffset == None ||
                        pages[|pages| - 1].nextOffset == Some(PageSize * |pages|))
  }

  /** Offsets of loaded pages strictly increase, so no offset is loaded twice. */
  lemma PageParamsIncrease(pages: seq<Page>, pageParams: seq<nat>, i: nat, j: nat)
    requires PagesWellFormed(pages, pageParams)
    requires i < j < |pageParams|
    ensures pageParams[i] < pageParams[j]
  {
  }

  /** Committing the page fetched at the next offset keeps the pages well formed. */
  lemma CommitKeepsWellFormed(pages: seq<Page>, pageParams: seq<nat>, page: Page)
    requires PagesWellFormed(pages, pageParams)
    requires pages == [] || pages[|pages| - 1].nextOffset.Some?
    requires page.nextOffset == None || page.nextOffset == Some(PageSize * |pages| + PageSize)
    ensures PagesWellFormed(pages + [page], pageParams + [PageSize * |pages|])
  {
    var ps, qs := pages + [page], pageParams + [PageSize * |pages|];
    forall i | 0 <= i < |ps| - 1 ensures ps[i].nextOffset == Some(PageSize * (i + 1)) {
      assert ps[i] == pages[i];
    }
  }

  // ---------------------------------------------------------------------------
  // The infinite-query state
  // ---------------------------------------------------------------------------

  /** The state `useInfiniteQuery` keeps for `['pokemon-list']`: the committed pages
      and their offsets, the next-page cursor (`hasNextPage` is `cursor.Some?`), the
      offset of the fetch in flight, and the error of the last failed fetch. */
  class InfiniteQuery {
    var pages: seq<Page>
    var pageParams: seq<nat>
    var cursor: Option<nat>
    var pending: Option<nat>
    var error: Option<string>

    /** The cursor is the last page's next offset, and a fetch in flight always targets
        the first offset not yet loaded: the initial page, or the cursor. */
    ghost predicate Valid()
      reads this
    {
      && PagesWellFormed(pages, pageParams)
      && cursor == (if pages == [] then None else GetNextPageParam(pages[|pages| - 1]))
      && (pending.Some? ==> pending.value == PageSize * |pages| && (pages == [] || cursor.Some?))
    }

    function HasNextPage(): (b: bool)
      reads this
    {
      cursor.Some?
    }

    function IsFetchingNextPage(): (b: bool)
      reads this
    {
      pending.Some? && pages != []
    }

    function IsLoading(): (b: bool)
      reads this
    {
      pending.Some? && pages == []
    }

    /** `allPokemon`: empty until the first page arrives. */
    function AllPokemon(): (all: seq<Pokemon>)
      reads this
    {
      Flatten(pages)
    }

    /** The list request of the fetch in flight. */
    function PendingRequest(): (req: Option<ListRequest>)
      reads this
    {
      if pending.Some? then Some(ListRequest(pending.value, PageSize)) else None
    }

    /** Mounting the query starts the fetch of the first page at offset 0. */
    constructor()
      ensures Valid()
      ensures pages == [] && pageParams == [] && cursor == None && error == None
      ensures pending == Some(InitialPageParam)
      ensures PendingRequest() == Some(ListRequest(0, PageSize))
    {
      pages, pageParams, cursor, error := [], [], None, None;
      pending := Some(InitialPageParam);
    }

    /** The load-more effect: fetch the next page only when the sentinel is in
        view, a next page exists and no next-page fetch is running. Otherwise,
        including every trigger while a fetch runs, nothing changes. */
    method LoadMoreEffect(inView: bool) returns (started: bool)
      requires Valid()
      modifies this
      ensures Valid()
      ensures started == (inView && old(HasNextPage()) && !old(IsFetchingNextPage()))
      ensures started ==> pending == old(cursor) && PendingRequest() == Some(ListRequest(PageSize * |pages|, PageSize))
      ensures started ==> pages == old(pages) && pageParams == old(pageParams) && cursor == old(cursor)
                          && error == old(error)
      ensures !started ==> unchanged(this)
    {
      if inView && HasNextPage() && !IsFetchingNextPage() {
        pending := cursor;
        started := true;
      } else {
        started := false;
      }
    }

    /** The fetch in flight settles after its retries, `net(k)` being the catalog as
        attempt `k` finds it. A success commits the page at the end and moves the
        cursor to its next offset; a failure records the page error and leaves the
        pages and the cursor as they were, so a later fetch targets the same page. */
    method Settle(net: nat -> Network) returns (s: Settled)
      requires Valid() && pending.Some?
      modifies this
      ensures Valid() && pending == None
      ensures s == FetchPage(old(pending).value, net)
      ensures s.result.Ok? ==>
        && pages == old(pages) + [s.result.value]
        && pageParams == old(pageParams) + [old(pending).value]
        && cursor == s.result.value.nextOffset
        && error == None
      ensures s.result.Err? ==>
        && pages == old(pages) && pageParams == old(pageParams) && cursor == old(cursor)
        && error == Some(PageErrorMessage)
      ensures s.result.Ok? ==> AllPokemon() == old(AllPokemon()) + s.result.value.pokemon
      ensures s.result.Err? ==> AllPokemon() == old(AllPokemon())
    {
      s := FetchPage(pending.value, net);
      if s.result.Ok? {
        Commit(s.result.value);
      } else {
        Fail(s.result.error);
      }
    }

    /** A successful fetch of the pending offset: the page goes at the end. */
    method Commit(page: Page)
      requires Valid() && pending.Some?
      requires page.nextOffset == None || page.nextOffset == Some(pending.value + PageSize)
      modifies this
      ensures Valid() && pending == None
      ensures pages == old(pages) + [page] && pageParams == old(pageParams) + [old(pending).value]
      ensures cursor == page.nextOffset && error == None
      ensures AllPokemon() == old(AllPokemon()) + page.pokemon
    {
      CommitKeepsWellFormed(pages, pageParams, page);
      FlattenAppend(pages, page);
      pages := pages + [page];
      pageParams := pageParams + [pending.value];
      cursor := GetNextPageParam(page);
      error := None;
      pending := None;
    }

    /** A failed fetch: the error is kept and the in-flight fetch is over. */
    method Fail(message: string)
      requires Valid()
      modifies this`pending, this`error
      ensures Valid() && pending == None && error == Some(message)
    {
      error := Some(message);
      pending := None;
    }
  }

  /** Once a committed page has no next offset, no trigger starts another fetch. */
  method ExhaustedFeed(q: InfiniteQuery, inView: bool)
    requires q.Valid() && q.pages != [] && q.pending == None && q.cursor == None
    modifies q
  {
    var started := q.LoadMoreEffect(inView);
    assert !started && q.pending == None;
  }

  /** Any number of triggers while the next page is in flight leave one fetch. */
  method CoalescedTriggers(q: InfiniteQuery)
    requires q.Valid() && q.pages != [] && q.pending == None && q.cursor.Some?
    modifies q
  {
    var first := q.LoadMoreEffect(true);
    assert first && q.IsFetchingNextPage();
    var again := q.LoadMoreEffect(true);
    assert !again;
    again := q.LoadMoreEffect(true);
    assert !again && q.pending == Some(PageSize * |q.pages|);
  }
}
