/** `GameDirector` (Memeiverse/GameDirector.swift): the session controller that owns the load state
    and the three lists the views read. The two fetches that `refresh()` runs concurrently are
    run one after the other here; their outcomes come from the `Network` argument. */
module Director {
  import opened Basics
  import opened MemeModel
  import opened FeedErrors
  import opened CommunityMemeAPI
  import opened Ranking
  import opened MemeFeedService
  import opened MemeRepository

  datatype LoadState = Idle | Loading | Loaded | Failed(message: string)

  const NoLiveMemesMessage := "No live memes returned. Showing curated classics instead."
  const TrendingRequestLimit := 12
  const DiscoveryRequestLimit := 24

  class GameDirector {
    var trending: seq<Meme>
    var discoveries: seq<Meme>
    var curated: seq<Meme>
    var state: LoadState
    var hasBooted: bool

    /** A new controller is idle, has no records and has not booted. */
    constructor ()
      ensures state == Idle && trending == [] && discoveries == [] && curated == []
      ensures !hasBooted
    {
      trending := [];
      discoveries := [];
      curated := [];
      state := Idle;
      hasBooted := false;
    }

    /** How the `do`/`catch` block of `refresh()` leaves the controller, given what the two feed
        tasks returned: a failed trending task changes neither live list; a failed discovery task
        after a good trending task replaces only `trending`; two good tasks replace both; the
        state is the first error's description, the empty-feeds message or loaded. The lists held
        before the block are `oldTrending` and `oldDiscoveries`. */
    predicate Settled(oldTrending: seq<Meme>, oldDiscoveries: seq<Meme>,
                      trendingResult: Result<seq<Meme>, MemeFeedError>, discoveryResult: Result<seq<Meme>, MemeFeedError>)
      reads this
    {
      (trendingResult.Err? ==>
         trending == oldTrending && discoveries == oldDiscoveries &&
         state == Failed(ErrorDescription(trendingResult.error))) &&
      (trendingResult.Ok? && discoveryResult.Err? ==>
         trending == trendingResult.value && discoveries == oldDiscoveries &&
         state == Failed(ErrorDescription(discoveryResult.error))) &&
      (trendingResult.Ok? && discoveryResult.Ok? ==>
         trending == trendingResult.value && discoveries == discoveryResult.value &&
         state == (if trending == [] && discoveries == [] then Failed(NoLiveMemesMessage) else Loaded))
    }

    /** How one `refresh()` against `network` leaves the controller: the classics are reloaded in
        some order, and the live lists and state are settled by the trending feed and by one of
        the results the discovery feed can return. */
    ghost predicate Refreshed(oldTrending: seq<Meme>, oldDiscoveries: seq<Meme>, network: Network, foundation: Foundation)
      reads this
    {
      var fetched := FetchMemes(DiscoveryRequest(DiscoveryRequestLimit), network, foundation);
      multiset(curated) == multiset(CuratedClassics()) &&
      exists discoveryResult :: DiscoveryOutcome(discoveryResult, fetched, DiscoveryRequestLimit) &&
        Settled(oldTrending, oldDiscoveries, FetchTrendingMemes(TrendingRequestLimit, network, foundation), discoveryResult)
    }

    /** The `do`/`catch` block of `refresh()`, given what the two feed tasks returned. */
    method Settle(trendingResult: Result<seq<Meme>, MemeFeedError>, discoveryResult: Result<seq<Meme>, MemeFeedError>)
      modifies this
      ensures Settled(old(trending), old(discoveries), trendingResult, discoveryResult)
      ensures curated == old(curated) && hasBooted == old(hasBooted)
      ensures state.Loaded? || state.Failed?
    {
      match trendingResult
      case Err(error) =>
        state := Failed(ErrorDescription(error));
      case Ok(t) =>
        trending := t;
        match discoveryResult
        case Err(error) =>
          state := Failed(ErrorDescription(error));
        case Ok(d) =>
          discoveries := d;
          if trending == [] && discoveries == [] {
            state := Failed(NoLiveMemesMessage);
          } else {
            state := Loaded;
          }
    }

    /** `refresh()`: loading, then the shuffled classics, then the two feeds and the final state. */
    method Refresh(network: Network, foundation: Foundation)
      modifies this
      ensures Refreshed(old(trending), old(discoveries), network, foundation)
      ensures hasBooted == old(hasBooted)
      ensures state.Loaded? || state.Failed?
      ensures |curated| == 5
    {
      state := Loading;
      curated := LoadCuratedMemes(true);
      var trendingResult := FetchTrendingMemes(TrendingRequestLimit, network, foundation);
      var discoveryResult := FetchDiscoveryMemes(DiscoveryRequestLimit, network, foundation);
      ghost var fetched := FetchMemes(DiscoveryRequest(DiscoveryRequestLimit), network, foundation);
      assert DiscoveryOutcome(discoveryResult, fetched, DiscoveryRequestLimit);
      Settle(trendingResult, discoveryResult);
    }

    /** `boot()`: the first call marks the controller booted and refreshes; later calls do nothing. */
    method Boot(network: Network, foundation: Foundation)
      modifies this
      ensures hasBooted
      ensures old(hasBooted) ==>
        state == old(state) && trending == old(trending) && discoveries == old(discoveries) &&
        curated == old(curated)
      ensures !old(hasBooted) ==> Refreshed(old(trending), old(discoveries), network, foundation) && (state.Loaded? || state.Failed?)
    {
      if hasBooted {
        return;
      }
      hasBooted := true;
      Refresh(network, foundation);
    }
  }

  /** What `refresh()` can store in the live lists: at most 12 trending records, all flagged,
      ranked and with distinct keys, and at most 24 discoveries with distinct keys, because of the
      limits it asks for and the service's clamp and deduplication bound. */
  lemma LiveListBounds(network: Network, foundation: Foundation, discoveries: seq<Meme>)
    ensures var t := FetchTrendingMemes(TrendingRequestLimit, network, foundation);
      t.Ok? ==> |t.value| <= 12 && (forall m :: m in t.value ==> m.isTrending) &&
                RankedByUpvotes(t.value) && DistinctKeys(t.value)
    ensures var fetched := FetchMemes(DiscoveryRequest(DiscoveryRequestLimit), network, foundation);
      fetched.Ok? && DiscoveryOf(discoveries, fetched.value, DiscoveryRequestLimit) ==>
        |discoveries| <= 24 && DistinctKeys(discoveries) && multiset(discoveries) <= multiset(fetched.value)
  {
    var fetched := FetchMemes(DiscoveryRequest(DiscoveryRequestLimit), network, foundation);
    if fetched.Ok? && DiscoveryOf(discoveries, fetched.value, DiscoveryRequestLimit) {
      DiscoveryResultProperties(discoveries, fetched.value, DiscoveryRequestLimit);
    }
  }

  /** A live list comes back empty only when the community fetch behind it returned no records, so
      the empty-feeds message is shown only when both fetches succeeded with nothing in them. */
  lemma EmptyOnlyWhenNothingFetched(network: Network, foundation: Foundation, discoveries: seq<Meme>)
    ensures var t := FetchTrendingMemes(TrendingRequestLimit, network, foundation);
      var fetched := FetchMemes(TrendingRequest(TrendingRequestLimit), network, foundation);
      t.Ok? ==> fetched.Ok? && (t.value == [] <==> fetched.value == [])
    ensures var fetched := FetchMemes(DiscoveryRequest(DiscoveryRequestLimit), network, foundation);
      fetched.Ok? && DiscoveryOf(discoveries, fetched.value, DiscoveryRequestLimit) ==>
        (discoveries == [] <==> fetched.value == [])
  {
    var fetchedT := FetchMemes(TrendingRequest(TrendingRequestLimit), network, foundation);
    if fetchedT.Ok? {
      KeySetEmpty(fetchedT.value);
    }
    var fetched := FetchMemes(DiscoveryRequest(DiscoveryRequestLimit), network, foundation);
    if fetched.Ok? && DiscoveryOf(discoveries, fetched.value, DiscoveryRequestLimit) {
      DiscoveryResultProperties(discoveries, fetched.value, DiscoveryRequestLimit);
      KeySetEmpty(fetched.value);
    }
  }
}
