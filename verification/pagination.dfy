/**
 * `scrapeWithPagination`: Sydney.com is walked page by page (page 1 at the
 * bare URL, page N at `?page=N`) until a page yields nothing or `maxPages`
 * pages have been fetched; every other source is fetched once. The
 * two-second pause between pages is left out.
 */
module PageWalk {
  import opened JsValues
  import opened Numerals
  import opened EventModel

  /** `page === 1 ? baseUrl : ${baseUrl}?page=${page}`. */
  function PageUrl(baseUrl: string, page: nat): string
  {
    if page == 1 then baseUrl else baseUrl + "?page=" + Dec(page)
  }

  /** The events a walk collected and the URLs it fetched, in order. */
  datatype Walked = Walked(events: seq<EventFields>, fetched: seq<string>)

  /** The events of the `n` pages from `page` on, concatenated in page order. */
  function Collected(scrape: nat -> seq<EventFields>, page: nat, n: nat): seq<EventFields>
    decreases n
  {
    if n == 0 then [] else scrape(page) + Collected(scrape, page + 1, n - 1)
  }

  /** How many pages a walk from `page` up to `maxPages` may fetch. */
  function PagesLeft(page: nat, maxPages: int): nat
  {
    if maxPages >= page then maxPages - page + 1 else 0
  }

  /**
   * The loop `for (page = from; page <= maxPages; page++)` of the Sydney.com
   * branch: fetch the page, stop at the first page with no events,
   * otherwise keep its events and go on. `scrape(p)` is what scraping page
   * `p` yields.
   */
  function Walk(scrape: nat -> seq<EventFields>, baseUrl: string, page: nat, maxPages: int): (w: Walked)
    requires page >= 1
    ensures |w.fetched| <= PagesLeft(page, maxPages)
    ensures |w.fetched| == 0 <==> maxPages < page
    ensures forall k :: 0 <= k < |w.fetched| ==> w.fetched[k] == PageUrl(baseUrl, page + k)
    ensures w.events == Collected(scrape, page, |w.fetched|)
    decreases PagesLeft(page, maxPages)
  {
    if page > maxPages then Walked([], [])
    else
      var url := PageUrl(baseUrl, page);
      var events := scrape(page);
      if |events| == 0 then Walked([], [url])
      else
        var rest := Walk(scrape, baseUrl, page + 1, maxPages);
        var fetched := [url] + rest.fetched;
        assert |fetched| == 1 + |rest.fetched|;
        assert Collected(scrape, page, |fetched|) == events + rest.events;
        assert forall k :: 1 <= k < |fetched| ==> fetched[k] == rest.fetched[k - 1] == PageUrl(baseUrl, page + k);
        Walked(events + rest.events, fetched)
  }

  /** Every one of the `n` pages from `page` on but the last yielded events. */
  predicate EventsBeforeLast(scrape: nat -> seq<EventFields>, page: nat, n: nat)
  {
    forall p :: page <= p < page + n - 1 ==> |scrape(p)| > 0
  }

  /** Every fetched page but the last had events. */
  lemma {:induction false} WalkGoesOnOnlyAfterEvents(scrape: nat -> seq<EventFields>, baseUrl: string, page: nat, maxPages: int)
    requires page >= 1
    ensures EventsBeforeLast(scrape, page, |Walk(scrape, baseUrl, page, maxPages).fetched|)
    decreases PagesLeft(page, maxPages)
  {
    if page <= maxPages && |scrape(page)| > 0 {
      WalkGoesOnOnlyAfterEvents(scrape, baseUrl, page + 1, maxPages);
      var rest := Walk(scrape, baseUrl, page + 1, maxPages).fetched;
      assert |Walk(scrape, baseUrl, page, maxPages).fetched| == 1 + |rest|;
    }
  }

  /** Of fewer than `cap` pages from `page` on, the last one yielded no events. */
  predicate EndsEarlyOnEmptyPage(scrape: nat -> seq<EventFields>, page: nat, n: nat, cap: nat)
  {
    0 < n < cap ==> |scrape(page + n - 1)| == 0
  }

  /** A walk that ends before the cap ends on a page with no events. */
  lemma {:induction false} WalkEndsOnEmptyPage(scrape: nat -> seq<EventFields>, baseUrl: string, page: nat, maxPages: int)
    requires page >= 1
    ensures EndsEarlyOnEmptyPage(scrape, page, |Walk(scrape, baseUrl, page, maxPages).fetched|, PagesLeft(page, maxPages))
    decreases PagesLeft(page, maxPages)
  {
    if page <= maxPages && |scrape(page)| > 0 {
      WalkEndsOnEmptyPage(scrape, baseUrl, page + 1, maxPages);
      var rest := Walk(scrape, baseUrl, page + 1, maxPages).fetched;
      assert |Walk(scrape, baseUrl, page, maxPages).fetched| == 1 + |rest|;
      assert PagesLeft(page, maxPages) == PagesLeft(page + 1, maxPages) + 1;
    }
  }

  /**
   * When pages `from .. last-1` have events and page `last` has none, the
   * walk fetches exactly the pages `from .. last`.
   */
  lemma {:induction false} StopsAtFirstEmptyPage(scrape: nat -> seq<EventFields>, baseUrl: string, from: nat, last: nat, maxPages: int)
    requires 1 <= from <= last <= maxPages
    requires forall p :: from <= p < last ==> |scrape(p)| > 0
    requires |scrape(last)| == 0
    ensures |Walk(scrape, baseUrl, from, maxPages).fetched| == last - from + 1
    decreases last - from
  {
    if from < last {
      StopsAtFirstEmptyPage(scrape, baseUrl, from + 1, last, maxPages);
    }
  }

  /** When every page up to the cap has events, the walk fetches all `maxPages` pages. */
  lemma {:induction false} FetchesUpToCap(scrape: nat -> seq<EventFields>, baseUrl: string, from: nat, maxPages: int)
    requires from >= 1
    requires forall p :: from <= p <= maxPages ==> |scrape(p)| > 0
    ensures |Walk(scrape, baseUrl, from, maxPages).fetched| == PagesLeft(from, maxPages)
    decreases PagesLeft(from, maxPages)
  {
    if from <= maxPages {
      FetchesUpToCap(scrape, baseUrl, from + 1, maxPages);
    }
  }

  /** Distinct page numbers give distinct URLs. */
  lemma PageUrlInjective(baseUrl: string, p: nat, q: nat)
    requires p >= 1 && q >= 1
    ensures PageUrl(baseUrl, p) == PageUrl(baseUrl, q) ==> p == q
  {
    if p != 1 && q != 1 && PageUrl(baseUrl, p) == PageUrl(baseUrl, q) {
      var prefix := baseUrl + "?page=";
      assert PageUrl(baseUrl, p)[|prefix|..] == Dec(p);
      assert PageUrl(baseUrl, q)[|prefix|..] == Dec(q);
      DecInjective(p, q);
    }
  }

  /**
   * Page 1 is the base URL itself; any other page is the base URL with a
   * `?page=` query whose value `parseInt` reads back as the page number.
   */
  lemma PageUrlReadsBack(baseUrl: string, page: nat)
    ensures page == 1 ==> PageUrl(baseUrl, page) == baseUrl
    ensures page != 1 ==>
              var url := PageUrl(baseUrl, page);
              var query := baseUrl + "?page=";
              && |url| > |query| && url[..|query|] == query
              && ParseInt(url[|query|..]) == Some(page)
  {
    if page != 1 {
      var url := PageUrl(baseUrl, page);
      var query := baseUrl + "?page=";
      assert url == query + Dec(page);
      assert url[|query|..] == Dec(page);
      ParseIntDec(page);
    }
  }

  /** A walk never fetches the same URL twice. */
  lemma WalkFetchesDistinct(scrape: nat -> seq<EventFields>, baseUrl: string, maxPages: int)
    ensures var f := Walk(scrape, baseUrl, 1, maxPages).fetched;
            forall k, l :: 0 <= k < l < |f| ==> f[k] != f[l]
  {
    var f := Walk(scrape, baseUrl, 1, maxPages).fetched;
    forall k, l | 0 <= k < l < |f|
      ensures f[k] != f[l]
    {
      PageUrlInjective(baseUrl, 1 + k, 1 + l);
    }
  }

  /** The worked example: page 3 of at most 5 is empty, so exactly pages 1, 2 and 3 are fetched. */
  lemma ThirdPageEmptyOfFive(scrape: nat -> seq<EventFields>, baseUrl: string)
    requires |scrape(1)| > 0 && |scrape(2)| > 0 && |scrape(3)| == 0
    ensures Walk(scrape, baseUrl, 1, 5).fetched == [baseUrl, baseUrl + "?page=2", baseUrl + "?page=3"]
  {
    assert Dec(2) == "2" && Dec(3) == "3";
    assert PageUrl(baseUrl, 2) == baseUrl + "?page=2";
    assert PageUrl(baseUrl, 3) == baseUrl + "?page=3";
    StopsAtFirstEmptyPage(scrape, baseUrl, 1, 3, 5);
  }
}

/**
 * `scrapeWithPagination` over the real page scraper. Each page of the
 * Sydney.com walk is scraped at its own instant, since `Date.now()` is read
 * per tile and the pages are at least two seconds apart.
 */
module Pagination {
  import opened JsValues
  import opened Numerals
  import opened Urls
  import opened EventModel
  import opened Extractors
  import opened ExtractorFacts
  import opened PageWalk

  /** The world as page `p` of the walk sees it: the clock reads that page's instant. */
  function PageEnv(env: Env, p: nat): (e: Env)
    ensures e.nowMs == env.pageClock(p)
    ensures e.fetch == env.fetch && e.resolveOther == env.resolveOther && e.today == env.today
  {
    env.(nowMs := env.pageClock(p))
  }

  /** Page `p` of the Sydney.com walk from `baseUrl`: the events scraped from its URL at its instant. */
  function PageScraper(env: Env, baseUrl: string): nat -> seq<EventFields>
  {
    (p: nat) => ScrapeSite(PageEnv(env, p), PageUrl(baseUrl, p), SydneyCom)
  }

  /** `scrapeWithPagination(baseUrl, sourceName, maxPages)`. */
  function ScrapeWithPagination(env: Env, baseUrl: string, sourceName: string, maxPages: int): (w: Walked)
    ensures sourceName != SydneyCom ==> w == Walked(ScrapeSite(env, baseUrl, sourceName), [baseUrl])
    ensures sourceName == SydneyCom ==> w == Walk(PageScraper(env, baseUrl), baseUrl, 1, maxPages)
    ensures sourceName == SydneyCom ==> |w.fetched| <= PagesLeft(1, maxPages)
    ensures sourceName == SydneyCom ==> forall k :: 0 <= k < |w.fetched| ==> w.fetched[k] == PageUrl(baseUrl, 1 + k)
    ensures sourceName == SydneyCom ==>
              w.events == Collected(PageScraper(env, baseUrl), 1, |w.fetched|)
  {
    if sourceName == SydneyCom then Walk(PageScraper(env, baseUrl), baseUrl, 1, maxPages)
    else Walked(ScrapeSite(env, baseUrl, sourceName), [baseUrl])
  }

  /** Later pages are scraped at later instants. */
  ghost predicate PagesInOrder(env: Env)
  {
    forall p, q :: 1 <= p < q ==> env.pageClock(p) < env.pageClock(q)
  }

  /**
   * Two tiles on different pages of the walk that both fall back to
   * `sydney-<index>-<now>` get different identifiers, whatever their
   * indices, so neither upsert overwrites the other's document.
   */
  lemma FallbackIdsDifferAcrossPages(env: Env, p: nat, t: Tile, i: nat, q: nat, u: Tile, j: nat)
    requires PagesInOrder(env) && 1 <= p < q
    requires !Truthy(t.dataId) && !Truthy(t.idAttr) && ExtractTile(PageEnv(env, p), t, i).Emitted?
    requires LastSegment(TileTicket(PageEnv(env, p), t).value.value) == ""
    requires !Truthy(u.dataId) && !Truthy(u.idAttr) && ExtractTile(PageEnv(env, q), u, j).Emitted?
    requires LastSegment(TileTicket(PageEnv(env, q), u).value.value) == ""
    ensures ExtractTile(PageEnv(env, p), t, i).event.sourceId != ExtractTile(PageEnv(env, q), u, j).event.sourceId
  {
    FallbackId(PageEnv(env, p), t, i);
    FallbackId(PageEnv(env, q), u, j);
    SyntheticIdInjective(i, env.pageClock(p), j, env.pageClock(q));
  }
}
