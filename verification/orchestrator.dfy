/**
 * The source loop of `scrapeAllSources`, over any way of scraping one
 * source: sources are visited in list order, and a source's events are
 * handed to `saveEvents` only when there are some.
 */
module SourceLoop {
  import opened JsValues
  import opened EventModel
  import opened PageWalk
  import opened Persister

  /** One entry of the source list; `maxPages` is absent on sources without pagination. */
  datatype SourceConfig = SourceConfig(url: string, name: string, usePagination: bool, maxPages: Option<int>)

  /** What a run leaves behind: the store, every URL requested, and every batch handed to `saveEvents`. */
  datatype Run = Run(store: Store, fetched: seq<string>, saved: seq<seq<EventFields>>)

  /** The batches handed to `saveEvents`, saved one after the other. */
  function SaveBatches(s: Store, batches: seq<seq<EventFields>>, now: nat, rejects: EventFields -> bool): (r: Store)
    ensures UniqueKeys(s) ==> UniqueKeys(r)
  {
    if |batches| == 0 then s
    else SaveEvents(SaveBatches(s, batches[..|batches| - 1], now, rejects), batches[|batches| - 1], now, rejects)
  }

  /** The non-empty results of the sources, in source order. */
  function NonEmptyResults(scrape: SourceConfig -> Walked, sources: seq<SourceConfig>): (batches: seq<seq<EventFields>>)
    ensures |batches| <= |sources|
    ensures forall b :: b in batches ==> |b| > 0
  {
    if |sources| == 0 then []
    else
      var n := |sources| - 1;
      var events := scrape(sources[n]).events;
      if |events| > 0 then NonEmptyResults(scrape, sources[..n]) + [events] else NonEmptyResults(scrape, sources[..n])
  }

  /** Exactly the sources that yielded events have their events saved. */
  lemma {:induction false} NonEmptyResultsMembers(scrape: SourceConfig -> Walked, sources: seq<SourceConfig>)
    ensures var batches := NonEmptyResults(scrape, sources);
            && (forall i :: 0 <= i < |sources| && |scrape(sources[i]).events| > 0 ==> scrape(sources[i]).events in batches)
            && (forall b :: b in batches ==> exists i :: 0 <= i < |sources| && b == scrape(sources[i]).events)
  {
    if |sources| > 0 {
      var n := |sources| - 1;
      NonEmptyResultsMembers(scrape, sources[..n]);
      assert forall i :: 0 <= i < n ==> sources[..n][i] == sources[i];
    }
  }

  /** The URLs the sources request, source by source. */
  function AllFetched(scrape: SourceConfig -> Walked, sources: seq<SourceConfig>): seq<string>
  {
    if |sources| == 0 then [] else AllFetched(scrape, sources[..|sources| - 1]) + scrape(sources[|sources| - 1]).fetched
  }

  /**
   * The loop `for (const source of sources)`: scrape the source, and save
   * its events when there are any. All saves share one clock reading.
   */
  function ScrapeAll(scrape: SourceConfig -> Walked, sources: seq<SourceConfig>, s: Store, now: nat, rejects: EventFields -> bool): (r: Run)
    ensures r.saved == NonEmptyResults(scrape, sources)
    ensures r.store == SaveBatches(s, r.saved, now, rejects)
    ensures r.fetched == AllFetched(scrape, sources)
  {
    if |sources| == 0 then Run(s, [], [])
    else
      var n := |sources| - 1;
      var prev := ScrapeAll(scrape, sources[..n], s, now, rejects);
      var w := scrape(sources[n]);
      if |w.events| > 0 then
        var saved := prev.saved + [w.events];
        assert saved[..|saved| - 1] == prev.saved;
        Run(SaveEvents(prev.store, w.events, now, rejects), prev.fetched + w.fetched, saved)
      else Run(prev.store, prev.fetched + w.fetched, prev.saved)
  }

  /** Every source quiet: the run saves nothing and the store is left as it was. */
  lemma {:induction false} QuietRun(scrape: SourceConfig -> Walked, sources: seq<SourceConfig>, s: Store, now: nat, rejects: EventFields -> bool)
    requires forall i :: 0 <= i < |sources| ==> |scrape(sources[i]).events| == 0
    ensures ScrapeAll(scrape, sources, s, now, rejects).saved == []
    ensures ScrapeAll(scrape, sources, s, now, rejects).store == s
  {
    if |sources| > 0 {
      var n := |sources| - 1;
      assert forall i :: 0 <= i < n ==> sources[..n][i] == sources[i];
      QuietRun(scrape, sources[..n], s, now, rejects);
    }
  }

  /** Sources that each request one URL: the run requests those URLs in list order. */
  lemma {:induction false} OneRequestPerSource(scrape: SourceConfig -> Walked, sources: seq<SourceConfig>)
    requires forall i :: 0 <= i < |sources| ==> scrape(sources[i]).fetched == [sources[i].url]
    ensures |AllFetched(scrape, sources)| == |sources|
    ensures forall i :: 0 <= i < |sources| ==> AllFetched(scrape, sources)[i] == sources[i].url
  {
    if |sources| > 0 {
      var n := |sources| - 1;
      assert forall i :: 0 <= i < n ==> sources[..n][i] == sources[i];
      OneRequestPerSource(scrape, sources[..n]);
    }
  }

  /**
   * A source that yields nothing (its fetch failed, say) changes nothing:
   * the run saves what it would have saved without that source.
   */
  lemma QuietSourceIsAbsent(scrape: SourceConfig -> Walked, a: seq<SourceConfig>, c: SourceConfig, b: seq<SourceConfig>,
                            s: Store, now: nat, rejects: EventFields -> bool)
    requires |scrape(c).events| == 0
    ensures ScrapeAll(scrape, a + [c] + b, s, now, rejects).saved == ScrapeAll(scrape, a + b, s, now, rejects).saved
    ensures ScrapeAll(scrape, a + [c] + b, s, now, rejects).store == ScrapeAll(scrape, a + b, s, now, rejects).store
  {
    QuietResults(scrape, a, c, b);
  }

  lemma {:induction false} QuietResults(scrape: SourceConfig -> Walked, a: seq<SourceConfig>, c: SourceConfig, b: seq<SourceConfig>)
    requires |scrape(c).events| == 0
    ensures NonEmptyResults(scrape, a + [c] + b) == NonEmptyResults(scrape, a + b)
    decreases |b|
  {
    var with := a + [c] + b;
    var without := a + b;
    if |b| == 0 {
      assert with[..|a|] == a;
      assert without == a;
    } else {
      var n := |b| - 1;
      QuietResults(scrape, a, c, b[..n]);
      assert with[..|with| - 1] == a + [c] + b[..n];
      assert without[..|without| - 1] == a + b[..n];
      assert with[|with| - 1] == b[n] == without[|without| - 1];
    }
  }

}

/**
 * `scrapeAllSources` and the schedule rule of `setupScraper`: the sources
 * are scraped one after the other in list order, and a source's events
 * are saved only when it yielded some.
 */
module Orchestrator {
  import opened JsValues
  import opened Numerals
  import opened EventModel
  import opened Extractors
  import opened PageWalk
  import opened Pagination
  import opened Persister
  import opened SourceLoop

  /** The source list, in the order the loop visits it. */
  const Sources: seq<SourceConfig> := [
    SourceConfig("https://www.sydney.com/events", SydneyCom, true, Some(3)),
    SourceConfig("https://www.example-sydney-events.com/events", SydneyEvents, false, None),
    SourceConfig("https://www.sydney-concerts.com/upcoming", SydneyConcerts, false, None)
  ]

  /** `source.maxPages || 3`: a missing or zero cap falls back to 3. */
  function PageCap(c: SourceConfig): (cap: int)
    ensures cap != 0
    ensures c.maxPages.None? ==> cap == 3
    ensures c.maxPages == Some(0) ==> cap == 3
    ensures c.maxPages.Some? && c.maxPages.value != 0 ==> cap == c.maxPages.value
  {
    if c.maxPages.Some? && c.maxPages.value != 0 then c.maxPages.value else 3
  }

  /** One source's events and the URLs requested for it. */
  function ScrapeSource(env: Env, c: SourceConfig): (w: Walked)
    ensures !c.usePagination ==> w.fetched == [c.url] && w.events == ScrapeSite(env, c.url, c.name)
    ensures c.usePagination ==> w == ScrapeWithPagination(env, c.url, c.name, PageCap(c))
    ensures c.name != SydneyCom ==> w == Walked(ScrapeSite(env, c.url, c.name), [c.url])
    ensures c.usePagination && c.name == SydneyCom ==> w.events == Collected(PageScraper(env, c.url), 1, |w.fetched|)
  {
    if c.usePagination then ScrapeWithPagination(env, c.url, c.name, PageCap(c))
    else Walked(ScrapeSite(env, c.url, c.name), [c.url])
  }

  /** How `scrapeAllSources` scrapes each source. */
  function SourceScraper(env: Env): SourceConfig -> Walked
  {
    c => ScrapeSource(env, c)
  }

  /** `scrapeAllSources()` against a store at time `now`. */
  function ScrapeAllSources(env: Env, s: Store, now: nat, rejects: EventFields -> bool): (r: Run)
    ensures |r.saved| <= 3
    ensures forall b :: b in r.saved ==> |b| > 0
    ensures r.store == SaveBatches(s, r.saved, now, rejects)
    ensures UniqueKeys(s) ==> UniqueKeys(r.store)
  {
    ScrapeAll(SourceScraper(env), Sources, s, now, rejects)
  }

  /** A source whose first request fails yields nothing and requests nothing more. */
  lemma FailedFetchQuiet(env: Env, c: SourceConfig)
    requires env.fetch(c.url).None?
    requires c.usePagination ==> PageCap(c) >= 1
    ensures ScrapeSource(env, c).events == []
    ensures ScrapeSource(env, c).fetched == [c.url]
  {
    if c.usePagination && c.name == SydneyCom {
      var scrape := PageScraper(env, c.url);
      assert scrape(1) == [];
    }
  }

  /**
   * When every request fails, a run asks once for each source's URL (page 1
   * of a paginated source is empty, which ends its walk), saves nothing and
   * leaves the store as it was.
   */
  lemma NothingFetchedNothingSaved(env: Env, sources: seq<SourceConfig>, s: Store, now: nat, rejects: EventFields -> bool)
    requires forall url :: env.fetch(url).None?
    requires forall i :: 0 <= i < |sources| && sources[i].usePagination ==> PageCap(sources[i]) >= 1
    ensures ScrapeAll(SourceScraper(env), sources, s, now, rejects).saved == []
    ensures ScrapeAll(SourceScraper(env), sources, s, now, rejects).store == s
    ensures |ScrapeAll(SourceScraper(env), sources, s, now, rejects).fetched| == |sources|
    ensures forall i :: 0 <= i < |sources| ==> ScrapeAll(SourceScraper(env), sources, s, now, rejects).fetched[i] == sources[i].url
  {
    var scrape := SourceScraper(env);
    forall i | 0 <= i < |sources|
      ensures scrape(sources[i]).fetched == [sources[i].url]
      ensures |scrape(sources[i]).events| == 0
    {
      FailedFetchQuiet(env, sources[i]);
    }
    QuietRun(scrape, sources, s, now, rejects);
    OneRequestPerSource(scrape, sources);
  }

  /** Every paginated entry of the source list walks at most three pages. */
  lemma SourcesCapped()
    ensures forall i :: 0 <= i < |Sources| && Sources[i].usePagination ==> PageCap(Sources[i]) == 3
  {
  }

  /** `parseInt(SCRAPE_INTERVAL) || 86400000`: an unset, unreadable or zero setting means a day. */
  function IntervalMs(setting: Option<string>): (ms: int)
    ensures ms != 0
    ensures setting.None? ==> ms == 86400000
    ensures setting.Some? && ParseInt(setting.value).Some? && ParseInt(setting.value).value != 0 ==>
              ms == ParseInt(setting.value).value
    ensures setting.Some? && ParseInt(setting.value).None? ==> ms == 86400000
    ensures setting.Some? && ParseInt(setting.value) == Some(0) ==> ms == 86400000
  {
    if setting.None? then 86400000
    else
      match ParseInt(setting.value)
      case Some(v) => if v != 0 then v else 86400000
      case None => 86400000
  }

  /** A setting written as a positive decimal numeral is taken as it stands. */
  lemma IntervalOfNumeral(n: nat)
    requires n > 0
    ensures IntervalMs(Some(Dec(n))) == n
  {
    ParseIntDec(n);
  }
}
