/**
 * Properties of the Sydney.com and card extractors that relate several
 * calls: identifiers that cannot collide, the identifier a relative link
 * yields, failure isolation between tiles, and the card branch's lack of a
 * gate.
 */
module ExtractorFacts {
  import opened JsValues
  import opened Numerals
  import opened Urls
  import opened EventModel
  import opened Outcomes
  import opened Extractors

  /** Different positions in the alternative listings give different identifiers. */
  lemma AltIdInjective(i: nat, j: nat, i': nat, j': nat)
    ensures AltId(i, j) == AltId(i', j') ==> i == i' && j == j'
  {
    if AltId(i, j) == AltId(i', j') {
      var prefix := "sydney-alt-";
      assert AltId(i, j) == prefix + (Dec(i) + "-" + Dec(j));
      assert AltId(i', j') == prefix + (Dec(i') + "-" + Dec(j'));
      assert AltId(i, j)[|prefix|..] == Dec(i) + "-" + Dec(j);
      assert AltId(i', j')[|prefix|..] == Dec(i') + "-" + Dec(j');
      NumeralPairInjective(i, j, i', j');
    }
  }

  /** Different tiles, or the same tile at different instants, get different fallback identifiers. */
  lemma SyntheticIdInjective(index: nat, now: nat, index': nat, now': nat)
    ensures SyntheticId(index, now) == SyntheticId(index', now') ==> index == index' && now == now'
  {
    if SyntheticId(index, now) == SyntheticId(index', now') {
      var prefix := "sydney-";
      assert SyntheticId(index, now) == prefix + (Dec(index) + "-" + Dec(now));
      assert SyntheticId(index', now') == prefix + (Dec(index') + "-" + Dec(now'));
      assert SyntheticId(index, now)[|prefix|..] == Dec(index) + "-" + Dec(now);
      assert SyntheticId(index', now')[|prefix|..] == Dec(index') + "-" + Dec(now');
      NumeralPairInjective(index, now, index', now');
    }
  }

  /** An identifier of the alternative pass never equals a fallback identifier of the primary pass. */
  lemma AltIdNotSynthetic(i: nat, j: nat, index: nat, now: nat)
    ensures AltId(i, j) != SyntheticId(index, now)
  {
    var d := Dec(index);
    assert SyntheticId(index, now)[7] == d[0];
    assert AltId(i, j)[7] == 'a';
  }

  /**
   * A tile with neither `data-id` nor `id`, whose ticket link is a plain
   * relative link, is identified by the link's last segment (or by its
   * fallback identifier when that segment is empty), whichever way the link
   * is written.
   */
  lemma TileIdFromLink(env: Env, t: Tile, index: nat, link: string)
    requires !Truthy(t.dataId) && !Truthy(t.idAttr)
    requires Or(t.ticketHref, t.anyHref) == Some(link) && PlainReference(link)
    requires t.name != "" && TileImage(env, t).Normal?
    ensures ExtractTile(env, t, index).Emitted?
    ensures ExtractTile(env, t, index).event.sourceId == Some(OrText(LastSegment(link), SyntheticId(index, env.nowMs)))
  {
    assert TileTicket(env, t) == Absolutize(Some(link), env.resolveOther);
    AbsolutizeKeepsSegment(link, env.resolveOther);
    ThirdInChain(t.dataId, t.idAttr, LastSegment(link), SyntheticId(index, env.nowMs));
  }

  /**
   * A tile with neither `data-id` nor `id` whose absolute ticket link ends
   * in '/' falls back to `sydney-<index>-<now>`.
   */
  lemma FallbackId(env: Env, t: Tile, index: nat)
    requires !Truthy(t.dataId) && !Truthy(t.idAttr)
    requires ExtractTile(env, t, index).Emitted?
    requires LastSegment(TileTicket(env, t).value.value) == ""
    ensures ExtractTile(env, t, index).event.sourceId == Some(SyntheticId(index, env.nowMs))
  {
    var candidates := [t.dataId, t.idAttr, Some(LastSegment(TileTicket(env, t).value.value))];
    assert forall i :: 0 <= i < |candidates| ==> !Truthy(candidates[i]);
  }

  /**
   * Each tile is extracted inside its own try/catch: when exactly one tile
   * throws or fails the gate, the primary pass still keeps every other
   * tile's event.
   */
  lemma OneBadTileCostsOneEvent(env: Env, tiles: seq<Tile>, bad: nat)
    requires bad < |tiles| && !ExtractTile(env, tiles[bad], bad).Emitted?
    requires forall i :: 0 <= i < |tiles| && i != bad ==> ExtractTile(env, tiles[i], i).Emitted?
    ensures |PrimaryPass(env, tiles)| == |tiles| - 1
  {
    var os := TileOutcomes(env, tiles);
    assert PrimaryPass(env, tiles) == EmittedEvents(os);
    AllButOneEmitted(os, bad);
  }

  /**
   * The primary pass keeps tile order: the events of the first `k + 1`
   * tiles are those of the first `k`, followed by tile `k`'s event when it
   * yields one.
   */
  lemma PrimaryPassStep(env: Env, tiles: seq<Tile>, k: nat)
    requires k < |tiles|
    ensures PrimaryPass(env, tiles[..0]) == []
    ensures PrimaryPass(env, tiles[..k + 1]) ==
              PrimaryPass(env, tiles[..k]) +
              (if ExtractTile(env, tiles[k], k).Emitted? then [ExtractTile(env, tiles[k], k).event] else [])
  {
    var o := ExtractTile(env, tiles[k], k);
    var before := TileOutcomes(env, tiles[..k]);
    assert TileOutcomes(env, tiles[..k + 1]) == before + [o];
    EmittedEventsAppend(before, [o]);
    EmittedEventsOne(o);
  }

  /**
   * The alternative pass keeps container order: no container gives nothing,
   * and one more container appends its own events, in item order, to those
   * of the containers before it.
   */
  lemma AltPassStep(env: Env, listings: seq<seq<AltItem>>, k: nat)
    requires k < |listings|
    ensures AltPass(env, listings[..0]) == []
    ensures AltPass(env, listings[..k + 1]) == AltPass(env, listings[..k]) + AltListing(env, k, listings[k])
  {
    var last := AltListing(env, k, listings[k]);
    AltPartsStep(env, listings, k);
    FlattenAppend(AltParts(env, listings[..k]), [last]);
    FlattenOne(last);
  }

  /** One more container adds one more list of events. */
  lemma AltPartsStep(env: Env, listings: seq<seq<AltItem>>, k: nat)
    requires k < |listings|
    ensures AltParts(env, listings[..k + 1]) == AltParts(env, listings[..k]) + [AltListing(env, k, listings[k])]
  {
    var a := AltParts(env, listings[..k + 1]);
    var b := AltParts(env, listings[..k]) + [AltListing(env, k, listings[k])];
    assert |a| == |b|;
    forall i | 0 <= i < |a|
      ensures a[i] == b[i]
    {
      if i < k {
        assert listings[..k + 1][i] == listings[..k][i];
      }
    }
  }

  /** The fallback picture is a Sydney.com URL. */
  lemma DefaultImageIsHttp()
    ensures StartsWith(DefaultImage, "http")
  {
    UnderOriginIsHttp(DefaultImage);
  }

  /**
   * An emitted tile whose links were settled without the general URL parser
   * carries an absolute http(s) picture and ticket link: an empty picture
   * falls back to the default one, and the gate rejects an empty ticket link.
   */
  lemma EmittedTileLinksAreHttp(env: Env, t: Tile, index: nat)
    requires SettledLocally(Or(t.tileImageSrc, t.anyImageSrc)) && SettledLocally(Or(t.ticketHref, t.anyHref))
    requires ExtractTile(env, t, index).Emitted?
    ensures var e := ExtractTile(env, t, index).event;
            && e.imageUrl.Some? && StartsWith(e.imageUrl.value, "http")
            && e.ticketUrl.Some? && StartsWith(e.ticketUrl.value, "http")
  {
    DefaultImageIsHttp();
  }

  /** The same for an item of the alternative listing: its picture is always the default one. */
  lemma EmittedItemLinksAreHttp(env: Env, item: AltItem, i: nat, j: nat)
    requires SettledLocally(item.firstHref)
    requires AltItemOutcome(env, item, i, j).Emitted?
    ensures var e := AltItemOutcome(env, item, i, j).event;
            && e.imageUrl.Some? && StartsWith(e.imageUrl.value, "http")
            && e.ticketUrl.Some? && StartsWith(e.ticketUrl.value, "http")
  {
    DefaultImageIsHttp();
  }

  /**
   * The card branch has no title-and-link gate and no defaults: a card with
   * no title still becomes an event, one the schema's validation would
   * reject.
   */
  lemma UntitledCardKept(c: Card, sourceName: string, now: nat)
    requires c.title == ""
    ensures CardEvents([c], sourceName) == [CardEvent(c, sourceName)]
    ensures CardEvent(c, sourceName).title == ""
    ensures NewDocument(CardEvent(c, sourceName), None, None, now).Invalid?
    ensures Title in NewDocument(CardEvent(c, sourceName), None, None, now).missing
  {
  }
}
