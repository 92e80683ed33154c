/**
 * The per-source extractors of `scrapeEventsFromSite`: what one fetched
 * listing page yields for each source name. HTTP and the HTML parser are
 * replaced by their results: a fetch returns a parsed `Page` (or fails),
 * and a page is the list of cards, tiles and alternative listings its
 * selectors match, each holding the trimmed texts and raw attributes the
 * extractor reads.
 */
module Extractors {
  import opened JsValues
  import opened Numerals
  import opened Urls
  import opened EventModel
  import opened Outcomes

  const SydneyCom: string := "Sydney.com"
  const SydneyEvents: string := "SydneyEvents"
  const SydneyConcerts: string := "SydneyConcerts"

  const DefaultDescription: string := "Check website for event details"
  const DefaultTime: string := "Check website for time details"
  const AltTime: string := "See website for details"
  const DefaultVenue: string := "Sydney, Australia"
  const DefaultPrice: string := "See website for pricing"
  const DefaultImage: string :=
    SiteOrigin + "/sites/sydney/files/styles/hero_item/public/2022-08/opera-house-vivid.jpg"

  /** An `.event-card` of the SydneyEvents / SydneyConcerts listings. */
  datatype Card = Card(
    title: string,               // .event-title
    description: string,         // .event-description
    dateText: string,            // .event-date
    time: string,                // .event-time
    venue: string,               // .event-venue
    imageSrc: Option<string>,    // .event-image [src]
    linkHref: Option<string>,    // .event-link [href]
    price: string,               // .event-price
    dataId: Option<string>)      // [data-id]

  /** An `.event-tile` of the Sydney.com listing. */
  datatype Tile = Tile(
    name: string,                // .event-name
    description: string,         // .event-description, .event-excerpt
    eventDate: string,           // .event-date
    dateDisplay: string,         // .date-display
    startDate: Option<string>,   // [itemprop="startDate"] [content]
    eventTime: string,           // .event-time
    timeDisplay: string,         // .time-display
    venue: string,               // .event-venue, .event-location
    tileImageSrc: Option<string>,  // .event-image img, .tile-image img [src]
    anyImageSrc: Option<string>,   // img [src]
    ticketHref: Option<string>,    // .event-link a, .buy-tickets [href]
    anyHref: Option<string>,       // a [href]
    price: string,               // .event-price, .ticket-price
    dataId: Option<string>,      // [data-id]
    idAttr: Option<string>)      // [id]

  /** An `.event-item, .col-md-4, .card` inside an alternative listing container. */
  datatype AltItem = AltItem(
    heading: string,             // h2, h3, .card-title
    text: string,                // p, .card-text, .description
    firstHref: Option<string>)   // first a [href]

  /**
   * A parsed listing page: its `.event-card`s, its `.event-tile`s, and its
   * `.event-listing, .events-container .row, .events-list` containers with
   * their items.
   */
  datatype Page = Page(cards: seq<Card>, tiles: seq<Tile>, listings: seq<seq<AltItem>>)

  /**
   * What the scraper reads from outside: the clock (`Date.now()` during this
   * scrape, the instant page `p` of the Sydney.com walk is scraped, and
   * today's `YYYY-MM-DD`), the fetch-and-parse of a URL (`None` when the
   * request or the parse fails), and the URL parser on references outside
   * the plain ones (`None` when it throws).
   */
  datatype Env = Env(
    nowMs: nat,
    pageClock: nat -> nat,
    today: string,
    fetch: string -> Option<Page>,
    resolveOther: string -> Option<string>)

  /** What every Sydney.com event carries: its source name and a value in every required field. */
  predicate SydneyComRecord(e: EventFields)
  {
    e.source == SydneyCom && HasAllRequired(e)
  }

  // ---------------------------------------------------------------------
  // SydneyEvents / SydneyConcerts

  /** An `.event-card` copied as it stands, with no gate and no defaults. */
  function CardEvent(c: Card, sourceName: string): EventFields
  {
    EventFields(c.title, c.description, ParsedDate(c.dateText), c.time, c.venue,
                c.imageSrc, c.linkHref, c.price, sourceName, c.dataId)
  }

  /** Every card becomes an event, in page order. */
  function CardEvents(cards: seq<Card>, sourceName: string): (events: seq<EventFields>)
    ensures |events| == |cards|
    ensures forall i :: 0 <= i < |cards| ==> events[i] == CardEvent(cards[i], sourceName)
  {
    if |cards| == 0 then [] else [CardEvent(cards[0], sourceName)] + CardEvents(cards[1..], sourceName)
  }

  // ---------------------------------------------------------------------
  // Sydney.com, primary pass over `.event-tile`

  /**
   * The date text, as the source chains it: `.event-date`, and only when
   * that is empty `.date-display || startDate content || today`.
   */
  function TileDateText(t: Tile, today: string): (text: string)
    ensures text == FirstNonEmpty([Some(t.eventDate), Some(t.dateDisplay), t.startDate], today)
  {
    var chain := [Some(t.eventDate), Some(t.dateDisplay), t.startDate];
    assert Truthy(t.startDate) ==> t.eventDate != "" || t.dateDisplay != "" || FirstTruthyAt(chain, 2);
    if t.eventDate != "" then t.eventDate
    else if t.dateDisplay != "" then t.dateDisplay
    else if Truthy(t.startDate) then t.startDate.value
    else today
  }

  /** The tile's image link, made absolute. */
  function TileImage(env: Env, t: Tile): Completion<Option<string>>
  {
    Absolutize(Or(t.tileImageSrc, t.anyImageSrc), env.resolveOther)
  }

  /** The tile's ticket link, made absolute. */
  function TileTicket(env: Env, t: Tile): Completion<Option<string>>
  {
    Absolutize(Or(t.ticketHref, t.anyHref), env.resolveOther)
  }

  /** `sydney-<index>-<now>`, the identifier of last resort. */
  function SyntheticId(index: nat, nowMs: nat): string
  {
    "sydney-" + Dec(index) + "-" + Dec(nowMs)
  }

  /**
   * `data-id || id || ticketUrl.split('/').pop() || sydney-<index>-<now>`:
   * the split throws when both attributes are empty and the link is
   * `undefined`; otherwise the first non-empty candidate wins.
   */
  function TileSourceId(t: Tile, ticket: Option<string>, index: nat, nowMs: nat): (r: Completion<string>)
    ensures r.Thrown? <==> !Truthy(t.dataId) && !Truthy(t.idAttr) && ticket.None?
    ensures r.Normal? ==> r.value != ""
    ensures Truthy(t.dataId) ==> r == Normal(t.dataId.value)
    ensures !Truthy(t.dataId) && Truthy(t.idAttr) ==> r == Normal(t.idAttr.value)
    ensures r.Normal? && ticket.Some? ==>
              r.value == FirstNonEmpty([t.dataId, t.idAttr, Some(LastSegment(ticket.value))], SyntheticId(index, nowMs))
  {
    if Truthy(t.dataId) then Normal(t.dataId.value)
    else if Truthy(t.idAttr) then Normal(t.idAttr.value)
    else if ticket.None? then Thrown
    else
      var segment := LastSegment(ticket.value);
      var chain := [t.dataId, t.idAttr, Some(segment)];
      assert segment != "" ==> FirstTruthyAt(chain, 2);
      Normal(if segment != "" then segment else SyntheticId(index, nowMs))
  }

  /**
   * One `.event-tile`, inside its own try/catch: every field from its
   * fallback chain, links made absolute, and the event kept only when it
   * has a title and a ticket link.
   */
  function ExtractTile(env: Env, t: Tile, index: nat): (o: Outcome)
    ensures o.Emitted? <==>
              && t.name != ""
              && TileImage(env, t).Normal?
              && TileTicket(env, t).Normal? && Truthy(TileTicket(env, t).value)
    ensures o.Failed? <==>
              || TileImage(env, t).Thrown?
              || TileTicket(env, t).Thrown?
              || (!Truthy(t.dataId) && !Truthy(t.idAttr) && Or(t.ticketHref, t.anyHref).None?)
    ensures o.Emitted? ==>
              && SydneyComRecord(o.event)
              && o.event.title == t.name
              && o.event.ticketUrl == TileTicket(env, t).value
              && o.event.description == OrText(t.description, DefaultDescription)
              && o.event.date == ParsedDate(FirstNonEmpty([Some(t.eventDate), Some(t.dateDisplay), t.startDate], env.today))
              && o.event.time == OrText(t.eventTime, OrText(t.timeDisplay, DefaultTime))
              && o.event.venue == OrText(t.venue, DefaultVenue)
              && o.event.imageUrl == Some(OrDefault(TileImage(env, t).value, DefaultImage))
              && o.event.price == OrText(t.price, DefaultPrice)
              && o.event.sourceId == Some(FirstNonEmpty([t.dataId, t.idAttr, Some(LastSegment(TileTicket(env, t).value.value))],
                                                        SyntheticId(index, env.nowMs)))
  {
    var description := OrText(t.description, DefaultDescription);
    var dateText := TileDateText(t, env.today);
    var time := OrText(t.eventTime, OrText(t.timeDisplay, DefaultTime));
    var venue := OrText(t.venue, DefaultVenue);
    match TileImage(env, t)
    case Thrown => Failed
    case Normal(image) =>
      match TileTicket(env, t)
      case Thrown => Failed
      case Normal(ticket) =>
        var price := OrText(t.price, DefaultPrice);
        match TileSourceId(t, ticket, index, env.nowMs)
        case Thrown => Failed
        case Normal(sourceId) =>
          if t.name != "" && Truthy(ticket) then
            Emitted(EventFields(t.name, description, ParsedDate(dateText), time, venue,
                                Some(OrDefault(image, DefaultImage)), ticket, price, SydneyCom, Some(sourceId)))
          else Dropped
  }

  /**
   * `$('.event-tile').each(...)`: the events of the tiles that pass, in
   * tile order; a tile that throws or fails the gate contributes nothing
   * and does not affect the others.
   */
  function TileOutcomes(env: Env, tiles: seq<Tile>): (os: seq<Outcome>)
    ensures |os| == |tiles|
    ensures forall i :: 0 <= i < |tiles| ==> os[i] == ExtractTile(env, tiles[i], i)
  {
    seq(|tiles|, i requires 0 <= i < |tiles| => ExtractTile(env, tiles[i], i))
  }

  function PrimaryPass(env: Env, tiles: seq<Tile>): (events: seq<EventFields>)
    ensures |events| <= |tiles|
    ensures forall e :: e in events ==> SydneyComRecord(e)
    ensures forall i :: 0 <= i < |tiles| && ExtractTile(env, tiles[i], i).Emitted? ==>
              ExtractTile(env, tiles[i], i).event in events
    ensures forall e :: e in events ==>
              exists i :: 0 <= i < |tiles| && ExtractTile(env, tiles[i], i) == Emitted(e)
  {
    var os := TileOutcomes(env, tiles);
    EmittedAt(os);
    EmittedEvents(os)
  }

  // ---------------------------------------------------------------------
  // Sydney.com, alternative pass over listing containers

  /** `sydney-alt-<container>-<item>`. */
  function AltId(i: nat, j: nat): string
  {
    "sydney-alt-" + Dec(i) + "-" + Dec(j)
  }

  function AltTicket(env: Env, item: AltItem): Completion<Option<string>>
  {
    Absolutize(item.firstHref, env.resolveOther)
  }

  /**
   * Item `j` of container `i`, inside its own try/catch: kept only with a
   * heading and a ticket link, dated now, with fixed time, venue, image and
   * price.
   */
  function AltItemOutcome(env: Env, item: AltItem, i: nat, j: nat): (o: Outcome)
    ensures o.Emitted? <==> item.heading != "" && AltTicket(env, item).Normal? && Truthy(AltTicket(env, item).value)
    ensures o.Failed? <==> AltTicket(env, item).Thrown?
    ensures o.Emitted? ==>
              && SydneyComRecord(o.event)
              && o.event.title == item.heading
              && o.event.ticketUrl == AltTicket(env, item).value
              && o.event.description == OrText(item.text, DefaultDescription)
              && o.event.sourceId == Some(AltId(i, j))
              && o.event.date == CurrentInstant(env.nowMs)
              && o.event.time == AltTime
              && o.event.venue == DefaultVenue
              && o.event.imageUrl == Some(DefaultImage)
              && o.event.price == DefaultPrice
  {
    var description := OrText(item.text, DefaultDescription);
    match AltTicket(env, item)
    case Thrown => Failed
    case Normal(ticket) =>
      if item.heading != "" && Truthy(ticket) then
        Emitted(EventFields(item.heading, description, CurrentInstant(env.nowMs), AltTime, DefaultVenue,
                            Some(DefaultImage), ticket, DefaultPrice, SydneyCom, Some(AltId(i, j))))
      else Dropped
  }

  function ItemOutcomes(env: Env, i: nat, items: seq<AltItem>): (os: seq<Outcome>)
    ensures |os| == |items|
    ensures forall j :: 0 <= j < |items| ==> os[j] == AltItemOutcome(env, items[j], i, j)
  {
    seq(|items|, j requires 0 <= j < |items| => AltItemOutcome(env, items[j], i, j))
  }

  /** The events of container `i`, in item order. */
  function AltListing(env: Env, i: nat, items: seq<AltItem>): (events: seq<EventFields>)
    ensures |events| <= |items|
    ensures forall e :: e in events ==> SydneyComRecord(e)
    ensures forall e :: e in events ==>
              exists j :: 0 <= j < |items| && AltItemOutcome(env, items[j], i, j) == Emitted(e)
    ensures forall j :: 0 <= j < |items| && AltItemOutcome(env, items[j], i, j).Emitted? ==>
              AltItemOutcome(env, items[j], i, j).event in events
  {
    var os := ItemOutcomes(env, i, items);
    EmittedAt(os);
    EmittedEvents(os)
  }

  /** The events of each container, one list per container. */
  function AltParts(env: Env, listings: seq<seq<AltItem>>): (parts: seq<seq<EventFields>>)
    ensures |parts| == |listings|
    ensures forall i :: 0 <= i < |listings| ==> parts[i] == AltListing(env, i, listings[i])
  {
    seq(|listings|, i requires 0 <= i < |listings| => AltListing(env, i, listings[i]))
  }

  /** The events of every container, container by container. */
  function AltPass(env: Env, listings: seq<seq<AltItem>>): (events: seq<EventFields>)
    ensures forall e :: e in events ==> SydneyComRecord(e)
    ensures forall e :: e in events ==>
              exists i :: 0 <= i < |listings| && e in AltListing(env, i, listings[i])
    ensures forall i :: 0 <= i < |listings| ==>
              forall e :: e in AltListing(env, i, listings[i]) ==> e in events
  {
    Flatten(AltParts(env, listings))
  }

  /** The Sydney.com branch: the primary pass, or the alternative pass when it found nothing. */
  function SydneyComEvents(env: Env, page: Page): (events: seq<EventFields>)
    ensures forall e :: e in events ==> SydneyComRecord(e)
    ensures (exists k :: 0 <= k < |page.tiles| && ExtractTile(env, page.tiles[k], k).Emitted?) ==>
              events == PrimaryPass(env, page.tiles)
    ensures (forall k :: 0 <= k < |page.tiles| ==> !ExtractTile(env, page.tiles[k], k).Emitted?) ==>
              events == AltPass(env, page.listings)
  {
    var primary := PrimaryPass(env, page.tiles);
    if |primary| == 0 then
      AltPass(env, page.listings)
    else
      assert primary[0] in primary;
      primary
  }

  /**
   * `scrapeEventsFromSite(url, sourceName)`: a failed fetch, and a source
   * name with no extractor, yield no events.
   */
  function ScrapeSite(env: Env, url: string, sourceName: string): (events: seq<EventFields>)
    ensures env.fetch(url).None? ==> events == []
    ensures sourceName != SydneyEvents && sourceName != SydneyConcerts && sourceName != SydneyCom ==> events == []
    ensures forall e :: e in events ==> e.source == sourceName
    ensures sourceName == SydneyCom ==> forall e :: e in events ==> SydneyComRecord(e)
    ensures (sourceName == SydneyEvents || sourceName == SydneyConcerts) && env.fetch(url).Some? ==>
              |events| == |env.fetch(url).value.cards|
    ensures (sourceName == SydneyEvents || sourceName == SydneyConcerts) && env.fetch(url).Some? ==>
              events == CardEvents(env.fetch(url).value.cards, sourceName)
    ensures sourceName == SydneyCom && env.fetch(url).Some? ==> events == SydneyComEvents(env, env.fetch(url).value)
  {
    match env.fetch(url)
    case None => []
    case Some(page) =>
      if sourceName == SydneyEvents || sourceName == SydneyConcerts then CardEvents(page.cards, sourceName)
      else if sourceName == SydneyCom then SydneyComEvents(env, page)
      else []
  }
}
