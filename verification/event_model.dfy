/**
 * The stored event record (the `Event` schema): its fields, the unique
 * compound key `(sourceId, source)`, the required-field validation a new
 * document goes through, and the `createdAt`/`updatedAt` defaults.
 */
module EventModel {
  import opened JsValues

  /**
   * The `date` field. Dates are opaque: `new Date(text)` is kept as the text
   * it was built from, `new Date()` as the instant it was taken.
   */
  datatype DateValue = ParsedDate(text: string) | CurrentInstant(ms: nat)

  /**
   * An event as the scraper hands it to the database. Fields filled from an
   * attribute (`src`, `href`, `data-id`) may be `undefined`; text fields are
   * always strings, possibly empty.
   */
  datatype EventFields = EventFields(
    title: string,
    description: string,
    date: DateValue,
    time: string,
    venue: string,
    imageUrl: Option<string>,
    ticketUrl: Option<string>,
    price: string,
    source: string,
    sourceId: Option<string>)

  /** The unique compound index `{ sourceId: 1, source: 1 }`. */
  datatype Key = Key(sourceId: Option<string>, source: string)

  function KeyOf(e: EventFields): Key
  {
    Key(e.sourceId, e.source)
  }

  /** A stored document: the event's fields and its two timestamps (ms since the epoch). */
  datatype StoredEvent = StoredEvent(fields: EventFields, createdAt: nat, updatedAt: nat)

  /** The events collection, indexed by the unique key. */
  type Store = map<Key, StoredEvent>

  /** Every document sits under its own key: at most one document per `(sourceId, source)`. */
  predicate UniqueKeys(s: Store)
  {
    forall k :: k in s ==> KeyOf(s[k].fields) == k
  }

  /** The schema's required paths. */
  datatype Path = Title | Description | Date | Time | Venue | ImageUrl | TicketUrl | Price | Source | SourceId

  /** The required paths in declaration order. */
  const RequiredPaths: seq<Path> :=
    [Title, Description, Date, Time, Venue, ImageUrl, TicketUrl, Price, Source, SourceId]

  /**
   * Whether a document satisfies `required: true` on one path: a string path
   * needs a non-empty string; `date` always holds a Date object here.
   */
  predicate Satisfies(e: EventFields, p: Path)
  {
    match p
    case Title => e.title != ""
    case Description => e.description != ""
    case Date => true
    case Time => e.time != ""
    case Venue => e.venue != ""
    case ImageUrl => Truthy(e.imageUrl)
    case TicketUrl => Truthy(e.ticketUrl)
    case Price => e.price != ""
    case Source => e.source != ""
    case SourceId => Truthy(e.sourceId)
  }

  predicate HasAllRequired(e: EventFields)
  {
    && e.title != "" && e.description != "" && e.time != "" && e.venue != ""
    && Truthy(e.imageUrl) && Truthy(e.ticketUrl) && e.price != ""
    && e.source != "" && Truthy(e.sourceId)
  }

  /** The paths of `paths` that a document fails, in order. */
  function Failing(e: EventFields, paths: seq<Path>): (missing: seq<Path>)
    ensures forall p :: p in missing <==> p in paths && !Satisfies(e, p)
  {
    if |paths| == 0 then []
    else (if Satisfies(e, paths[0]) then [] else [paths[0]]) + Failing(e, paths[1..])
  }

  lemma EveryPathRequired(p: Path)
    ensures p in RequiredPaths
  {
    var i := match p
      case Title => 0 case Description => 1 case Date => 2 case Time => 3 case Venue => 4
      case ImageUrl => 5 case TicketUrl => 6 case Price => 7 case Source => 8 case SourceId => 9;
    assert RequiredPaths[i] == p;
  }

  /** A document meets every `required` exactly when it has all required fields. */
  lemma SatisfiesAll(e: EventFields)
    ensures HasAllRequired(e) <==> forall p :: Satisfies(e, p)
  {
    if !HasAllRequired(e) {
      var p :=
        if e.title == "" then Title else if e.description == "" then Description
        else if e.time == "" then Time else if e.venue == "" then Venue
        else if !Truthy(e.imageUrl) then ImageUrl else if !Truthy(e.ticketUrl) then TicketUrl
        else if e.price == "" then Price else if e.source == "" then Source else SourceId;
      assert !Satisfies(e, p);
    }
  }

  /** The required paths a document fails, in declaration order. */
  function MissingPaths(e: EventFields): (missing: seq<Path>)
    ensures forall p :: p in missing <==> !Satisfies(e, p)
    ensures |missing| == 0 <==> HasAllRequired(e)
  {
    var missing := Failing(e, RequiredPaths);
    assert forall p: Path :: p in RequiredPaths by {
      forall p: Path ensures p in RequiredPaths { EveryPathRequired(p); }
    }
    SatisfiesAll(e);
    assert |missing| > 0 ==> missing[0] in missing;
    missing
  }

  datatype Creation = Created(doc: StoredEvent) | Invalid(missing: seq<Path>)

  /**
   * `new Event(fields)` followed by validation: rejected when a required path
   * is missing, otherwise a document whose timestamps default to `now`
   * unless supplied.
   */
  function NewDocument(e: EventFields, createdAt: Option<nat>, updatedAt: Option<nat>, now: nat): (r: Creation)
    ensures r.Created? <==> HasAllRequired(e)
    ensures r.Created? ==> r.doc.fields == e
    ensures r.Created? ==> r.doc.createdAt == (if createdAt.Some? then createdAt.value else now)
    ensures r.Created? ==> r.doc.updatedAt == (if updatedAt.Some? then updatedAt.value else now)
    ensures r.Invalid? ==> |r.missing| > 0 && forall p :: p in r.missing <==> !Satisfies(e, p)
  {
    var missing := MissingPaths(e);
    if |missing| > 0 then Invalid(missing)
    else Created(StoredEvent(e, createdAt.GetOr(now), updatedAt.GetOr(now)))
  }
}
