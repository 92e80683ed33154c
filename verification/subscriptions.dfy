/**
 * The `POST /` handler of the subscription routes: validate the body, look
 * the event up, save the subscription, send a confirmation email when the
 * visitor opted in, and answer with the event's ticket link. An exception
 * from the lookup or the save is answered with 500; the email helper
 * catches its own errors, so sending never fails the request.
 */
module Subscriptions {
  import opened JsValues
  import opened EventModel

  /**
   * The request body. `email` and `eventId` are strings or absent; `optIn`
   * is a JSON boolean or absent.
   */
  datatype Body = Body(email: Option<string>, optIn: Option<bool>, eventId: Option<string>)

  /** A saved `Subscription` document; `optIn` defaults to false. */
  datatype Subscription = Subscription(email: string, optIn: bool, eventId: string)

  /** What `Event.findById(eventId)` gives: the event, `null`, or an exception. */
  datatype Lookup = Found(event: StoredEvent) | Missing | LookupThrows

  /** The handler's visible actions, in the order they happen. */
  datatype Effect =
    | LookedUp(eventId: string)
    | Saved(subscription: Subscription)
    | Emailed(to: string, title: string)   // a send attempt; its result is ignored

  datatype Reply =
    | BadRequest                          // 400, email and eventId are required
    | EventNotFound                       // 404
    | ServerError                         // 500
    | Succeeded(ticketUrl: Option<string>) // 200, with the ticket link to follow

  /** The HTTP status code each answer is sent with. */
  function Status(r: Reply): (code: int)
    ensures code in {200, 400, 404, 500}
  {
    match r
    case BadRequest => 400
    case EventNotFound => 404
    case ServerError => 500
    case Succeeded(_) => 200
  }

  datatype Handled = Handled(reply: Reply, effects: seq<Effect>)

  /** The body carries both required values. */
  predicate Complete(b: Body)
  {
    Truthy(b.email) && Truthy(b.eventId)
  }

  /** `if (optIn)`: only a JSON `true` is truthy among the values modelled. */
  predicate OptedIn(b: Body)
  {
    b.optIn == Some(true)
  }

  /** The subscription a complete body creates. */
  function SubscriptionOf(b: Body): Subscription
    requires Complete(b)
  {
    Subscription(b.email.value, b.optIn.GetOr(false), b.eventId.value)
  }

  /** Whether the handler went on after saving: the number of `Saved` effects. */
  function SaveCount(effects: seq<Effect>): nat
  {
    if |effects| == 0 then 0 else SaveCount(effects[..|effects| - 1]) + (if effects[|effects| - 1].Saved? then 1 else 0)
  }

  /**
   * The handler. `find` stands for `Event.findById` and `saveOk` for
   * whether `subscription.save()` resolves.
   */
  function Subscribe(b: Body, find: string -> Lookup, saveOk: bool): (h: Handled)
    ensures h.reply.BadRequest? <==> !Complete(b)
    ensures h.reply.BadRequest? ==> h.effects == []
    ensures Complete(b) ==> |h.effects| > 0 && h.effects[0] == LookedUp(b.eventId.value)
    ensures h.reply.EventNotFound? <==> Complete(b) && find(b.eventId.value).Missing?
    ensures h.reply.EventNotFound? ==> SaveCount(h.effects) == 0
    ensures SaveCount(h.effects) <= 1
    ensures forall i :: 0 <= i < |h.effects| && h.effects[i].Saved? ==> h.effects[i].subscription == SubscriptionOf(b)
    ensures forall i, j :: 0 <= i < |h.effects| && 0 <= j < |h.effects| && h.effects[i].Saved? && h.effects[j].Emailed? ==> i < j
    ensures h.reply.Succeeded? ==> SaveCount(h.effects) == 1
    ensures (exists i :: 0 <= i < |h.effects| && h.effects[i].Emailed?) <==> h.reply.Succeeded? && OptedIn(b)
    ensures forall i :: 0 <= i < |h.effects| && h.effects[i].Emailed? ==> h.effects[i].to == b.email.value
    ensures h.reply.Succeeded? ==> find(b.eventId.value).Found? && h.reply.ticketUrl == find(b.eventId.value).event.fields.ticketUrl
    ensures h.reply.ServerError? <==>
              Complete(b) && (find(b.eventId.value).LookupThrows? || (find(b.eventId.value).Found? && !saveOk))
  {
    if !Complete(b) then Handled(BadRequest, [])
    else
      var id := b.eventId.value;
      match find(id)
      case LookupThrows => Handled(ServerError, [LookedUp(id)])
      case Missing => Handled(EventNotFound, [LookedUp(id)])
      case Found(event) =>
        if !saveOk then Handled(ServerError, [LookedUp(id)])
        else
          var saved := [LookedUp(id), Saved(SubscriptionOf(b))];
          assert SaveCount(saved) == 1 by { assert saved[..1] == [LookedUp(id)]; }
          if !OptedIn(b) then Handled(Succeeded(event.fields.ticketUrl), saved)
          else
            var all := saved + [Emailed(b.email.value, event.fields.title)];
            assert all[..2] == saved;
            Handled(Succeeded(event.fields.ticketUrl), all)
  }

  /** The handler answers 200 exactly when the event is found and the subscription saved. */
  lemma SucceedsIff(b: Body, find: string -> Lookup, saveOk: bool)
    ensures Subscribe(b, find, saveOk).reply.Succeeded? <==>
              Complete(b) && find(b.eventId.value).Found? && saveOk
  {
  }

  /** The status codes the handler answers with, and when. */
  lemma SubscribeStatus(b: Body, find: string -> Lookup, saveOk: bool)
    ensures var code := Status(Subscribe(b, find, saveOk).reply);
            && (code == 400 <==> !Complete(b))
            && (code == 404 <==> Complete(b) && find(b.eventId.value).Missing?)
            && (code == 500 <==> Complete(b) && (find(b.eventId.value).LookupThrows? || (find(b.eventId.value).Found? && !saveOk)))
            && (code == 200 <==> Complete(b) && find(b.eventId.value).Found? && saveOk)
  {
  }

  /**
   * Opting in leaves the answer unchanged; apart from the stored optIn
   * flag, the only extra effect is the send attempt after the save.
   */
  lemma OptInOnlyAddsEmail(email: Option<string>, eventId: Option<string>, find: string -> Lookup, saveOk: bool)
    ensures var opted := Subscribe(Body(email, Some(true), eventId), find, saveOk);
            var plain := Subscribe(Body(email, None, eventId), find, saveOk);
            && opted.reply == plain.reply
            && (opted.reply.Succeeded? ==>
                  |opted.effects| == |plain.effects| + 1 && opted.effects[..1] == plain.effects[..1]
                  && opted.effects[|plain.effects|] == Emailed(email.value, find(eventId.value).event.fields.title))
  {
  }
}
