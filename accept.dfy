/** `app/routers/orders_accept.py`, the owner's accept endpoint: the guard it
    shares with `admin_accept`, the queued notification record both accept
    endpoints insert, and the delivery update `accept_order` performs after
    its transaction has committed, both as written (it reads reply keys the
    provider never returns) and as evidently intended. */
module OrdersAccept {
  import opened Common
  import opened Tables
  import opened Push
  import Devices

  /** The notification title of both accept endpoints. */
  const Title: string := "임진매운갈비"

  /** The notification body used when the caller gives no message. */
  const DefaultBody: string := "조리가 시작되었습니다! 잠시만 기다려 주세요 😊"

  /** The error text of the bulk update when the customer has no usable token. */
  const NoTokensText: string := "no active fcm tokens"

  /** `payload.message or <default>`: the caller's message unless it is
      missing or empty, in which case the default text. */
  function BodyFor(message: Option<string>): (r: string)
    ensures r != ""
    ensures message.Some? && message.value != "" ==> r == message.value
    ensures message.None? || message.value == "" ==> r == DefaultBody
  {
    if message.Some? && message.value != "" then message.value else DefaultBody
  }

  datatype AcceptStep =
    | Proceed(prev: Status)     // write the acceptance
    | AlreadyAccepted           // idempotent answer, nothing written
    | Refuse(error: Error)

  /** The guard of both accept endpoints: 404 for a missing order, 400
      naming a CANCELED or COMPLETED status, the idempotent answer for an
      ACCEPTED order, and otherwise the acceptance, which is then from PLACED. */
  function AcceptGuard(orders: seq<OrderRow>, id: nat): (r: AcceptStep)
    ensures id >= |orders| ==> r == Refuse(OrderNotFound)
    ensures id < |orders| && orders[id].status in {Canceled, Completed} ==>
      r == Refuse(CannotAccept(orders[id].status))
    ensures r == AlreadyAccepted <==> id < |orders| && orders[id].status == Accepted
    ensures r.Proceed? <==> id < |orders| && orders[id].status == Placed
    ensures r.Proceed? ==> r.prev == Placed
  {
    if id >= |orders| then Refuse(OrderNotFound)
    else
      match orders[id].status
      case Canceled => Refuse(CannotAccept(Canceled))
      case Completed => Refuse(CannotAccept(Completed))
      case Accepted => AlreadyAccepted
      case Placed => Proceed(Placed)
  }

  /** The token lookup of `accept_order`: the usable devices of the order's
      customer, in table order, and none when the order has no customer. */
  function AcceptTokens(devices: seq<Devices.Device>, customerId: Option<string>): (r: seq<string>)
    ensures !Truthy(customerId) ==> r == []
    ensures Truthy(customerId) ==>
      forall t :: t in r <==> exists d :: d in devices && Devices.Usable(d, customerId) && d.fcmToken == t
    ensures Truthy(customerId) ==> Devices.CountsTokensOf(Devices.ActiveOf(devices, customerId), r)
  {
    if Truthy(customerId) then Devices.ActiveTokens(devices, customerId) else []
  }

  /** The record both accept endpoints insert in their transaction: a queued
      `fcm` message to the order's customer, with the fixed title, the body
      chosen from the message, and the order/next-status payload. */
  function QueuedNote(orderId: nat, customerId: Option<string>, message: Option<string>, now: int): (r: NotificationRow)
    ensures r.orderId == orderId && r.userId == customerId
    ensures r.channel == "fcm" && r.title == Title && r.body == BodyFor(message)
    ensures r.payload == OrderStatusPayload(orderId, Accepted)
    ensures r.sendStatus == Queued && NotificationWellFormed(r)
  {
    NotificationRow(orderId, customerId, "fcm", Title, BodyFor(message), OrderStatusPayload(orderId, Accepted),
                    Queued, None, now, None)
  }

  /** What `accept_order` reports about delivery. */
  datatype Notified =
    | Skipped                                       // already accepted
    | Notified(tokens: nat, success: int, failure: int)

  /** The record after the post-commit unit of work, and the endpoint's answer. */
  datatype FollowUp = FollowUp(note: NotificationRow, response: Result<Notified>)

  /** The post-commit step of `accept_order` for a non-empty token list AS
      WRITTEN: an exception from the provider escapes, and any reply fails
      at `resp["success"]`, a key the provider never returns. Either way the
      record keeps its queued state and the endpoint answers 500, although
      the order is already accepted and the push may have been delivered. */
  function AcceptFollowUpAsWritten(n: NotificationRow, tokenCount: nat, reply: PushReply, now: int): (r: FollowUp)
    ensures r.note == n
    ensures r.response.Err? && r.response.error.HttpStatus() == 500
  {
    match reply
    case Raised(m) => FollowUp(n, Err(Unhandled(m)))
    case Replied(_, _, _) => FollowUp(n, Err(Unhandled("KeyError: 'success'")))
  }

  /** The post-commit step of `accept_order` for a non-empty token list as
      evidently intended, reading the provider's `sent`, `failed` and
      `results`: no failure marks the record sent at `now` with no error;
      otherwise it is failed with the first three results as its text and no
      send time. A provider exception still escapes (500) and leaves the
      record queued. */
  function AcceptFollowUp(n: NotificationRow, tokenCount: nat, reply: PushReply, now: int): (r: FollowUp)
    ensures r.note.orderId == n.orderId && r.note.userId == n.userId && r.note.channel == n.channel
    ensures r.note.title == n.title && r.note.body == n.body && r.note.payload == n.payload
    ensures r.note.createdAt == n.createdAt
    ensures reply.Raised? ==> r == FollowUp(n, Err(Unhandled(reply.message)))
    ensures reply.Replied? ==> r.response == Ok(Notified(tokenCount, reply.sent, reply.failed))
    ensures reply.Replied? && reply.failed == 0 ==>
      r.note.sendStatus == Sent && r.note.errorMessage.None? && r.note.sentAt == Some(now)
    ensures reply.Replied? && reply.failed != 0 ==>
      r.note.sendStatus == Failed && r.note.sentAt == n.sentAt &&
      r.note.errorMessage == Some(Join(reply.results[..Min(3, |reply.results|)]))
    ensures NotificationWellFormed(n) ==> NotificationWellFormed(r.note)
  {
    match reply
    case Raised(m) => FollowUp(n, Err(Unhandled(m)))
    case Replied(sent, failed, results) =>
      var note :=
        if failed == 0 then n.(sendStatus := Sent, sentAt := Some(now), errorMessage := None)
        else n.(sendStatus := Failed, errorMessage := Some(Join(results[..Min(3, |results|)])));
      FollowUp(note, Ok(Notified(tokenCount, sent, failed)))
  }

  /** The as-written step never records a delivery: a reply reporting every
      token delivered leaves the record queued, where the intended step
      marks it sent. */
  lemma {:induction false} KeyErrorLeavesQueued(n: NotificationRow, tokenCount: nat, now: int)
    requires n.sendStatus == Queued && NotificationWellFormed(n)
    ensures AcceptFollowUpAsWritten(n, tokenCount, Replied(1, 0, ["ok"]), now).note.sendStatus == Queued
    ensures AcceptFollowUpAsWritten(n, tokenCount, Replied(1, 0, ["ok"]), now).response ==
      Err(Unhandled("KeyError: 'success'"))
    ensures AcceptFollowUp(n, tokenCount, Replied(1, 0, ["ok"]), now).note.sendStatus == Sent
    ensures AcceptFollowUp(n, tokenCount, Replied(1, 0, ["ok"]), now).response == Ok(Notified(tokenCount, 1, 0))
  {
  }

  /** SQL equality: a NULL on either side matches nothing. */
  predicate SqlEq(column: Option<string>, param: Option<string>)
  {
    column.Some? && param.Some? && column.value == param.value
  }

  /** The no-token branch of `accept_order`: every queued `fcm` record of the
      order for `user_id = user` becomes failed with the no-token text; all
      other records are untouched. */
  function MarkNoTokens(notes: seq<NotificationRow>, orderId: nat, user: Option<string>): (r: seq<NotificationRow>)
    ensures |r| == |notes|
    ensures forall k :: 0 <= k < |notes| ==>
      r[k] == (if notes[k].orderId == orderId && SqlEq(notes[k].userId, user) && notes[k].channel == "fcm" &&
                  notes[k].sendStatus == Queued
               then notes[k].(sendStatus := Failed, errorMessage := Some(NoTokensText))
               else notes[k])
  {
    seq(|notes|, k requires 0 <= k < |notes| =>
      if notes[k].orderId == orderId && SqlEq(notes[k].userId, user) && notes[k].channel == "fcm" &&
         notes[k].sendStatus == Queued
      then notes[k].(sendStatus := Failed, errorMessage := Some(NoTokensText))
      else notes[k])
  }

  /** The bulk update keeps every record's order and target, keeps records
      well formed, and leaves no matching record queued. */
  lemma {:induction false} MarkNoTokensKeeps(notes: seq<NotificationRow>, orderId: nat, user: Option<string>)
    ensures forall k :: 0 <= k < |notes| ==>
      && MarkNoTokens(notes, orderId, user)[k].orderId == notes[k].orderId
      && MarkNoTokens(notes, orderId, user)[k].userId == notes[k].userId
      && (NotificationWellFormed(notes[k]) ==> NotificationWellFormed(MarkNoTokens(notes, orderId, user)[k]))
    ensures forall k :: 0 <= k < |notes| && notes[k].orderId == orderId && SqlEq(notes[k].userId, user) &&
                        notes[k].channel == "fcm" ==>
      MarkNoTokens(notes, orderId, user)[k].sendStatus != Queued
  {
  }

  /** For an order without a customer the bulk update compares `user_id`
      with NULL, matches nothing, and the guest's record stays queued. */
  lemma {:induction false} MarkNoTokensGuest(notes: seq<NotificationRow>, orderId: nat)
    ensures MarkNoTokens(notes, orderId, None) == notes
  {
    var r := MarkNoTokens(notes, orderId, None);
    assert forall k :: 0 <= k < |notes| ==> r[k] == notes[k];
  }
}
