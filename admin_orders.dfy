/** `app/routers/admin_orders.py`: the delivery update `admin_accept`
    performs inside its transaction, the guard of `admin_complete`, and the
    `admin_list_orders` read. The accept guard and the queued record are
    those of the owner's endpoint. `admin_accept` calls `send_push_to_tokens`,
    which the push module does not define; it is taken here to be
    `send_fcm_to_tokens` answering with its `sent` count and its `results`. */
module AdminOrders {
  import opened Common
  import opened Tables
  import opened Push
  import Listing
  import OrdersAccept

  /** The bound on the stored error text of `admin_accept`. */
  const ErrorLimit: nat := 4000

  /** The largest number of devices `admin_accept` pushes to. */
  const TokenLimit: nat := 20

  /** Decimal digits of `n`. */
  function DecimalText(n: nat): (r: string)
    ensures |r| >= 1
    decreases n
  {
    var d := ["0", "1", "2", "3", "4", "5", "6", "7", "8", "9"][n % 10];
    if n < 10 then d else DecimalText(n / 10) + d
  }

  /** Stand-in for `json.dumps({"tokens": len(tokens), "results": results})`. */
  function FailureText(tokenCount: nat, results: seq<string>): (r: string)
    ensures |r| > 0
  {
    "{\"tokens\": " + DecimalText(tokenCount) + ", \"results\": [" + Join(results) + "]}"
  }

  /** The update `admin_accept` applies to its queued record once the push
      call returns: sent at `now` with no error only when there were tokens
      and at least one was delivered; otherwise failed with the rendered
      reply cut to 4000 characters; an exception from the provider is caught
      and stored, cut to 4000 characters. A failed record gets no send time. */
  function AdminFollowUp(n: NotificationRow, tokens: seq<string>, reply: PushReply, now: int): (r: NotificationRow)
    ensures r.orderId == n.orderId && r.userId == n.userId && r.channel == n.channel
    ensures r.title == n.title && r.body == n.body && r.payload == n.payload && r.createdAt == n.createdAt
    ensures r.sendStatus == Sent <==> tokens != [] && reply.Replied? && reply.sent > 0
    ensures r.sendStatus == Sent ==> r.errorMessage.None? && r.sentAt == Some(now)
    ensures r.sendStatus != Sent ==>
      r.sendStatus == Failed && r.sentAt == n.sentAt && r.errorMessage.Some? && |r.errorMessage.value| <= ErrorLimit
    ensures reply.Raised? ==> r.errorMessage == Some(Truncate(reply.message, ErrorLimit))
    ensures NotificationWellFormed(r)
  {
    match reply
    case Raised(m) => n.(sendStatus := Failed, errorMessage := Some(Truncate(m, ErrorLimit)))
    case Replied(sent, _, results) =>
      if tokens != [] && sent > 0 then n.(sendStatus := Sent, sentAt := Some(now), errorMessage := None)
      else n.(sendStatus := Failed, errorMessage := Some(Truncate(FailureText(|tokens|, results), ErrorLimit)))
  }

  /** With no tokens the push call is answered locally, so the record is
      always failed and the provider is never consulted. */
  lemma {:induction false} AdminNoTokensFails(n: NotificationRow, provider: Provider, call: nat, now: int)
    ensures AdminFollowUp(n, [], SendFcm(provider, call, []), now).sendStatus == Failed
    ensures AdminFollowUp(n, [], SendFcm(provider, call, []), now).errorMessage ==
      Some(FailureText(0, []))
  {
    assert |FailureText(0, [])| <= ErrorLimit by {
      assert DecimalText(0) == "0";
    }
  }

  /** The two accept endpoints judge the same reply differently: a partial
      delivery is a success for `admin_accept` and a failure for
      `accept_order`. */
  lemma {:induction false} AcceptCriteriaDiffer(n: NotificationRow, tokens: seq<string>, reply: PushReply, now: int)
    requires tokens != [] && reply.Replied?
    ensures reply.sent > 0 && reply.failed > 0 ==>
      AdminFollowUp(n, tokens, reply, now).sendStatus == Sent &&
      OrdersAccept.AcceptFollowUp(n, |tokens|, reply, now).note.sendStatus == Failed
  {
  }

  /** The guard of `admin_complete`: 404 for a missing order, 400 naming a
      CANCELED or COMPLETED status; an order may be completed from PLACED as
      well as from ACCEPTED. */
  function CompleteGuard(orders: seq<OrderRow>, id: nat): (r: Outcome)
    ensures r == Pass <==> id < |orders| && orders[id].status in {Placed, Accepted}
    ensures id >= |orders| ==> r == Fail(OrderNotFound)
    ensures id < |orders| && orders[id].status in {Canceled, Completed} ==>
      r == Fail(CannotComplete(orders[id].status))
  {
    if id >= |orders| then Fail(OrderNotFound)
    else match orders[id].status
      case Canceled => Fail(CannotComplete(Canceled))
      case Completed => Fail(CannotComplete(Completed))
      case Placed => Pass
      case Accepted => Pass
  }

  /** `admin_list_orders`: ids of the orders whose status is named `status`
      (all orders when it is not given), newest first, at most `limit`. */
  function AdminListOrders(orders: seq<OrderRow>, status: Option<string>, limit: int): (r: Result<seq<nat>>)
    ensures r.Err? <==> limit < 0
    ensures r.Err? ==> r.error == NegativeLimit
    ensures r.Ok? ==> |r.value| <= limit
    ensures r.Ok? ==> forall i :: 0 <= i < |r.value| ==>
      r.value[i] < |orders| && (Truthy(status) ==> orders[r.value[i]].status.Name() == status.value)
    ensures r.Ok? ==> forall i, j :: 0 <= i < j < |r.value| ==> r.value[i] > r.value[j]
    ensures r.Ok? ==> forall o :: (0 <= o < |orders| && (!Truthy(status) || orders[o].status.Name() == status.value) &&
                                o !in r.value) ==>
      |r.value| == limit && forall i :: 0 <= i < |r.value| ==> r.value[i] > o
  {
    if limit < 0 then Err(NegativeLimit)
    else Ok(Listing.NewestMatching(orders, (o: OrderRow) => !Truthy(status) || o.status.Name() == status.value,
                                   limit, |orders|))
  }

  /** A status text that names no status selects nothing. */
  lemma {:induction false} UnknownStatusSelectsNothing(orders: seq<OrderRow>, s: string, limit: nat)
    requires s != "" && forall st: Status :: st.Name() != s
    ensures AdminListOrders(orders, Some(s), limit) == Ok([])
  {
    SelectionNamesStatus(orders, s, limit);
  }

  /** A given status text that selects some order is the name of that order's status. */
  lemma {:induction false} SelectionNamesStatus(orders: seq<OrderRow>, s: string, limit: nat)
    requires s != ""
    ensures |AdminListOrders(orders, Some(s), limit).value| > 0 ==> exists st: Status :: st.Name() == s
  {
    var r := AdminListOrders(orders, Some(s), limit).value;
    if |r| > 0 {
      var st := orders[r[0]].status;
      assert st.Name() == s;
    }
  }

  /** "READY", a status name the enum does not define, selects nothing. */
  lemma {:induction false} NoStatusNamedReady(orders: seq<OrderRow>, limit: nat)
    ensures forall st: Status :: st.Name() != "READY"
    ensures AdminListOrders(orders, Some("READY"), limit) == Ok([])
  {
    forall st: Status ensures st.Name() != "READY" {
      assert "READY"[0] == 'R';
    }
    UnknownStatusSelectsNothing(orders, "READY", limit);
  }
}
