/** The rows of the five tables the core writes (`orders`, `order_items`,
    `order_item_options`, `order_status_logs`, `notification_logs`), the
    consistency the endpoints keep between them, and the lemmas showing that
    the shapes of update the endpoints perform keep it. Tables are
    append-only sequences; a row's identifier is its position, and position
    order is creation order. */
module Tables {
  import opened Common

  datatype OrderRow = OrderRow(
    orderNo: nat,
    customerId: Option<string>,
    status: Status,
    customerNote: Option<string>,
    totalAmount: int,
    createdAt: int,
    acceptedAt: Option<int>,
    completedAt: Option<int>,
    canceledAt: Option<int>)

  datatype ItemRow = ItemRow(
    orderId: nat,
    menuItemId: string,
    nameSnapshot: string,
    priceSnapshot: int,
    qty: int,
    lineAmount: int)

  datatype ItemOptionRow = ItemOptionRow(
    orderItemId: nat,
    optionKey: string,
    optionName: string,
    valueKey: string,
    valueLabel: string,
    priceDelta: int)

  datatype StatusLog = StatusLog(
    orderId: nat,
    fromStatus: Option<Status>,
    toStatus: Status,
    changedBy: Option<string>)

  datatype SendStatus = Queued | Sent | Failed

  /** The JSON data payload `{"type": "order_status", "orderId": …, "nextStatus": …}`. */
  datatype Payload = OrderStatusPayload(orderId: nat, nextStatus: Status)

  datatype NotificationRow = NotificationRow(
    orderId: nat,
    userId: Option<string>,
    channel: string,
    title: string,
    body: string,
    payload: Payload,
    sendStatus: SendStatus,
    errorMessage: Option<string>,
    createdAt: int,
    sentAt: Option<int>)

  // ---- aggregates over the tables ----

  /** Sum of the line amounts of the lines of order `o`. */
  function ItemsTotal(items: seq<ItemRow>, o: nat): int
  {
    if items == [] then 0
    else
      var last := items[|items| - 1];
      ItemsTotal(items[..|items| - 1], o) + (if last.orderId == o then last.lineAmount else 0)
  }

  /** Sum of the price deltas of the option rows of line `k`. */
  function OptionsDelta(opts: seq<ItemOptionRow>, k: nat): int
  {
    if opts == [] then 0
    else
      var last := opts[|opts| - 1];
      OptionsDelta(opts[..|opts| - 1], k) + (if last.orderItemId == k then last.priceDelta else 0)
  }

  /** The target status of the most recent log entry of order `o`. */
  function LastLog(logs: seq<StatusLog>, o: nat): Option<Status>
  {
    if logs == [] then None
    else if logs[|logs| - 1].orderId == o then Some(logs[|logs| - 1].toStatus)
    else LastLog(logs[..|logs| - 1], o)
  }

  /** Number of notification records of order `o`. */
  function NotesFor(notes: seq<NotificationRow>, o: nat): nat
  {
    if notes == [] then 0
    else NotesFor(notes[..|notes| - 1], o) + (if notes[|notes| - 1].orderId == o then 1 else 0)
  }

  lemma {:induction false} ItemsTotalAppend(a: seq<ItemRow>, b: seq<ItemRow>, o: nat)
    ensures ItemsTotal(a + b, o) == ItemsTotal(a, o) + ItemsTotal(b, o)
  {
    if b != [] {
      assert (a + b)[..|a + b| - 1] == a + b[..|b| - 1];
      ItemsTotalAppend(a, b[..|b| - 1], o);
    } else {
      assert a + b == a;
    }
  }

  lemma {:induction false} ItemsTotalUnrelated(items: seq<ItemRow>, o: nat)
    requires forall k :: 0 <= k < |items| ==> items[k].orderId != o
    ensures ItemsTotal(items, o) == 0
  {
    if items != [] {
      ItemsTotalUnrelated(items[..|items| - 1], o);
    }
  }

  lemma {:induction false} OptionsDeltaAppend(a: seq<ItemOptionRow>, b: seq<ItemOptionRow>, k: nat)
    ensures OptionsDelta(a + b, k) == OptionsDelta(a, k) + OptionsDelta(b, k)
  {
    if b != [] {
      assert (a + b)[..|a + b| - 1] == a + b[..|b| - 1];
      OptionsDeltaAppend(a, b[..|b| - 1], k);
    } else {
      assert a + b == a;
    }
  }

  lemma {:induction false} OptionsDeltaUnrelated(opts: seq<ItemOptionRow>, k: nat)
    requires forall j :: 0 <= j < |opts| ==> opts[j].orderItemId != k
    ensures OptionsDelta(opts, k) == 0
  {
    if opts != [] {
      OptionsDeltaUnrelated(opts[..|opts| - 1], k);
    }
  }

  lemma {:induction false} LastLogAppend(logs: seq<StatusLog>, e: StatusLog, o: nat)
    ensures LastLog(logs + [e], o) == if e.orderId == o then Some(e.toStatus) else LastLog(logs, o)
  {
    assert (logs + [e])[..|logs|] == logs;
  }

  lemma {:induction false} NotesForAppend(notes: seq<NotificationRow>, n: NotificationRow, o: nat)
    ensures NotesFor(notes + [n], o) == NotesFor(notes, o) + (if n.orderId == o then 1 else 0)
  {
    assert (notes + [n])[..|notes|] == notes;
  }

  /** Rewriting records without changing which order they belong to keeps the counts. */
  lemma {:induction false} NotesForSameOrders(a: seq<NotificationRow>, b: seq<NotificationRow>, o: nat)
    requires |a| == |b|
    requires forall k :: 0 <= k < |a| ==> a[k].orderId == b[k].orderId
    ensures NotesFor(a, o) == NotesFor(b, o)
  {
    if a != [] {
      NotesForSameOrders(a[..|a| - 1], b[..|b| - 1], o);
    }
  }

  // ---- the consistency kept between the tables ----

  /** Each lifecycle timestamp is set exactly by the transition that owns it. */
  ghost predicate StampsAgree(o: OrderRow)
  {
    match o.status
    case Placed => o.acceptedAt.None? && o.completedAt.None? && o.canceledAt.None?
    case Accepted => o.acceptedAt.Some? && o.completedAt.None? && o.canceledAt.None?
    case Completed => o.completedAt.Some? && o.canceledAt.None?
    case Canceled => o.canceledAt.Some? && o.acceptedAt.None? && o.completedAt.None?
  }

  /** Queued records carry neither error nor send time; sent ones carry a send
      time and no error; failed ones carry an error. */
  ghost predicate NotificationWellFormed(n: NotificationRow)
  {
    match n.sendStatus
    case Queued => n.errorMessage.None? && n.sentAt.None?
    case Sent => n.errorMessage.None? && n.sentAt.Some?
    case Failed => n.errorMessage.Some?
  }

  ghost predicate OrdersValid(orders: seq<OrderRow>)
  {
    forall o :: 0 <= o < |orders| ==> orders[o].orderNo == o + 1 && StampsAgree(orders[o])
  }

  /** Every line belongs to an order and every option row to a line; an
      order's total is the sum of its lines, and a line's amount is its unit
      price plus its option deltas, times its quantity. */
  ghost predicate ItemsValid(orders: seq<OrderRow>, items: seq<ItemRow>, opts: seq<ItemOptionRow>)
  {
    && (forall k :: 0 <= k < |items| ==> items[k].orderId < |orders|)
    && (forall j :: 0 <= j < |opts| ==> opts[j].orderItemId < |items|)
    && (forall o :: 0 <= o < |orders| ==> orders[o].totalAmount == ItemsTotal(items, o))
    && (forall k :: 0 <= k < |items| ==>
          items[k].lineAmount == (items[k].priceSnapshot + OptionsDelta(opts, k)) * items[k].qty)
  }

  /** The status of an order is always the target of its latest log entry. */
  ghost predicate LogsValid(orders: seq<OrderRow>, logs: seq<StatusLog>)
  {
    && (forall k :: 0 <= k < |logs| ==> logs[k].orderId < |orders|)
    && (forall o :: 0 <= o < |orders| ==> LastLog(logs, o) == Some(orders[o].status))
  }

  /** Each record targets its order's customer, and an order has exactly one
      notification record once it has been accepted and none before. */
  ghost predicate NotesValid(orders: seq<OrderRow>, notes: seq<NotificationRow>)
  {
    && (forall k :: 0 <= k < |notes| ==>
          && notes[k].orderId < |orders|
          && notes[k].userId == orders[notes[k].orderId].customerId
          && NotificationWellFormed(notes[k]))
    && (forall o :: 0 <= o < |orders| ==> NotesFor(notes, o) == if orders[o].acceptedAt.Some? then 1 else 0)
  }

  ghost predicate Consistent(orders: seq<OrderRow>, items: seq<ItemRow>, opts: seq<ItemOptionRow>,
                             logs: seq<StatusLog>, notes: seq<NotificationRow>)
  {
    OrdersValid(orders) && ItemsValid(orders, items, opts) && LogsValid(orders, logs) && NotesValid(orders, notes)
  }

  /** A status transition of order `id` that keeps its number, customer and
      total, logs its new status, keeps `accepted_at` set iff it was, and
      adds no notification, keeps the tables consistent. */
  lemma {:induction false} TransitionPreserves(orders: seq<OrderRow>, items: seq<ItemRow>, opts: seq<ItemOptionRow>,
                            logs: seq<StatusLog>, notes: seq<NotificationRow>,
                            id: nat, row: OrderRow, log: StatusLog)
    requires Consistent(orders, items, opts, logs, notes)
    requires id < |orders|
    requires row.orderNo == orders[id].orderNo && row.customerId == orders[id].customerId
    requires row.totalAmount == orders[id].totalAmount && StampsAgree(row)
    requires row.acceptedAt.Some? == orders[id].acceptedAt.Some?
    requires log.orderId == id && log.toStatus == row.status
    ensures Consistent(orders[id := row], items, opts, logs + [log], notes)
  {
    var orders' := orders[id := row];
    forall o | 0 <= o < |orders'| ensures LastLog(logs + [log], o) == Some(orders'[o].status) {
      LastLogAppend(logs, log, o);
    }
  }

  /** Accepting order `id`: the status write, its log entry and one new
      notification record for the order's customer keep the tables consistent. */
  lemma {:induction false} AcceptPreserves(orders: seq<OrderRow>, items: seq<ItemRow>, opts: seq<ItemOptionRow>,
                        logs: seq<StatusLog>, notes: seq<NotificationRow>,
                        id: nat, row: OrderRow, log: StatusLog, note: NotificationRow)
    requires Consistent(orders, items, opts, logs, notes)
    requires id < |orders| && orders[id].acceptedAt.None?
    requires row.orderNo == orders[id].orderNo && row.customerId == orders[id].customerId
    requires row.totalAmount == orders[id].totalAmount && StampsAgree(row) && row.acceptedAt.Some?
    requires log.orderId == id && log.toStatus == row.status
    requires note.orderId == id && note.userId == row.customerId && NotificationWellFormed(note)
    ensures Consistent(orders[id := row], items, opts, logs + [log], notes + [note])
  {
    var orders' := orders[id := row];
    forall o | 0 <= o < |orders'| ensures LastLog(logs + [log], o) == Some(orders'[o].status) {
      LastLogAppend(logs, log, o);
    }
    forall o | 0 <= o < |orders'|
      ensures NotesFor(notes + [note], o) == if orders'[o].acceptedAt.Some? then 1 else 0
    {
      NotesForAppend(notes, note, o);
    }
  }

  /** Rewriting notification records in place, keeping their order and
      target and leaving each well formed, keeps the tables consistent. */
  lemma {:induction false} NotesRewritePreserves(orders: seq<OrderRow>, items: seq<ItemRow>, opts: seq<ItemOptionRow>,
                              logs: seq<StatusLog>, notes: seq<NotificationRow>, notes': seq<NotificationRow>)
    requires Consistent(orders, items, opts, logs, notes)
    requires |notes'| == |notes|
    requires forall k :: 0 <= k < |notes| ==>
      notes'[k].orderId == notes[k].orderId && notes'[k].userId == notes[k].userId && NotificationWellFormed(notes'[k])
    ensures Consistent(orders, items, opts, logs, notes')
  {
    forall o | 0 <= o < |orders| ensures NotesFor(notes', o) == NotesFor(notes, o) {
      NotesForSameOrders(notes, notes', o);
    }
  }
}
