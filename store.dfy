/** The database the endpoints share, as one object whose tables the
    state-changing endpoints update in place: `create_order`,
    `cancel_order`, `accept_order`, `admin_accept`, `admin_complete` and
    `dispatch_notifications`. Each method is one request; a request that
    fails leaves every table as it was (its transaction rolls back). The
    menu catalog and the devices table are read-only here. */
module Store {
  import opened Common
  import opened Tables
  import opened Push
  import Devices
  import opened Orders
  import OrdersAccept
  import AdminOrders
  import AdminNotifications

  /** What `admin_accept` answers: the idempotent skip, or the accepted
      order and how many tokens were pushed to. */
  datatype AdminAnswer = AdminSkipped | AdminPushed(order: OrderRow, tokens: nat)

  /** What `accept_order` answers: the order's number, its acceptance time
      and the delivery report. */
  datatype AcceptAnswer = AcceptAnswer(orderNo: nat, acceptedAt: Option<int>, notified: OrdersAccept.Notified)

  /** The sum of the price deltas of `vals`, one value at a time. */
  method SumDeltas(start: int, vals: seq<OptionSnapshot>) returns (sum: int)
    ensures sum == start + DeltaSum(vals)
  {
    sum := start;
    var k := 0;
    while k < |vals|
      invariant 0 <= k <= |vals|
      invariant sum == start + DeltaSum(vals[..k])
    {
      assert vals[..k + 1][..k] == vals[..k];
      sum := sum + vals[k].priceDelta;
      k := k + 1;
    }
    assert vals[..k] == vals;
  }

  /** The option loop of `create_order` for one item: each selected option
      is checked and its values' snapshot rows collected, the first failing
      option deciding the error; the delta sum is accumulated alongside. */
  method PriceOptions(cat: Catalog, menuItemId: string, sels: seq<SelectedOption>)
    returns (r: Result<seq<OptionSnapshot>>, deltaSum: int)
    ensures r == PriceSelections(cat, menuItemId, sels)
    ensures r.Ok? ==> deltaSum == DeltaSum(r.value)
  {
    deltaSum := 0;
    var rows: seq<OptionSnapshot> := [];
    var j := 0;
    while j < |sels|
      invariant 0 <= j <= |sels|
      invariant PriceSelections(cat, menuItemId, sels[..j]) == Ok(rows)
      invariant deltaSum == DeltaSum(rows)
    {
      var priced := PriceSelection(cat, menuItemId, sels[j]);
      if priced.Err? {
        SelectionFails(cat, menuItemId, sels, j, rows, priced.error);
        return Err(priced.error), deltaSum;
      }
      deltaSum := SumDeltas(deltaSum, priced.value);
      DeltaSumAppend(rows, priced.value);
      assert sels[..j + 1][..j] == sels[..j];
      rows := rows + priced.value;
      j := j + 1;
    }
    assert sels[..j] == sels;
    r := Ok(rows);
  }

  /** One pass of the item loop of `create_order`: the menu entry is
      fetched (404 when missing, 400 when inactive), the options priced, and
      the line amount is (unit price + option deltas) × qty, the snapshot
      keeping the unit price. */
  method PriceItem(cat: Catalog, item: CartItem) returns (r: Result<PricedLine>)
    ensures r == PriceLine(cat, item)
  {
    var fetched := FetchMenuItem(cat, item.menuItemId);
    if fetched.Err? {
      LineRefused(cat, item);
      return Err(fetched.error);
    }
    var mi := fetched.value;
    var unitPrice := mi.price;
    var options, optionDeltaSum := PriceOptions(cat, item.menuItemId, item.selectedOptions);
    if options.Err? {
      LineRefused(cat, item);
      return Err(options.error);
    }
    var lineUnit := unitPrice + optionDeltaSum;
    var lineAmount := lineUnit * item.qty;
    LinePriced(cat, item, mi, options.value, optionDeltaSum);
    r := Ok(PricedLine(item.menuItemId, mi.name, unitPrice, item.qty, lineAmount, options.value));
  }

  /** The item loop of `create_order`: each item's menu entry is fetched and
      its options priced, the first failing item deciding the error; the
      line rows, option rows and running total are built alongside, line `i`
      getting item id `base + i`. */
  method PriceItems(cat: Catalog, cartItems: seq<CartItem>, orderId: nat, base: nat)
    returns (r: Result<seq<PricedLine>>, newItems: seq<ItemRow>, newOptions: seq<ItemOptionRow>, total: int)
    ensures r == PriceLines(cat, cartItems)
    ensures r.Ok? ==> newItems == ItemRowsFor(orderId, r.value) && newOptions == OptionRowsFor(base, r.value)
    ensures r.Ok? ==> total == LinesTotal(r.value)
  {
    total := 0;
    newItems, newOptions := [], [];
    var lines: seq<PricedLine> := [];
    var i := 0;
    while i < |cartItems|
      invariant PricedPrefix(cat, cartItems, i, orderId, base, lines, newItems, newOptions, total)
    {
      var item := cartItems[i];
      var priced := PriceItem(cat, item);
      if priced.Err? {
        LineFails(cat, cartItems, i, lines, priced.error);
        return Err(priced.error), newItems, newOptions, total;
      }
      var line := priced.value;
      PricedStep(cat, cartItems, i, orderId, base, lines, newItems, newOptions, total, line);
      total := total + line.lineAmount;
      newItems := newItems + [ItemRow(orderId, line.menuItemId, line.nameSnapshot, line.priceSnapshot, line.qty, line.lineAmount)];
      newOptions := newOptions + TagOptions(base + i, line.options);
      lines := lines + [line];
      i := i + 1;
    }
    assert cartItems[..i] == cartItems;
    r := Ok(lines);
  }

  /** The first `i` items are priced as `lines`, and the rows and running
      total built so far are theirs. */
  ghost predicate PricedPrefix(cat: Catalog, cartItems: seq<CartItem>, i: int, orderId: nat, base: nat,
                               lines: seq<PricedLine>, newItems: seq<ItemRow>, newOptions: seq<ItemOptionRow>, total: int)
  {
    && 0 <= i <= |cartItems|
    && PriceLines(cat, cartItems[..i]) == Ok(lines) && |lines| == i
    && newItems == ItemRowsFor(orderId, lines)
    && newOptions == OptionRowsFor(base, lines)
    && total == LinesTotal(lines)
  }

  /** Pricing one more item extends the priced prefix, its rows and its total. */
  lemma {:induction false} PricedStep(cat: Catalog, cartItems: seq<CartItem>, i: int, orderId: nat, base: nat,
                                      lines: seq<PricedLine>, newItems: seq<ItemRow>, newOptions: seq<ItemOptionRow>,
                                      total: int, line: PricedLine)
    requires PricedPrefix(cat, cartItems, i, orderId, base, lines, newItems, newOptions, total)
    requires i < |cartItems| && PriceLine(cat, cartItems[i]) == Ok(line)
    ensures PricedPrefix(cat, cartItems, i + 1, orderId, base, lines + [line],
                         newItems + [ItemRow(orderId, line.menuItemId, line.nameSnapshot, line.priceSnapshot, line.qty, line.lineAmount)],
                         newOptions + TagOptions(base + i, line.options), total + line.lineAmount)
  {
    LineAdded(cat, cartItems, i, lines, line);
    ItemRowAdded(lines, line, orderId);
    LinesTotalAdded(lines, line);
    var tagged := TagOptions(base + |lines|, line.options);
    assert TagOptions(base + i, line.options) == tagged;
    assert newOptions + tagged == OptionRowsFor(base, lines + [line]) by {
      OptionRowsAdded(lines, line, base);
    }
  }

  /** The pricing half of `create_order`: the request schema's positive
      quantities (422), the non-empty cart (400), then the item loop; the
      rows to insert come with the priced order. */
  method PriceOrder(cat: Catalog, cart: Cart, orderId: nat, base: nat)
    returns (r: Result<PricedOrder>, newItems: seq<ItemRow>, newOptions: seq<ItemOptionRow>)
    ensures r == PriceCart(cat, cart)
    ensures r.Ok? ==> newItems == ItemRowsFor(orderId, r.value.lines) && newOptions == OptionRowsFor(base, r.value.lines)
    ensures r.Ok? ==> r.value.totalAmount == LinesTotal(r.value.lines)
    ensures r.Ok? ==> AmountsAgree(r.value.lines)
  {
    if !QtyPositive(cart.items) {
      return Err(RequestInvalid), [], [];
    }
    if cart.items == [] {
      return Err(ItemsRequired), [], [];
    }
    var priced, total;
    priced, newItems, newOptions, total := PriceItems(cat, cart.items, orderId, base);
    PriceCartByLines(cat, cart);
    if priced.Err? {
      return Err(priced.error), newItems, newOptions;
    }
    PricedLinesConsistent(cat, cart.items);
    r := Ok(PricedOrder(priced.value, total));
  }

  /** One record of the sweep: the record the loop computes is the sweep's
      outcome for it, and extends the rewrite and the count by one. */
  lemma {:induction false} DispatchStep(rows: seq<NotificationRow>, devices: seq<Devices.Device>, batch: seq<nat>,
                     outs: seq<NotificationRow>, provider: Provider, now: int, j: nat, out: NotificationRow)
    requires forall i :: 0 <= i < |batch| ==> batch[i] < |rows|
    requires outs == AdminNotifications.Outcomes(rows, devices, batch, provider, now)
    requires j < |batch|
    requires var tokens := Devices.ActiveTokens(devices, rows[batch[j]].userId);
      out == AdminNotifications.DispatchOne(rows[batch[j]], tokens,
                                            if tokens == [] then Replied(0, 0, []) else provider(j, tokens), now)
    ensures out == outs[j]
    ensures AdminNotifications.Rewrite(rows, batch[..j + 1], outs[..j + 1]) ==
      AdminNotifications.Rewrite(rows, batch[..j], outs[..j])[batch[j] := out]
    ensures AdminNotifications.CountSent(outs[..j + 1]) ==
      AdminNotifications.CountSent(outs[..j]) + (if out.sendStatus == Sent then 1 else 0)
  {
    var n := rows[batch[j]];
    var tokens := Devices.ActiveTokens(devices, n.userId);
    assert tokens == AdminNotifications.TokensFor(devices, n);
    assert outs[j] == AdminNotifications.DispatchOne(n, tokens, provider(j, tokens), now);
    if tokens == [] {
      assert out == AdminNotifications.DispatchOne(n, tokens, provider(j, tokens), now);
    }
    assert batch[..j + 1][..j] == batch[..j];
    assert outs[..j + 1][..j] == outs[..j];
  }

  /** The record loop of `dispatch_notifications` over the selected
      positions `batch` of `rows`: each record's usable tokens are looked up;
      with none the provider is not called; the record is rewritten by the
      outcome and the counters advanced. */
  method Sweep(rows: seq<NotificationRow>, devices: seq<Devices.Device>, batch: seq<nat>, provider: Provider, now: int)
    returns (notes: seq<NotificationRow>, tally: AdminNotifications.Tally)
    requires forall i :: 0 <= i < |batch| ==> batch[i] < |rows|
    ensures notes == AdminNotifications.Rewrite(rows, batch, AdminNotifications.Outcomes(rows, devices, batch, provider, now))
    ensures tally.processed == |batch|
    ensures tally.sent == AdminNotifications.CountSent(AdminNotifications.Outcomes(rows, devices, batch, provider, now))
    ensures tally.failed == |batch| - tally.sent
  {
    ghost var outs := AdminNotifications.Outcomes(rows, devices, batch, provider, now);
    notes := rows;
    var processed, sentTotal, failedTotal := 0, 0, 0;
    var j := 0;
    while j < |batch|
      invariant 0 <= j <= |batch|
      invariant notes == AdminNotifications.Rewrite(rows, batch[..j], outs[..j])
      invariant processed == j && sentTotal == AdminNotifications.CountSent(outs[..j])
      invariant failedTotal == processed - sentTotal
    {
      var n := rows[batch[j]];
      processed := processed + 1;
      var tokens := Devices.ActiveTokens(devices, n.userId);
      var reply := if tokens == [] then Replied(0, 0, []) else provider(j, tokens);
      var out := AdminNotifications.DispatchOne(n, tokens, reply, now);
      if out.sendStatus == Sent {
        sentTotal := sentTotal + 1;
      } else {
        failedTotal := failedTotal + 1;
      }
      DispatchStep(rows, devices, batch, outs, provider, now, j, out);
      notes := notes[batch[j] := out];
      j := j + 1;
    }
    assert batch[..j] == batch && outs[..j] == outs;
    tally := AdminNotifications.Tally(processed, sentTotal, failedTotal);
  }

  /** Replacing the record just appended is appending its replacement. */
  lemma {:induction false} LastReplaced<T>(s: seq<T>, x: T, y: T)
    ensures (s + [x])[|s| := y] == s + [y]
  {
  }

  class Store {
    const catalog: Catalog
    const devices: seq<Devices.Device>
    var orders: seq<OrderRow>
    var items: seq<ItemRow>
    var itemOptions: seq<ItemOptionRow>
    var statusLogs: seq<StatusLog>
    var notifications: seq<NotificationRow>

    ghost predicate Valid()
      reads this
    {
      Consistent(orders, items, itemOptions, statusLogs, notifications)
    }

    constructor(catalog: Catalog, devices: seq<Devices.Device>)
      ensures Valid()
      ensures this.catalog == catalog && this.devices == devices
      ensures orders == [] && items == [] && itemOptions == [] && statusLogs == [] && notifications == []
    {
      this.catalog := catalog;
      this.devices := devices;
      orders, items, itemOptions, statusLogs, notifications := [], [], [], [], [];
    }

    /** The inserts of `create_order` once the cart is priced: the PLACED
        order with the priced total, its lines, their option rows and the
        first log entry. */
    method Insert(cart: Cart, now: int, priced: PricedOrder, newItems: seq<ItemRow>, newOptions: seq<ItemOptionRow>)
      requires Valid()
      requires AmountsAgree(priced.lines)
      requires priced.totalAmount == LinesTotal(priced.lines)
      requires newItems == ItemRowsFor(|orders|, priced.lines) && newOptions == OptionRowsFor(|items|, priced.lines)
      modifies this
      ensures Valid()
      ensures orders == old(orders) + [OrderRow(|old(orders)| + 1, cart.customerId, Placed, cart.customerNote,
                                                 priced.totalAmount, now, None, None, None)]
      ensures items == old(items) + newItems && itemOptions == old(itemOptions) + newOptions
      ensures statusLogs == old(statusLogs) + [StatusLog(|old(orders)|, None, Placed, cart.customerId)]
      ensures notifications == old(notifications)
    {
      var orders' := orders + [OrderRow(|orders| + 1, cart.customerId, Placed, cart.customerNote,
                                        priced.totalAmount, now, None, None, None)];
      var logs' := statusLogs + [StatusLog(|orders|, None, Placed, cart.customerId)];
      CreatePreserves(orders, items, itemOptions, statusLogs, notifications, priced.lines, orders'[|orders|],
                      logs'[|statusLogs|], orders', items + newItems, itemOptions + newOptions, logs');
      orders, items, itemOptions, statusLogs := orders', items + newItems, itemOptions + newOptions, logs';
    }

    /** `create_order`: prices the cart item by item and option by option,
        failing with the first error `PriceCart` reports; on success it
        appends the PLACED order with the priced total, one line per item,
        the option rows of each line and the first log entry. */
    method CreateOrder(cart: Cart, now: int) returns (r: Result<nat>)
      requires Valid()
      modifies this
      ensures Valid()
      ensures r.Err? <==> PriceCart(catalog, cart).Err?
      ensures r.Err? ==> r.error == PriceCart(catalog, cart).error
      ensures r.Err? ==> orders == old(orders) && items == old(items) && itemOptions == old(itemOptions) &&
                         statusLogs == old(statusLogs)
      ensures r.Ok? ==>
        && r.value == |old(orders)|
        && orders == old(orders) + [OrderRow(|old(orders)| + 1, cart.customerId, Placed, cart.customerNote,
                                              PriceCart(catalog, cart).value.totalAmount, now, None, None, None)]
        && items == old(items) + ItemRowsFor(r.value, PriceCart(catalog, cart).value.lines)
        && itemOptions == old(itemOptions) + OptionRowsFor(|old(items)|, PriceCart(catalog, cart).value.lines)
        && statusLogs == old(statusLogs) + [StatusLog(r.value, None, Placed, cart.customerId)]
      ensures notifications == old(notifications)
    {
      var orderId := |orders|;
      var priced, newItems, newOptions := PriceOrder(catalog, cart, orderId, |items|);
      if priced.Err? {
        return Err(priced.error);
      }
      Insert(cart, now, priced.value, newItems, newOptions);
      r := Ok(orderId);
    }

    /** `cancel_order`: a PLACED order the caller may cancel becomes CANCELED
        at `now`, with a log entry from PLACED changed by the given customer;
        any refusal changes nothing. */
    method CancelOrder(id: nat, customerId: Option<string>, now: int) returns (r: Result<OrderRow>)
      requires Valid()
      modifies this
      ensures Valid()
      ensures r.Err? <==> CancelCheck(old(orders), id, customerId).Fail?
      ensures r.Err? ==> r.error == CancelCheck(old(orders), id, customerId).error &&
                         orders == old(orders) && statusLogs == old(statusLogs)
      ensures r.Ok? ==>
        && r.value == old(orders)[id].(status := Canceled, canceledAt := Some(now))
        && orders == old(orders)[id := r.value]
        && statusLogs == old(statusLogs) + [StatusLog(id, Some(Placed), Canceled, customerId)]
      ensures items == old(items) && itemOptions == old(itemOptions) && notifications == old(notifications)
    {
      var check := CancelCheck(orders, id, customerId);
      if check.Fail? {
        return Err(check.error);
      }
      var row := orders[id].(status := Canceled, canceledAt := Some(now));
      var log := StatusLog(id, Some(Placed), Canceled, customerId);
      TransitionPreserves(orders, items, itemOptions, statusLogs, notifications, id, row, log);
      orders, statusLogs := orders[id := row], statusLogs + [log];
      r := Ok(row);
    }

    /** `admin_complete`: a PLACED or ACCEPTED order becomes COMPLETED at
        `now`, with a log entry from its previous status changed by the
        owner; any refusal changes nothing. */
    method AdminComplete(id: nat, ownerId: string, now: int) returns (r: Result<OrderRow>)
      requires Valid()
      modifies this
      ensures Valid()
      ensures r.Err? <==> AdminOrders.CompleteGuard(old(orders), id).Fail?
      ensures r.Err? ==> r.error == AdminOrders.CompleteGuard(old(orders), id).error &&
                         orders == old(orders) && statusLogs == old(statusLogs)
      ensures r.Ok? ==>
        && r.value == old(orders)[id].(status := Completed, completedAt := Some(now))
        && orders == old(orders)[id := r.value]
        && statusLogs == old(statusLogs) + [StatusLog(id, Some(old(orders)[id].status), Completed, Some(ownerId))]
      ensures items == old(items) && itemOptions == old(itemOptions) && notifications == old(notifications)
    {
      var guard := AdminOrders.CompleteGuard(orders, id);
      if guard.Fail? {
        return Err(guard.error);
      }
      var prev := orders[id].status;
      var row := orders[id].(status := Completed, completedAt := Some(now));
      var log := StatusLog(id, Some(prev), Completed, Some(ownerId));
      TransitionPreserves(orders, items, itemOptions, statusLogs, notifications, id, row, log);
      orders, statusLogs := orders[id := row], statusLogs + [log];
      r := Ok(row);
    }

    /** The transaction both accept endpoints share: order `id`, PLACED,
        becomes ACCEPTED at `now`, its log entry is added and a queued record
        for its customer is inserted. */
    method Accept(id: nat, ownerId: string, message: Option<string>, now: int)
      requires Valid()
      requires OrdersAccept.AcceptGuard(orders, id).Proceed?
      modifies this
      ensures Valid()
      ensures orders == old(orders)[id := old(orders)[id].(status := Accepted, acceptedAt := Some(now))]
      ensures statusLogs == old(statusLogs) + [StatusLog(id, Some(Placed), Accepted, Some(ownerId))]
      ensures notifications == old(notifications) + [OrdersAccept.QueuedNote(id, old(orders)[id].customerId, message, now)]
      ensures items == old(items) && itemOptions == old(itemOptions)
    {
      var row := orders[id].(status := Accepted, acceptedAt := Some(now));
      var log := StatusLog(id, Some(Placed), Accepted, Some(ownerId));
      var note := OrdersAccept.QueuedNote(id, orders[id].customerId, message, now);
      AcceptPreserves(orders, items, itemOptions, statusLogs, notifications, id, row, log, note);
      orders, statusLogs, notifications := orders[id := row], statusLogs + [log], notifications + [note];
    }

    /** Replaces the last notification record, keeping its order and target. */
    method RewriteLast(note: NotificationRow)
      requires Valid() && notifications != []
      requires note.orderId == notifications[|notifications| - 1].orderId
      requires note.userId == notifications[|notifications| - 1].userId
      requires NotificationWellFormed(note)
      modifies this
      ensures Valid()
      ensures notifications == old(notifications)[|old(notifications)| - 1 := note]
      ensures orders == old(orders) && items == old(items) && itemOptions == old(itemOptions)
      ensures statusLogs == old(statusLogs)
    {
      var notes' := notifications[|notifications| - 1 := note];
      NotesRewritePreserves(orders, items, itemOptions, statusLogs, notifications, notes');
      notifications := notes';
    }

    /** `accept_order`, with the delivery update as evidently intended: the
        guard decides; an ACCEPTED order is answered as skipped and a refused
        one changes nothing. Otherwise the transaction commits, and then the
        customer's tokens decide the delivery update: with tokens, one
        provider call and `AcceptFollowUp` on the new record, taken at
        `later`; without, the bulk update marks the order's queued records
        of the customer failed. */
    method AcceptOrder(id: nat, ownerId: string, message: Option<string>, now: int, later: int, provider: Provider)
      returns (r: Result<AcceptAnswer>)
      requires Valid()
      modifies this
      ensures Valid()
      ensures items == old(items) && itemOptions == old(itemOptions)
      ensures OrdersAccept.AcceptGuard(old(orders), id).Proceed? ==>
        OrdersAccept.AcceptGuard(orders, id) == OrdersAccept.AlreadyAccepted
      ensures OrdersAccept.AcceptGuard(old(orders), id).Refuse? ==>
        && r == Err(OrdersAccept.AcceptGuard(old(orders), id).error)
        && orders == old(orders) && statusLogs == old(statusLogs) && notifications == old(notifications)
      ensures OrdersAccept.AcceptGuard(old(orders), id) == OrdersAccept.AlreadyAccepted ==>
        && r == Ok(AcceptAnswer(old(orders)[id].orderNo, old(orders)[id].acceptedAt, OrdersAccept.Skipped))
        && orders == old(orders) && statusLogs == old(statusLogs) && notifications == old(notifications)
      ensures OrdersAccept.AcceptGuard(old(orders), id).Proceed? ==>
        && orders == old(orders)[id := old(orders)[id].(status := Accepted, acceptedAt := Some(now))]
        && statusLogs == old(statusLogs) + [StatusLog(id, Some(Placed), Accepted, Some(ownerId))]
        && var customer := old(orders)[id].customerId;
           var note := OrdersAccept.QueuedNote(id, customer, message, now);
           var tokens := OrdersAccept.AcceptTokens(devices, customer);
           var follow := OrdersAccept.AcceptFollowUp(note, |tokens|, SendFcm(provider, 0, tokens), later);
           if tokens != [] then
             && notifications == old(notifications) + [follow.note]
             && r == (if follow.response.Err? then Err(follow.response.error)
                      else Ok(AcceptAnswer(old(orders)[id].orderNo, Some(now), follow.response.value)))
           else
             && notifications == OrdersAccept.MarkNoTokens(old(notifications) + [note], id, customer)
             && r == Ok(AcceptAnswer(old(orders)[id].orderNo, Some(now), OrdersAccept.Notified(0, 0, 0)))
    {
      var guard := OrdersAccept.AcceptGuard(orders, id);
      if guard.Refuse? {
        return Err(guard.error);
      }
      if guard == OrdersAccept.AlreadyAccepted {
        return Ok(AcceptAnswer(orders[id].orderNo, orders[id].acceptedAt, OrdersAccept.Skipped));
      }
      r := AcceptAndNotify(id, ownerId, message, now, later, provider);
    }

    /** The committed branch of `accept_order`: the acceptance transaction,
        then the customer's tokens decide the delivery update. */
    method AcceptAndNotify(id: nat, ownerId: string, message: Option<string>, now: int, later: int, provider: Provider)
      returns (r: Result<AcceptAnswer>)
      requires Valid()
      requires OrdersAccept.AcceptGuard(orders, id).Proceed?
      modifies this
      ensures Valid()
      ensures items == old(items) && itemOptions == old(itemOptions)
      ensures OrdersAccept.AcceptGuard(orders, id) == OrdersAccept.AlreadyAccepted
      ensures orders == old(orders)[id := old(orders)[id].(status := Accepted, acceptedAt := Some(now))]
      ensures statusLogs == old(statusLogs) + [StatusLog(id, Some(Placed), Accepted, Some(ownerId))]
      ensures var customer := old(orders)[id].customerId;
        var note := OrdersAccept.QueuedNote(id, customer, message, now);
        var tokens := OrdersAccept.AcceptTokens(devices, customer);
        var follow := OrdersAccept.AcceptFollowUp(note, |tokens|, SendFcm(provider, 0, tokens), later);
        if tokens != [] then
          && notifications == old(notifications) + [follow.note]
          && r == (if follow.response.Err? then Err(follow.response.error)
                   else Ok(AcceptAnswer(old(orders)[id].orderNo, Some(now), follow.response.value)))
        else
          && notifications == OrdersAccept.MarkNoTokens(old(notifications) + [note], id, customer)
          && r == Ok(AcceptAnswer(old(orders)[id].orderNo, Some(now), OrdersAccept.Notified(0, 0, 0)))
    {
      var customer := orders[id].customerId;
      var orderNo := orders[id].orderNo;
      var tokens := OrdersAccept.AcceptTokens(devices, customer);
      Accept(id, ownerId, message, now);
      var note := notifications[|notifications| - 1];
      if tokens != [] {
        var follow := OrdersAccept.AcceptFollowUp(note, |tokens|, SendFcm(provider, 0, tokens), later);
        LastReplaced(old(notifications), note, follow.note);
        RewriteLast(follow.note);
        if follow.response.Err? {
          return Err(follow.response.error);
        }
        r := Ok(AcceptAnswer(orderNo, Some(now), follow.response.value));
      } else {
        var notes' := OrdersAccept.MarkNoTokens(notifications, id, customer);
        OrdersAccept.MarkNoTokensKeeps(notifications, id, customer);
        NotesRewritePreserves(orders, items, itemOptions, statusLogs, notifications, notes');
        notifications := notes';
        r := Ok(AcceptAnswer(orderNo, Some(now), OrdersAccept.Notified(0, 0, 0)));
      }
    }

    /** `admin_accept`, taking the missing `send_push_to_tokens` to be the
        push module's call: the guard decides; an ACCEPTED order is answered
        as skipped and a refused one changes nothing. Otherwise, in one
        transaction at `now`, the order is accepted, its record queued, the
        20 most recently seen devices of the customer pushed to, and the
        record rewritten by `AdminFollowUp`. */
    method AdminAccept(id: nat, ownerId: string, message: Option<string>, now: int, provider: Provider)
      returns (r: Result<AdminAnswer>)
      requires Valid()
      modifies this
      ensures Valid()
      ensures items == old(items) && itemOptions == old(itemOptions)
      ensures OrdersAccept.AcceptGuard(old(orders), id).Proceed? ==>
        OrdersAccept.AcceptGuard(orders, id) == OrdersAccept.AlreadyAccepted
      ensures OrdersAccept.AcceptGuard(old(orders), id).Refuse? ==>
        && r == Err(OrdersAccept.AcceptGuard(old(orders), id).error)
        && orders == old(orders) && statusLogs == old(statusLogs) && notifications == old(notifications)
      ensures OrdersAccept.AcceptGuard(old(orders), id) == OrdersAccept.AlreadyAccepted ==>
        && r == Ok(AdminSkipped)
        && orders == old(orders) && statusLogs == old(statusLogs) && notifications == old(notifications)
      ensures OrdersAccept.AcceptGuard(old(orders), id).Proceed? ==>
        && orders == old(orders)[id := old(orders)[id].(status := Accepted, acceptedAt := Some(now))]
        && statusLogs == old(statusLogs) + [StatusLog(id, Some(Placed), Accepted, Some(ownerId))]
        && var customer := old(orders)[id].customerId;
           var tokens := Devices.RecentTokens(devices, customer);
           && notifications == old(notifications) +
                [AdminOrders.AdminFollowUp(OrdersAccept.QueuedNote(id, customer, message, now), tokens,
                                           SendFcm(provider, 0, tokens), now)]
           && r == Ok(AdminPushed(orders[id], |tokens|))
    {
      var guard := OrdersAccept.AcceptGuard(orders, id);
      if guard.Refuse? {
        return Err(guard.error);
      }
      if guard == OrdersAccept.AlreadyAccepted {
        return Ok(AdminSkipped);
      }
      r := AdminAcceptAndPush(id, ownerId, message, now, provider);
    }

    /** The accepting branch of `admin_accept`, one transaction at `now`. */
    method AdminAcceptAndPush(id: nat, ownerId: string, message: Option<string>, now: int, provider: Provider)
      returns (r: Result<AdminAnswer>)
      requires Valid()
      requires OrdersAccept.AcceptGuard(orders, id).Proceed?
      modifies this
      ensures Valid()
      ensures items == old(items) && itemOptions == old(itemOptions)
      ensures OrdersAccept.AcceptGuard(orders, id) == OrdersAccept.AlreadyAccepted
      ensures orders == old(orders)[id := old(orders)[id].(status := Accepted, acceptedAt := Some(now))]
      ensures statusLogs == old(statusLogs) + [StatusLog(id, Some(Placed), Accepted, Some(ownerId))]
      ensures var customer := old(orders)[id].customerId;
        var tokens := Devices.RecentTokens(devices, customer);
        && notifications == old(notifications) +
             [AdminOrders.AdminFollowUp(OrdersAccept.QueuedNote(id, customer, message, now), tokens,
                                        SendFcm(provider, 0, tokens), now)]
        && r == Ok(AdminPushed(orders[id], |tokens|))
    {
      var customer := orders[id].customerId;
      Accept(id, ownerId, message, now);
      var note := notifications[|notifications| - 1];
      var tokens := Devices.RecentTokens(devices, customer);
      var reply := SendFcm(provider, 0, tokens);
      RewriteLast(AdminOrders.AdminFollowUp(note, tokens, reply, now));
      r := Ok(AdminPushed(orders[id], |tokens|));
    }

    /** `dispatch_notifications`: one sweep of at most `limit` queued `fcm`
        records, oldest first, in one transaction at `now`. Each selected
        record has its user's usable tokens looked up; with none it is failed
        without a provider call, otherwise the provider is called (the `j`-th
        record of the batch making call `j`) and the record marked sent or
        failed by the reply. A negative limit is refused by the database. */
    method DispatchNotifications(limit: int, provider: Provider, now: int) returns (r: Result<AdminNotifications.Tally>)
      requires Valid()
      modifies this
      ensures Valid()
      ensures r.Err? <==> limit < 0
      ensures r.Err? ==> r.error == NegativeLimit && notifications == old(notifications)
      ensures r.Ok? ==>
        && limit >= 0
        && notifications == AdminNotifications.Swept(old(notifications), devices, limit, provider, now)
        && r.value == AdminNotifications.SweepTally(old(notifications), devices, limit, provider, now)
      ensures orders == old(orders) && items == old(items) && itemOptions == old(itemOptions)
      ensures statusLogs == old(statusLogs)
    {
      if limit < 0 {
        return Err(NegativeLimit);
      }
      var rows := notifications;
      var batch := AdminNotifications.Batch(rows, limit);
      var notes', tally := Sweep(rows, devices, batch, provider, now);
      AdminNotifications.SweptSettles(rows, devices, limit, provider, now);
      NotesRewritePreserves(orders, items, itemOptions, statusLogs, rows, notes');
      notifications := notes';
      r := Ok(tally);
    }
  }
}
