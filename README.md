# Order lifecycle of a restaurant ordering backend, in Dafny

This project models the order lifecycle of a single-restaurant ordering
backend (a FastAPI service over PostgreSQL) and proves properties of the model.
It covers four parts.

- **Cart pricing.** `create_order` prices a cart against the menu catalog. It
  checks every menu item (it must exist and be active). It checks every
  selected option: the option must exist, be attached to the item, respect
  single or multi arity, and name only existing, active value keys. Its
  arithmetic is integer: the line amount is (catalog price + option deltas) ×
  qty, and the total is the sum of the line amounts. The order header, its
  lines, their option snapshots and the first status-log entry are written
  all-or-nothing.
- **The status state machine** over PLACED, ACCEPTED, COMPLETED and CANCELED:
  - `cancel_order`;
  - the owner's `accept_order`, which delivers its push after the commit;
  - the admin `admin_accept`, which pushes inside its transaction;
  - `admin_complete`.
- **The notification sweep.** `dispatch_notifications` takes the oldest
  queued `fcm` records, up to a limit, and settles each one as sent or failed.
- **The reads:** `get_order`, `list_orders`, `admin_list_orders` and
  `list_notifications`.

The work splits into two layers.

- **A pure layer.** It has datatypes for the catalog, the cart and the rows,
  and functions for the validation and pricing helpers, the guards and the
  delivery decisions. Lemmas relate the pure layer to declarative reference
  definitions: `ValidCart`, `ExpectedTotal`, `LineMatches`, `Batch` and
  `Swept`.
- **The `Store.Store` class.** Its fields are the five tables the endpoints
  write. Each endpoint is a method with `modifies this`, and each keeps the
  cross-table invariant `Valid()`:
  - every order's total is the sum of its lines;
  - every line's amount is (price snapshot + its option rows' deltas) × qty;
  - an order's status is the target of its latest log entry;
  - the lifecycle timestamps agree with the status;
  - an order has exactly one notification record once it was accepted, and
    none before.

  Each method's `ensures` states the whole new state in terms of the pure
  layer. A refused request leaves every table as it was.

The push provider is an oracle: a function from the call number and the token
list to a reply. The reply is `Raised(message)` or `Replied(sent, failed,
results)`, the shape of the dictionary `send_fcm_to_tokens` returns. Clock
readings are parameters (`now`, `later`). The catalog and the devices table
are read-only inputs.

Modules:
- `Common`: options, results, errors with their HTTP status, statuses and text helpers.
- `Tables`: rows, the invariant, and the preservation lemmas.
- `Push`: the provider.
- `Devices`: token lookups.
- `Listing`: newest-first and oldest-first selection.
- `Orders`: pricing, the cancel guard and the reads.
- `OrdersAccept`: `orders_accept.py`.
- `AdminOrders`: `admin_orders.py`.
- `AdminNotifications`: `admin_notifications.py`.
- `Store`: the imperative methods.

Where the code departs from what its endpoints' names and messages suggest,
the model follows the code:
- An order may be completed from PLACED as well as from ACCEPTED.
- Unmatched option value keys answer 400, not 404.
- Validation stops at the first failing selection. Only the missing keys of
  one option are reported together.
- A failure of `accept_order`'s post-commit step does reach its caller, as a 500.
- `admin_accept` calls the provider inside its transaction.

## Model

| member | source | states |
|---|---|---|
| Common.Truncate | app/routers/admin_notifications.py:129 | Python's `s[:n]`: the first min(len(s), n) characters of `s`, so `s` itself when it is short enough |
| Push.SendFcm | app/fcm.py:20-60 | an empty token list is answered locally with nothing sent, nothing failed and no results; otherwise the provider's answer for that call |
| Devices.ActiveTokens | app/routers/admin_notifications.py:76-81 | one token per active row of the user that has a non-empty token, each token as many times as such rows hold it (so its length is the number of those rows); a token is returned exactly when some active device of the user carries it; a missing user (SQL NULL) gets none |
| Devices.ActiveOf | app/routers/admin_orders.py:90-93 | exactly the active devices of the user, each as many times as it occurs in the table |
| Devices.InsertByRecency | app/routers/admin_orders.py:94 | inserting into a recency-sorted list keeps it sorted and adds exactly that device |
| Devices.SortByRecency | app/routers/admin_orders.py:94 | `order by last_seen_at desc nulls last`: sorted, and a permutation of its input |
| Devices.NonEmptyTokens | app/routers/admin_orders.py:97 | one entry per row with a non-empty token: each non-empty token as many times as the rows hold it, no empty one, and length the number of rows with a token |
| Devices.RecentDevices | app/routers/admin_orders.py:89-96 | `order by last_seen_at desc nulls last limit 20` over the user's active devices: exactly min(20, active count) of them, most recently seen first and never-seen last, drawn from the active devices, all of them when there are at most 20, and every active device left out was seen no later than each one kept |
| Devices.RecentTokens | app/routers/admin_orders.py:89-97 | one token per kept device with a non-empty token (so `len(tokens)` is the number of such kept devices, at most 20), each of a usable device of the user; with at most 20 active devices, exactly the usable tokens; a usable device's token is left out only when 20 devices seen no earlier than it were kept |
| Listing.NewestMatching | app/routers/orders.py:191-205 | matching positions, strictly newest first, at most `limit`; a matching row is left out only when `limit` newer ones were taken |
| Listing.OldestMatching | app/routers/admin_notifications.py:60-69 | matching positions, strictly oldest first, at most `limit`; a matching row is left out only when `limit` older ones were taken |
| Listing.Matching | app/routers/orders.py:158-175 | exactly the positions of the matching rows, in table order |
| Tables.TransitionPreserves | app/routers/orders.py:230-240 | a status write that keeps the number, customer and total and matches the timestamps, plus its log entry, keeps the tables consistent |
| Tables.AcceptPreserves | app/routers/orders_accept.py:92-138 | accepting, with its log entry and one well-formed record for the order's customer, keeps the tables consistent |
| Tables.NotesRewritePreserves | app/routers/orders_accept.py:147-189 | rewriting notification records in place, keeping order and target and leaving them well formed, keeps the tables consistent |
| Orders.FetchMenuItem | app/routers/orders.py:28-33 | succeeds exactly for a known, active item and returns it; 404 for an unknown item, 400 for an inactive one |
| Orders.FetchOptionMeta | app/routers/orders.py:35-39 | succeeds exactly for a known option and returns it; otherwise 404 naming it |
| Orders.AssertOptionAttached | app/routers/orders.py:41-44 | passes exactly when the option is mapped to the item; otherwise 400 naming both |
| Orders.MissingKeys | app/routers/orders.py:54-55 | the requested keys that have no catalog row, and only those |
| Orders.MissingKeysAppend | app/routers/orders.py:55 | the missing list of a concatenation is the missing list of the first part followed by that of the second, so keys are reported in request order |
| Orders.MissingKeysOne | app/routers/orders.py:55 | a single key is reported exactly when it has no catalog row; with `MissingKeysAppend`, a repeated missing key is reported each time |
| Orders.FirstInactive | app/routers/orders.py:58-60 | none exactly when every requested key that has a row is active; otherwise a requested key whose row is inactive |
| Orders.Resolve | app/routers/orders.py:61-62 | one resolved value per requested key, in request order |
| Orders.FetchOptionValues | app/routers/orders.py:46-62 | succeeds exactly when every key exists and is active, with one value per key in request order; any unmatched key gives 400 whose list is `MissingKeys` of the request (every unmatched key, in request order, repeats included); otherwise 400 naming an inactive requested key |
| Orders.Snapshots | app/routers/orders.py:102-105 | one snapshot row per resolved value, carrying the option's key and name and the value's key, label and delta |
| Orders.PriceSelection | app/routers/orders.py:92-105 | succeeds exactly for a valid selection, with one catalog snapshot per requested key; 404 for an unknown option, 400 for an unattached one, 400 single-select or multi-select on an arity violation |
| Orders.KeySnapshotsAt | app/routers/orders.py:102-105 | the reference row of the `i`-th requested key is that key's catalog snapshot (option key and name, value key, label, delta) |
| Orders.SelectionSnapshots | app/routers/orders.py:101-105 | a priced selection is exactly the snapshot rows of its requested keys, in request order |
| Orders.DeltaSumOfKeys | app/routers/orders.py:101-104 | the snapshot rows of the requested keys sum to the catalog deltas of those keys, a repeated key counted each time |
| Orders.PriceSelectionsSpec | app/routers/orders.py:92-105 | the options of a line succeed exactly when every selection is valid, and then give exactly the snapshot rows of the requested keys in request order (`RequestedSnapshots`), one per key, whose deltas sum to the requested keys' deltas |
| Orders.PriceSelections | app/routers/orders.py:92-105 | the option loop of one line: selections priced in order, the first failing one decides the error; its meaning is stated by `PriceSelectionsSpec` |
| Orders.PriceLineSpec | app/routers/orders.py:84-108 | a line is priced exactly when its item is valid; the line then matches the catalog (name and unit-price snapshots, qty, option rows that are exactly the snapshots of the requested keys in request order, (price + deltas) × qty); an unknown item gives 404 and an inactive one 400 |
| Orders.PriceLine | app/routers/orders.py:84-108 | one line: menu item first, then its options, amount (price + deltas) × qty; its meaning is stated by `PriceLineSpec` |
| Orders.PriceLines | app/routers/orders.py:84-109 | the item loop: lines priced in order, the first failing item decides the error; its meaning is stated by `PriceLinesOkIff`, `PriceLinesShape` and `PriceLinesFirstError` |
| Orders.PriceLinesOkIff | app/routers/orders.py:84-109 | the lines are priced exactly when every item is valid |
| Orders.PriceLinesShape | app/routers/orders.py:84-109 | one line per item, in order, each matching the catalog, and their total is the reference total |
| Orders.PriceLinesFirstError | app/routers/orders.py:84-101 | a failed pricing fails with the error of the first failing item, all earlier items being priceable |
| Orders.PriceCartSpec | app/routers/orders.py:19-109 | a cart is priced exactly when it is valid (non-empty, positive quantities, every item valid); then one line per item matching the catalog and a total equal to the sum of (price + deltas) × qty; an empty cart gives 400 |
| Orders.PriceCart | app/routers/orders.py:19-109 | 422 for a non-positive quantity, 400 for an empty cart, then the lines and their total; its meaning is stated by `PriceCartSpec` |
| Orders.PricedLinesConsistent | app/routers/orders.py:107-108 | every priced line's amount is (unit-price snapshot + its option deltas) × qty |
| Orders.PizzaExample | app/routers/orders.py:84-109 | two large pizzas at 10000 with a +2000 size cost 24000 |
| Orders.ItemRowsFor | app/routers/orders.py:111-115 | one item row per priced line, for the new order, carrying the line's snapshots, qty and amount |
| Orders.TagOptions | app/routers/orders.py:119-124 | one option row per snapshot, tagged with the line's item id |
| Orders.OptionRowsSpec | app/routers/orders.py:119-124 | every new option row belongs to a new line, and line `i`'s option rows sum to that line's option deltas |
| Orders.ItemRowsTotal | app/routers/orders.py:109-129 | the new order's item rows sum to the priced total, and add nothing to any other order |
| Orders.CreatePreserves | app/routers/orders.py:72-135 | appending the PLACED header with the priced total, its lines, their option rows and the `null → PLACED` log entry keeps the tables consistent |
| Orders.CancelCheck | app/routers/orders.py:220-228 | passes exactly for a PLACED order the caller may cancel; 404 for a missing order; 403 for a claimed customer who is not the owner, checked before the status; otherwise 400 naming the status |
| Orders.ListOrders | app/routers/orders.py:185-206 | the customer's orders (all when no customer is given), newest first, at most `limit`, none left out unless `limit` newer were taken; a negative limit is an error |
| Orders.GetOrder | app/routers/orders.py:142-181 | 404 for a missing order; otherwise the order, exactly its lines and exactly the option rows of its lines |
| OrdersAccept.BodyFor | app/routers/orders_accept.py:44 | the caller's message when it is non-empty, otherwise the default text |
| OrdersAccept.AcceptGuard | app/routers/orders_accept.py:65-90 | 404 for a missing order; 400 naming CANCELED or COMPLETED; the idempotent answer exactly for ACCEPTED; the acceptance exactly for PLACED |
| OrdersAccept.AcceptTokens | app/routers/orders_accept.py:114-124 | no tokens for an order without a customer; otherwise exactly the non-empty tokens of the customer's active devices, one per such row, so its length is the number of those rows |
| OrdersAccept.QueuedNote | app/routers/orders_accept.py:126-136 | a queued, well-formed `fcm` record for the order's customer with the fixed title, the chosen body and the order/ACCEPTED payload |
| OrdersAccept.AcceptFollowUpAsWritten | app/routers/orders_accept.py:143-145 | as written, every outcome with tokens leaves the record as it was and answers 500 |
| OrdersAccept.AcceptFollowUp | app/routers/orders_accept.py:140-173 | intended follow-up: zero failures marks the record sent at the new time with no error; otherwise failed with the first three results; the report carries the token count and the reply's counts; a provider exception escapes and leaves the record queued |
| OrdersAccept.KeyErrorLeavesQueued | app/routers/orders_accept.py:145 | for a reply delivering to every token, the as-written step keeps the record queued and answers `KeyError`, where the intended step marks it sent |
| OrdersAccept.MarkNoTokens | app/routers/orders_accept.py:174-189 | exactly the order's queued `fcm` records whose user equals the customer (SQL equality) become failed with "no active fcm tokens"; every other record is unchanged |
| OrdersAccept.MarkNoTokensKeeps | app/routers/orders_accept.py:180-186 | the bulk update keeps order, target and well-formedness, and leaves no matching record queued |
| OrdersAccept.MarkNoTokensGuest | app/routers/orders_accept.py:184-186 | for a guest order `user_id = NULL` matches nothing, so the table is unchanged |
| AdminOrders.FailureText | app/routers/admin_orders.py:121 | a non-empty rendering of the token count and the results |
| AdminOrders.AdminFollowUp | app/routers/admin_orders.py:99-130 | sent, with no error and the send time, exactly when there were tokens and at least one was delivered; otherwise failed with an error of at most 4000 characters and no new send time; an exception's text is stored, cut to 4000 |
| AdminOrders.AdminNoTokensFails | app/routers/admin_orders.py:109-121 | with no tokens the provider is not consulted and the record is failed with the rendered empty reply |
| AdminOrders.AcceptCriteriaDiffer | app/routers/admin_orders.py:109 | a partial delivery is a success for `admin_accept` and a failure for `accept_order` |
| AdminOrders.CompleteGuard | app/routers/admin_orders.py:150-157 | passes exactly for PLACED or ACCEPTED; 404 for a missing order; 400 naming CANCELED or COMPLETED |
| AdminOrders.AdminListOrders | app/routers/admin_orders.py:12-35 | orders whose status is named by the filter (all when none is given), newest first, at most `limit`, none left out unless `limit` newer were taken; a negative limit is an error |
| AdminOrders.UnknownStatusSelectsNothing | app/routers/admin_orders.py:18-25 | any given status text that is not the name of a status selects no order |
| AdminOrders.SelectionNamesStatus | app/routers/admin_orders.py:18-25 | a given status text that selects some order is the name of a status |
| AdminOrders.NoStatusNamedReady | app/routers/admin_orders.py:18-25 | "READY" names no status, so filtering on it selects nothing |
| AdminNotifications.Batch | app/routers/admin_notifications.py:59-70 | only queued `fcm` records, strictly oldest first, at most `limit`; a queued record is left out only when `limit` older ones were taken |
| AdminNotifications.Outcomes | app/routers/admin_notifications.py:72-138 | one new record per batch record, in batch order, the `j`-th answered by provider call `j`; its meaning is stated by `SweptSpec` |
| AdminNotifications.Rewrite | app/routers/admin_notifications.py:114-138 | the per-record updates applied to the table, which keeps its length; which positions change is stated by `RewriteSpec` |
| AdminNotifications.Swept | app/routers/admin_notifications.py:59-138 | the table after one sweep; its meaning is stated by `SweptSpec`, `SweptSettles` and `SweptQueue` |
| AdminNotifications.ResultsText | app/routers/admin_notifications.py:129 | a rendering of the results list |
| AdminNotifications.DispatchOne | app/routers/admin_notifications.py:83-138 | the record is settled (never queued) with the send time set; sent with no error exactly when there are tokens and the reply reports no failure; failed with "no active device tokens" when there are none; otherwise failed with an error of at most 2000 characters, an exception's text cut to 2000 |
| AdminNotifications.CountSent | app/routers/admin_notifications.py:113 | the sent counter never exceeds the number of settled records |
| AdminNotifications.SweepTally | app/routers/admin_notifications.py:52-140 | `processed` is the batch size and at most `limit`, and `sent + failed == processed` |
| AdminNotifications.RewriteSpec | app/routers/admin_notifications.py:72-138 | each selected record holds its replacement and every other record is untouched |
| AdminNotifications.SweptSpec | app/routers/admin_notifications.py:72-138 | after a sweep, the `j`-th selected record holds the outcome of the `j`-th provider call, and every unselected record is as it was |
| AdminNotifications.SweptSettles | app/routers/admin_notifications.py:83-138 | the sweep keeps every record's order, target and well-formedness, and every selected record ends sent or failed, with the send time set |
| AdminNotifications.SweptQueue | app/routers/admin_notifications.py:66 | a record is queued after the sweep exactly when it was before and was not selected; a short batch drains the queue; a later sweep never selects a record this one settled |
| AdminNotifications.CountSentSpec | app/routers/admin_notifications.py:113-120 | the sent counter is the number of outcomes marked sent |
| AdminNotifications.ListNotifications | app/routers/admin_notifications.py:11-36 | records of the order (all when none is given), newest first, at most `limit`, none left out unless `limit` newer were taken; a negative limit is an error |
| Store.SumDeltas | app/routers/orders.py:102-104 | the running sum of the option deltas |
| Store.PriceOptions | app/routers/orders.py:89-105 | the option loop of one item gives the pricing of its selections, and the delta sum of the rows it collects |
| Store.PriceItem | app/routers/orders.py:84-108 | one pass of the item loop gives the pricing of that line |
| Store.PriceItems | app/routers/orders.py:84-124 | the item loop gives the pricing of the lines; on success its item rows, option rows and total are those of the priced lines |
| Store.PriceOrder | app/routers/orders.py:19-124 | the pricing of the cart, with the positive-quantity and non-empty checks first; on success the rows to insert, the total as the sum of the lines, and each line's amount as (unit price + deltas) × qty |
| Store.DispatchStep | app/routers/admin_notifications.py:72-138 | the record the loop computes is the sweep's outcome for it, and extends the rewrite and the sent count by one |
| Store.Sweep | app/routers/admin_notifications.py:72-138 | the record loop produces exactly the swept table and the counters of the records it settled |
| Store.Store.Insert | app/routers/orders.py:74-135 | appends the PLACED header with the priced total, the lines, the option rows and the first log entry, keeping `Valid()` |
| Store.Store.CreateOrder | app/routers/orders.py:65-139 | fails exactly when the cart's pricing fails, with that error, and then writes nothing; otherwise appends exactly the priced order's header, lines, option rows and one `null → PLACED` log entry by the customer; never touches notifications |
| Store.Store.CancelOrder | app/routers/orders.py:211-244 | refused exactly when the cancel guard refuses, with its error and no write; otherwise the order becomes CANCELED at `now` with one `PLACED → CANCELED` log entry by the customer |
| Store.Store.AdminComplete | app/routers/admin_orders.py:144-173 | refused exactly when the complete guard refuses, with its error and no write; otherwise the order becomes COMPLETED at `now` with one `prev → COMPLETED` log entry by the owner, and no notification |
| Store.Store.Accept | app/routers/orders_accept.py:92-138 | the status write, the `PLACED → ACCEPTED` log entry by the owner, and the queued record, keeping `Valid()` |
| Store.Store.RewriteLast | app/routers/orders_accept.py:147-171 | rewrites the newest record in place, keeping `Valid()` and every other table |
| Store.Store.AcceptOrder | app/routers/orders_accept.py:26-200 | a refusal writes nothing; an ACCEPTED order gets the skipped answer and no write; otherwise the order becomes ACCEPTED at `now` with one log entry and one record, then with tokens the record gets the follow-up of the single provider call, and without tokens the bulk no-token update runs; the order stays ACCEPTED whatever the delivery, and a repeated accept is the idempotent answer; the post-commit step is the corrected `AcceptFollowUp` (see Findings), since as written it answers 500 and leaves the record queued whatever the reply |
| Store.Store.AcceptAndNotify | app/routers/orders_accept.py:93-200 | from a PLACED order: ACCEPTED at `now` with its log entry and queued record, then with the customer's tokens one provider call and the corrected follow-up on that record, without tokens the bulk no-token update; afterwards the order's guard answers already-accepted |
| Store.Store.AdminAccept | app/routers/admin_orders.py:42-138 | a refusal writes nothing; an ACCEPTED order gets the skipped answer and no write; otherwise the order becomes ACCEPTED with one log entry, and exactly one record, settled by `AdminFollowUp` from the pushed-to recent tokens; the answer carries the accepted order and the token count |
| Store.Store.AdminAcceptAndPush | app/routers/admin_orders.py:66-136 | from a PLACED order, in one transaction: ACCEPTED at `now` with its log entry, the queued record rewritten by `AdminFollowUp` of one provider call to the recent tokens, and the answer reports the accepted row and the token count |
| Store.Store.DispatchNotifications | app/routers/admin_notifications.py:44-142 | a negative limit is refused with nothing changed; otherwise the table becomes exactly the swept table and the answer is the sweep's counters; no other table changes |

## Left out

- I/O, the HTTP framework, the database driver and connection handling are
  not modelled. Each endpoint is one method, and the method boundary is the
  transaction.
- Concurrency between requests is not modelled; the model is sequential. The
  sweep has no row claiming, so two concurrent sweeps could select the same
  records.
- The menu, devices and users routers, `app/main.py` and `app/db.py` are not
  part of this model. The catalog and the devices table are read-only inputs.
- The routers of `orders_accept.py` are not mounted by `app/main.py`, so
  `accept_order` is unreachable in the running app. It is modelled as written
  nonetheless.
- `admin_orders.py` imports `send_push_to_tokens` from the push module, which
  does not define it. `app/main.py` imports `admin_orders.py`, so as written
  the application cannot start. The model assumes the function behaves like
  `send_fcm_to_tokens` and answers with its `sent` count and its `results`.
- Identifiers are table positions, and position order is creation order (the
  `created_at` ordering). `order_no` is taken to be the position plus one, so
  numbering gaps from failed transactions are not modelled. The uuid text
  casts are not modelled either.
- Timestamps from `now()` are parameters. `admin_accept` uses one time
  throughout, because PostgreSQL's `now()` is fixed within a transaction.
  `accept_order`'s second transaction takes a later time.
- The exact error texts are stand-ins with the stated length bounds, not the
  real string values. These are `str(resp[:3])`, `json.dumps(...)` and
  exception texts. The JSON payload decoding at
  `app/routers/admin_notifications.py:94-100` is left out, since the payload
  reaches the provider only as data.
- The push provider sees only the call number and the tokens. The title, body
  and data it is sent are not part of its input.
- Orders.FirstInactive: the source reports the first inactive row in database
  row order, which is unspecified. The model names the first inactive key in
  request order, so only "some inactive requested key" is promised.
- `is_required` on options is read by the source but never enforced, and the
  model does not enforce it either.
- A `selection_type` other than `single` or `multi` is subject to no arity
  rule, as in the source.
- `status` is taken to be a text column. A status filter naming no status
  selects nothing.
- Store.Store.CreateOrder writes the header once, with its final total. The
  source inserts it with total 0 and updates it within the same transaction,
  so the committed state is the same.

## Findings

| source | as written | input that shows it | evidently intended | confidence | as-written member | corrected member |
|---|---|---|---|---|---|---|
| app/routers/orders_accept.py:145 | after the commit, `accept_order` reads `resp["success"]` and `resp["failure"]` (and later `resp["responses"]`), keys the push call never returns; it raises `KeyError`, answers 500 and leaves the record queued | an order with one device token whose push succeeds: `Replied(1, 0, ["ok"])` | read `sent`, `failed` and `results`, mark the record sent and report the counts | not executed | OrdersAccept.AcceptFollowUpAsWritten | OrdersAccept.AcceptFollowUp |
