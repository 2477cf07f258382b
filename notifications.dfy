/** `app/routers/admin_notifications.py`: the `list_notifications` read and
    the delivery sweep of `dispatch_notifications`. The sweep takes the
    oldest queued `fcm` records, up to a limit, looks up each record's
    tokens, calls the push provider once per record that has tokens, and
    rewrites each record as sent or failed. This module states the sweep as
    a function of the table before it; `Store.Sweep`
    carries it out record by record. */
module AdminNotifications {
  import opened Common
  import opened Tables
  import opened Push
  import Devices
  import Listing

  /** The bound on the stored error text of the sweep. */
  const ErrorLimit: nat := 2000

  /** The error text of a record whose user has no usable device. */
  const NoDevicesText: string := "no active device tokens"

  /** The records the sweep selects: `send_status='queued' and channel='fcm'`. */
  predicate IsQueuedFcm(n: NotificationRow)
  {
    n.sendStatus == Queued && n.channel == "fcm"
  }

  /** The batch of one sweep: positions of queued `fcm` records, oldest
      first, at most `limit`; a queued record is left for a later sweep only
      when `limit` older ones were taken. */
  function Batch(notes: seq<NotificationRow>, limit: nat): (r: seq<nat>)
    ensures |r| <= limit
    ensures forall i :: 0 <= i < |r| ==> r[i] < |notes| && IsQueuedFcm(notes[r[i]])
    ensures forall i, j :: 0 <= i < j < |r| ==> r[i] < r[j]
    ensures forall k :: 0 <= k < |notes| && IsQueuedFcm(notes[k]) && k !in r ==>
      |r| == limit && forall i :: 0 <= i < |r| ==> r[i] < k
  {
    Listing.OldestMatching(notes, IsQueuedFcm, limit, 0)
  }

  /** Stand-in for `json.dumps(results)`. */
  function ResultsText(results: seq<string>): (r: string)
    ensures |r| >= 2 && r[0] == '['
  {
    "[" + Join(results) + "]"
  }

  /** The rewrite of one record: failed with the no-device text when there
      are no tokens (the provider is then not called); failed with the
      exception text when the provider raises; sent when the reply reports
      no failure; failed with the rendered results otherwise. Error texts are
      cut to 2000 characters, and every outcome records `now` as send time. */
  function DispatchOne(n: NotificationRow, tokens: seq<string>, reply: PushReply, now: int): (r: NotificationRow)
    ensures r.orderId == n.orderId && r.userId == n.userId && r.channel == n.channel
    ensures r.title == n.title && r.body == n.body && r.payload == n.payload && r.createdAt == n.createdAt
    ensures r.sendStatus != Queued && r.sentAt == Some(now)
    ensures r.sendStatus == Sent <==> tokens != [] && reply.Replied? && reply.failed == 0
    ensures r.sendStatus == Sent ==> r.errorMessage.None?
    ensures r.sendStatus == Failed ==> r.errorMessage.Some? && |r.errorMessage.value| <= ErrorLimit
    ensures tokens == [] ==> r.errorMessage == Some(NoDevicesText)
    ensures tokens != [] && reply.Raised? ==> r.errorMessage == Some(Truncate(reply.message, ErrorLimit))
    ensures NotificationWellFormed(r)
  {
    if tokens == [] then n.(sendStatus := Failed, errorMessage := Some(NoDevicesText), sentAt := Some(now))
    else
      match reply
      case Raised(m) => n.(sendStatus := Failed, errorMessage := Some(Truncate(m, ErrorLimit)), sentAt := Some(now))
      case Replied(_, failed, results) =>
        if failed == 0 then n.(sendStatus := Sent, errorMessage := None, sentAt := Some(now))
        else n.(sendStatus := Failed, errorMessage := Some(Truncate(ResultsText(results), ErrorLimit)), sentAt := Some(now))
  }

  /** The tokens the sweep looks up for a record: its user's usable devices. */
  function TokensFor(devices: seq<Devices.Device>, n: NotificationRow): seq<string>
  {
    Devices.ActiveTokens(devices, n.userId)
  }

  /** The new value of each batch record, in batch order; the `j`-th record
      of the batch is the provider's call number `j`. */
  function Outcomes(notes: seq<NotificationRow>, devices: seq<Devices.Device>, batch: seq<nat>,
                    provider: Provider, now: int): (r: seq<NotificationRow>)
    requires forall i :: 0 <= i < |batch| ==> batch[i] < |notes|
    ensures |r| == |batch|
  {
    seq(|batch|, j requires 0 <= j < |batch| =>
      DispatchOne(notes[batch[j]], TokensFor(devices, notes[batch[j]]),
                  provider(j, TokensFor(devices, notes[batch[j]])), now))
  }

  /** `notes` with record `at[j]` replaced by `outs[j]`, in order. */
  function Rewrite(notes: seq<NotificationRow>, at: seq<nat>, outs: seq<NotificationRow>): (r: seq<NotificationRow>)
    requires |at| == |outs|
    requires forall i :: 0 <= i < |at| ==> at[i] < |notes|
    ensures |r| == |notes|
    decreases |at|
  {
    if at == [] then notes
    else Rewrite(notes, at[..|at| - 1], outs[..|outs| - 1])[at[|at| - 1] := outs[|outs| - 1]]
  }

  /** The table after a sweep of at most `limit` records. */
  function Swept(notes: seq<NotificationRow>, devices: seq<Devices.Device>, limit: nat,
                 provider: Provider, now: int): seq<NotificationRow>
  {
    Rewrite(notes, Batch(notes, limit), Outcomes(notes, devices, Batch(notes, limit), provider, now))
  }

  /** Number of sent records among `outs`. */
  function CountSent(outs: seq<NotificationRow>): (r: nat)
    ensures r <= |outs|
  {
    if outs == [] then 0
    else CountSent(outs[..|outs| - 1]) + (if outs[|outs| - 1].sendStatus == Sent then 1 else 0)
  }

  /** The counters `dispatch_notifications` answers with. */
  datatype Tally = Tally(processed: nat, sent: nat, failed: nat)

  /** The counters of a sweep of at most `limit` records. */
  function SweepTally(notes: seq<NotificationRow>, devices: seq<Devices.Device>, limit: nat,
                      provider: Provider, now: int): (r: Tally)
    ensures r.processed == |Batch(notes, limit)| <= limit
    ensures r.sent + r.failed == r.processed
  {
    var batch := Batch(notes, limit);
    var sent := CountSent(Outcomes(notes, devices, batch, provider, now));
    Tally(|batch|, sent, |batch| - sent)
  }

  /** With distinct positions in increasing order, each listed record ends
      up as its replacement and every other record is untouched. */
  lemma {:induction false} RewriteSpec(notes: seq<NotificationRow>, at: seq<nat>, outs: seq<NotificationRow>)
    requires |at| == |outs|
    requires forall i :: 0 <= i < |at| ==> at[i] < |notes|
    requires forall i, j :: 0 <= i < j < |at| ==> at[i] < at[j]
    ensures forall j :: 0 <= j < |at| ==> Rewrite(notes, at, outs)[at[j]] == outs[j]
    ensures forall k :: 0 <= k < |notes| && k !in at ==> Rewrite(notes, at, outs)[k] == notes[k]
    decreases |at|
  {
    if at != [] {
      var n := |at| - 1;
      var init, initOuts := at[..n], outs[..n];
      RewriteSpec(notes, init, initOuts);
      var r := Rewrite(notes, at, outs);
      assert r == Rewrite(notes, init, initOuts)[at[n] := outs[n]];
      forall j | 0 <= j < |at| ensures r[at[j]] == outs[j] {
        if j < n {
          assert init[j] == at[j] && at[j] < at[n] && initOuts[j] == outs[j];
        }
      }
      assert forall k :: k in at <==> k in init || k == at[n];
    }
  }

  /** After a sweep every batch record holds its outcome and every other
      record is as it was. */
  lemma {:induction false} SweptSpec(notes: seq<NotificationRow>, devices: seq<Devices.Device>, limit: nat, provider: Provider, now: int)
    ensures |Swept(notes, devices, limit, provider, now)| == |notes|
    ensures forall j :: 0 <= j < |Batch(notes, limit)| ==>
      Swept(notes, devices, limit, provider, now)[Batch(notes, limit)[j]] ==
      DispatchOne(notes[Batch(notes, limit)[j]], TokensFor(devices, notes[Batch(notes, limit)[j]]),
                  provider(j, TokensFor(devices, notes[Batch(notes, limit)[j]])), now)
    ensures forall k :: 0 <= k < |notes| && k !in Batch(notes, limit) ==>
      Swept(notes, devices, limit, provider, now)[k] == notes[k]
  {
    RewriteSpec(notes, Batch(notes, limit), Outcomes(notes, devices, Batch(notes, limit), provider, now));
  }

  /** The sweep keeps every record's order, target and well-formedness, and
      settles every record it selects: none stays queued, each gets `now` as
      send time. */
  lemma {:induction false} SweptSettles(notes: seq<NotificationRow>, devices: seq<Devices.Device>, limit: nat, provider: Provider, now: int)
    requires forall k :: 0 <= k < |notes| ==> NotificationWellFormed(notes[k])
    ensures forall k :: 0 <= k < |notes| ==>
      && Swept(notes, devices, limit, provider, now)[k].orderId == notes[k].orderId
      && Swept(notes, devices, limit, provider, now)[k].userId == notes[k].userId
      && NotificationWellFormed(Swept(notes, devices, limit, provider, now)[k])
    ensures forall k :: k in Batch(notes, limit) ==>
      Swept(notes, devices, limit, provider, now)[k].sendStatus != Queued &&
      Swept(notes, devices, limit, provider, now)[k].sentAt == Some(now)
  {
    SweptSpec(notes, devices, limit, provider, now);
  }

  /** A record is queued for `fcm` after the sweep exactly when it was
      before and the sweep did not select it; so a sweep that takes fewer
      than `limit` records leaves nothing queued, and a later sweep never
      selects a record this one settled. */
  lemma {:induction false} SweptQueue(notes: seq<NotificationRow>, devices: seq<Devices.Device>, limit: nat, provider: Provider, now: int)
    ensures forall k :: 0 <= k < |notes| ==>
      (IsQueuedFcm(Swept(notes, devices, limit, provider, now)[k]) <==> IsQueuedFcm(notes[k]) && k !in Batch(notes, limit))
    ensures |Batch(notes, limit)| < limit ==>
      forall k :: 0 <= k < |notes| ==> !IsQueuedFcm(Swept(notes, devices, limit, provider, now)[k])
    ensures forall m: nat, k :: k in Batch(notes, limit) ==> k !in Batch(Swept(notes, devices, limit, provider, now), m)
  {
    SweptSpec(notes, devices, limit, provider, now);
    var after := Swept(notes, devices, limit, provider, now);
    var batch := Batch(notes, limit);
    forall k | 0 <= k < |notes|
      ensures IsQueuedFcm(after[k]) <==> IsQueuedFcm(notes[k]) && k !in batch
    {
      if k in batch {
        var j :| 0 <= j < |batch| && batch[j] == k;
      }
    }
    forall m: nat, k | k in batch ensures k !in Batch(after, m) {
      var j :| 0 <= j < |batch| && batch[j] == k;
      assert !IsQueuedFcm(after[k]);
    }
  }

  /** The sweep's counters: one processed per selected record, each either
      sent or failed, and `sent` counts the records the sweep marked sent. */
  lemma {:induction false} CountSentSpec(outs: seq<NotificationRow>)
    ensures CountSent(outs) == |set j | 0 <= j < |outs| && outs[j].sendStatus == Sent|
    decreases |outs|
  {
    if outs != [] {
      var n := |outs| - 1;
      CountSentSpec(outs[..n]);
      var before := set j | 0 <= j < n && outs[..n][j].sendStatus == Sent;
      var all := set j | 0 <= j < |outs| && outs[j].sendStatus == Sent;
      if outs[n].sendStatus == Sent {
        assert all == before + {n};
      } else {
        assert all == before;
      }
    }
  }

  /** `list_notifications`: positions of the records of order `orderId`
      (all records when no order is given), newest first, at most `limit`. */
  function ListNotifications(notes: seq<NotificationRow>, orderId: Option<nat>, limit: int): (r: Result<seq<nat>>)
    ensures r.Err? <==> limit < 0
    ensures r.Err? ==> r.error == NegativeLimit
    ensures r.Ok? ==> |r.value| <= limit
    ensures r.Ok? ==> forall i :: 0 <= i < |r.value| ==>
      r.value[i] < |notes| && (orderId.Some? ==> notes[r.value[i]].orderId == orderId.value)
    ensures r.Ok? ==> forall i, j :: 0 <= i < j < |r.value| ==> r.value[i] > r.value[j]
    ensures r.Ok? ==> forall k :: (0 <= k < |notes| && (orderId.None? || notes[k].orderId == orderId.value) &&
                                k !in r.value) ==>
      |r.value| == limit && forall i :: 0 <= i < |r.value| ==> r.value[i] > k
  {
    if limit < 0 then Err(NegativeLimit)
    else Ok(Listing.NewestMatching(notes, (n: NotificationRow) => orderId.None? || n.orderId == orderId.value,
                                   limit, |notes|))
  }
}
