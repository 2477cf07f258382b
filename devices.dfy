/** The read-only view of the `devices` table the core needs: which push
    tokens belong to a user's active devices. A stored token of `""` stands
    for a NULL or empty `fcm_token`. */
module Devices {
  import opened Common

  datatype Device = Device(userId: string, fcmToken: string, isActive: bool, lastSeenAt: Option<int>)

  /** A device whose token a lookup for `user` returns. A missing user
      (`user_id = NULL` in SQL) matches no device. */
  ghost predicate Usable(d: Device, user: Option<string>)
  {
    user == Some(d.userId) && d.isActive && d.fcmToken != ""
  }

  /** The `fcm_token` column of `ds`, one entry per row. */
  ghost function TokenColumn(ds: seq<Device>): (r: seq<string>)
    ensures |r| == |ds|
  {
    seq(|ds|, i requires 0 <= i < |ds| => ds[i].fcmToken)
  }

  /** `r` lists every non-empty token as many times as the rows of `ds` hold
      it, and no empty one: one entry per row of `ds` with a token. */
  ghost predicate CountsTokensOf(ds: seq<Device>, r: seq<string>)
  {
    && |r| == |ds| - multiset(TokenColumn(ds))[""]
    && forall t :: multiset(r)[t] == if t == "" then 0 else multiset(TokenColumn(ds))[t]
  }

  /** Tokens of the active devices of `user`, empty and missing tokens
      dropped, in table order: one per active row with a token. */
  function ActiveTokens(devices: seq<Device>, user: Option<string>): (r: seq<string>)
    ensures |r| <= |devices|
    ensures forall t :: t in r <==> exists d :: d in devices && Usable(d, user) && d.fcmToken == t
    ensures user.None? ==> r == []
    ensures CountsTokensOf(ActiveOf(devices, user), r)
  {
    var active := ActiveOf(devices, user);
    var r := NonEmptyTokens(active);
    assert forall t :: t in r ==> exists d :: d in devices && Usable(d, user) && d.fcmToken == t by {
      forall t | t in r ensures exists d :: d in devices && Usable(d, user) && d.fcmToken == t {
        var d :| d in active && d.fcmToken != "" && d.fcmToken == t;
      }
    }
    assert forall t :: (exists d :: d in devices && Usable(d, user) && d.fcmToken == t) ==> t in r by {
      forall t | exists d :: d in devices && Usable(d, user) && d.fcmToken == t ensures t in r {
        var d :| d in devices && Usable(d, user) && d.fcmToken == t;
        assert d in active;
      }
    }
    ActiveOfLength(devices, user);
    r
  }

  /** No more rows than the table, and none for a missing user. */
  lemma {:induction false} ActiveOfLength(devices: seq<Device>, user: Option<string>)
    ensures |ActiveOf(devices, user)| <= |devices|
    ensures user.None? ==> ActiveOf(devices, user) == []
  {
    if devices != [] { ActiveOfLength(devices[..|devices| - 1], user); }
  }

  /** The rows `user_id = user and is_active = true` selects, in table order:
      each matching row as many times as it occurs, no other row. */
  function ActiveOf(devices: seq<Device>, user: Option<string>): (r: seq<Device>)
    ensures forall d :: d in r <==> d in devices && user == Some(d.userId) && d.isActive
    ensures forall d :: multiset(r)[d] == if user == Some(d.userId) && d.isActive then multiset(devices)[d] else 0
  {
    if devices == [] then []
    else
      var init := devices[..|devices| - 1];
      var last := devices[|devices| - 1];
      assert forall x :: x in devices <==> x in init || x == last;
      assert devices == init + [last];
      if user == Some(last.userId) && last.isActive then ActiveOf(init, user) + [last] else ActiveOf(init, user)
  }

  /** `a` may be listed before `b` under `order by last_seen_at desc nulls last`. */
  predicate SeenNoEarlier(a: Device, b: Device)
  {
    match a.lastSeenAt
    case None => b.lastSeenAt.None?
    case Some(x) => b.lastSeenAt.None? || b.lastSeenAt.value <= x
  }

  ghost predicate RecencySorted(s: seq<Device>)
  {
    forall i, j :: 0 <= i < j < |s| ==> SeenNoEarlier(s[i], s[j])
  }

  function InsertByRecency(d: Device, s: seq<Device>): (r: seq<Device>)
    requires RecencySorted(s)
    ensures RecencySorted(r) && multiset(r) == multiset(s) + multiset{d}
    ensures forall x :: x in r ==> x == d || x in s
  {
    if s == [] then [d]
    else if SeenNoEarlier(d, s[0]) then
      assert forall j :: 0 <= j < |s| ==> SeenNoEarlier(s[0], s[j]);
      [d] + s
    else
      assert s == [s[0]] + s[1..];
      var tail := InsertByRecency(d, s[1..]);
      HeadPrecedes(d, s, tail);
      [s[0]] + tail
  }

  /** The head of a sorted sequence may precede anything drawn from its tail
      or the inserted device it was seen no earlier than. */
  lemma {:induction false} HeadPrecedes(d: Device, s: seq<Device>, tail: seq<Device>)
    requires s != [] && RecencySorted(s) && !SeenNoEarlier(d, s[0])
    requires forall x :: x in tail ==> x == d || x in s[1..]
    ensures forall j :: 0 <= j < |tail| ==> SeenNoEarlier(s[0], tail[j])
  {
    forall j | 0 <= j < |tail| ensures SeenNoEarlier(s[0], tail[j]) {
      assert tail[j] in tail;
      if tail[j] != d {
        var m :| 0 <= m < |s[1..]| && s[1..][m] == tail[j];
        assert s[m + 1] == tail[j];
      }
    }
  }

  /** The devices reordered most recently seen first, devices never seen last. */
  function SortByRecency(s: seq<Device>): (r: seq<Device>)
    ensures RecencySorted(r) && multiset(r) == multiset(s)
  {
    if s == [] then []
    else
      assert s == [s[0]] + s[1..];
      InsertByRecency(s[0], SortByRecency(s[1..]))
  }

  /** Non-empty tokens of `ds`, in order: `[r["fcm_token"] for r in rows if r.get("fcm_token")]`. */
  function NonEmptyTokens(ds: seq<Device>): (r: seq<string>)
    ensures |r| <= |ds|
    ensures forall t :: t in r <==> exists d :: d in ds && d.fcmToken != "" && d.fcmToken == t
    ensures CountsTokensOf(ds, r)
  {
    if ds == [] then []
    else
      var init := ds[..|ds| - 1];
      var last := ds[|ds| - 1];
      assert forall x :: x in ds <==> x in init || x == last;
      assert ds == init + [last];
      var r := if last.fcmToken != "" then NonEmptyTokens(init) + [last.fcmToken] else NonEmptyTokens(init);
      CountsTokensStep(init, last, NonEmptyTokens(init), r);
      r
  }

  /** One more row adds its token, when it has one, to a list that counts the tokens of the rows before. */
  lemma {:induction false} CountsTokensStep(init: seq<Device>, last: Device, rest: seq<string>, r: seq<string>)
    requires CountsTokensOf(init, rest)
    requires r == if last.fcmToken != "" then rest + [last.fcmToken] else rest
    ensures CountsTokensOf(init + [last], r)
  {
    assert TokenColumn(init + [last]) == TokenColumn(init) + [last.fcmToken];
  }


  /** The rows `admin_accept` reads from `devices`: the active devices of
      `user`, most recently seen first, at most 20. Fewer than all of them
      are kept only when there are more than 20, and then every active
      device left out was seen no later than each one kept. */
  function RecentDevices(devices: seq<Device>, user: Option<string>): (top: seq<Device>)
    ensures |top| == Min(20, |ActiveOf(devices, user)|)
    ensures RecencySorted(top)
    ensures multiset(top) <= multiset(ActiveOf(devices, user))
    ensures |ActiveOf(devices, user)| <= 20 ==> multiset(top) == multiset(ActiveOf(devices, user))
    ensures forall d :: multiset(top)[d] < multiset(ActiveOf(devices, user))[d] ==>
      forall i :: 0 <= i < |top| ==> SeenNoEarlier(top[i], d)
  {
    var active := ActiveOf(devices, user);
    var sorted := SortByRecency(active);
    assert |sorted| == |active| by {
      assert |multiset(sorted)| == |multiset(active)|;
    }
    var k := Min(20, |sorted|);
    SortedPrefix(sorted, k);
    PrefixPassesOver(sorted, k);
    assert k == |sorted| ==> sorted[..k] == sorted;
    sorted[..k]
  }

  lemma {:induction false} SortedPrefix(s: seq<Device>, k: nat)
    requires RecencySorted(s) && k <= |s|
    ensures RecencySorted(s[..k])
    ensures multiset(s[..k]) <= multiset(s)
  {
    assert s == s[..k] + s[k..];
    assert multiset(s) == multiset(s[..k]) + multiset(s[k..]);
  }

  /** A device a recency-sorted prefix holds fewer copies of than the whole
      sequence comes after every device of the prefix. */
  lemma {:induction false} PrefixPassesOver(s: seq<Device>, k: nat)
    requires RecencySorted(s) && k <= |s|
    ensures forall d :: multiset(s[..k])[d] < multiset(s)[d] ==>
      forall i :: 0 <= i < k ==> SeenNoEarlier(s[..k][i], d)
  {
    var top, rest := s[..k], s[k..];
    assert s == top + rest;
    assert multiset(s) == multiset(top) + multiset(rest);
    forall d | multiset(top)[d] < multiset(s)[d]
      ensures forall i :: 0 <= i < k ==> SeenNoEarlier(top[i], d)
    {
      assert d in multiset(rest);
      var m :| 0 <= m < |rest| && rest[m] == d;
      assert s[k + m] == d;
    }
  }

  /** `r` holds exactly the non-empty tokens of `ds`. */
  ghost predicate TokensOf(ds: seq<Device>, r: seq<string>)
  {
    forall t :: t in r <==> exists d :: d in ds && d.fcmToken != "" && d.fcmToken == t
  }

  /** A usable device whose token `r` misses was passed over for 20 devices
      seen no earlier than it. */
  ghost predicate LeftOutOnlyBehind(devices: seq<Device>, user: Option<string>, r: seq<string>)
  {
    forall d :: d in devices && Usable(d, user) && d.fcmToken !in r ==>
      |RecentDevices(devices, user)| == 20 &&
      forall i :: 0 <= i < 20 ==> SeenNoEarlier(RecentDevices(devices, user)[i], d)
  }

  /** The token lookup of `admin_accept`: the non-empty tokens of the 20
      most recently seen active devices of `user`. A usable device's token
      is missing only when 20 active devices seen no earlier were taken. */
  function RecentTokens(devices: seq<Device>, user: Option<string>): (r: seq<string>)
    ensures |r| <= 20
    ensures TokensOf(RecentDevices(devices, user), r)
    ensures CountsTokensOf(RecentDevices(devices, user), r)
    ensures forall t :: t in r ==> exists d :: d in devices && Usable(d, user) && d.fcmToken == t
    ensures |ActiveOf(devices, user)| <= 20 ==> forall t :: t in r <==> t in ActiveTokens(devices, user)
    ensures LeftOutOnlyBehind(devices, user, r)
  {
    RecentKeptActive(devices, user);
    RecentLeftOut(devices, user);
    NonEmptyTokens(RecentDevices(devices, user))
  }

  /** The kept devices are active devices of `user`, and all of them when there are at most 20. */
  lemma {:induction false} RecentKeptActive(devices: seq<Device>, user: Option<string>)
    ensures forall x :: x in RecentDevices(devices, user) ==> x in ActiveOf(devices, user)
    ensures |ActiveOf(devices, user)| <= 20 ==>
      forall x :: x in RecentDevices(devices, user) <==> x in ActiveOf(devices, user)
  {
    var active := ActiveOf(devices, user);
    var top := RecentDevices(devices, user);
    forall x | x in top ensures x in active {
      assert x in multiset(top);
    }
    if |active| <= 20 {
      forall x ensures x in top <==> x in active {
        assert x in top <==> x in multiset(top);
      }
    }
  }

  lemma {:induction false} RecentLeftOut(devices: seq<Device>, user: Option<string>)
    ensures LeftOutOnlyBehind(devices, user, NonEmptyTokens(RecentDevices(devices, user)))
  {
    var top := RecentDevices(devices, user);
    forall d | d in devices && Usable(d, user) && d.fcmToken !in NonEmptyTokens(top)
      ensures |top| == 20 && forall i :: 0 <= i < 20 ==> SeenNoEarlier(top[i], d)
    {
      PassedOver(devices, user, d);
    }
  }

  /** A usable device not among the kept ones was passed over for 20 seen no earlier. */
  lemma {:induction false} PassedOver(devices: seq<Device>, user: Option<string>, d: Device)
    requires d in devices && Usable(d, user)
    requires d.fcmToken !in NonEmptyTokens(RecentDevices(devices, user))
    ensures |RecentDevices(devices, user)| == 20
    ensures forall i :: 0 <= i < 20 ==> SeenNoEarlier(RecentDevices(devices, user)[i], d)
  {
    var active := ActiveOf(devices, user);
    var top := RecentDevices(devices, user);
    assert d in active;
    assert d !in top;
    assert multiset(top)[d] == 0 < multiset(active)[d];
  }
}
