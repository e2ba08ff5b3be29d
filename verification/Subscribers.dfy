/** The subscriber table of the notification client, and the response parser: the code
    that runs under `subscribersMu`, proved against functions on values. */
module Subscribers {
  type TxID = string

  /** A receiver channel, by identity. Each call of `Subscribe` makes its own. */
  type Chan = nat

  type Table = map<TxID, seq<Chan>>

  const STATUS_UNSPECIFIED: int := 0

  datatype StatusEvent = StatusEvent(txID: TxID, status: int)

  datatype Response = Response(timeouts: seq<TxID>, events: seq<StatusEvent>)

  datatype Notification = Notification(receiver: Chan, status: int)

  // ---------- parseResponse ----------

  /** The last status reported for a transaction, if any. */
  function LastEvent(events: seq<StatusEvent>, tx: TxID): (r: seq<int>)
    ensures |r| <= 1
  {
    if events == [] then []
    else if events[|events| - 1].txID == tx then [events[|events| - 1].status]
    else LastEvent(events[..|events| - 1], tx)
  }

  function Mentioned(resp: Response): set<TxID>
  {
    (set tx | tx in resp.timeouts) + (set e | e in resp.events :: e.txID)
  }

  /** A status event wins over a timeout, and a later event over an earlier one. */
  function StatusOf(resp: Response, tx: TxID): int
  {
    var last := LastEvent(resp.events, tx);
    if last == [] then STATUS_UNSPECIFIED else last[0]
  }

  function Parse(resp: Response): map<TxID, int>
  {
    map tx | tx in Mentioned(resp) :: StatusOf(resp, tx)
  }

  /** Event `i` is the last one about its transaction. */
  predicate IsLast(events: seq<StatusEvent>, i: nat)
  {
    i < |events| && forall j :: i < j < |events| ==> events[j].txID != events[i].txID
  }

  /** The last event about `tx` reports this status. */
  ghost predicate LastSays(events: seq<StatusEvent>, tx: TxID, status: int)
  {
    exists i: nat :: IsLast(events, i) && events[i] == StatusEvent(tx, status)
  }

  lemma LastSaysStep(events: seq<StatusEvent>, e: StatusEvent, tx: TxID, status: int)
    ensures LastSays(events + [e], tx, status) <==>
              if e.txID == tx then e.status == status else LastSays(events, tx, status)
  {
    var all := events + [e];
    assert all[|events|] == e && IsLast(all, |events|);
    if e.txID != tx {
      if i: nat :| IsLast(events, i) && events[i] == StatusEvent(tx, status) {
        assert IsLast(all, i) && all[i] == events[i];
      }
      if i: nat :| IsLast(all, i) && all[i] == StatusEvent(tx, status) {
        assert i < |events| && all[i] == events[i];
        assert forall j :: i < j < |events| ==> all[j] == events[j];
        assert IsLast(events, i);
      }
    }
  }

  lemma {:induction false} LastEventIff(events: seq<StatusEvent>, tx: TxID)
    ensures LastEvent(events, tx) == [] <==> forall e :: e in events ==> e.txID != tx
    ensures forall status :: LastEvent(events, tx) == [status] <==> LastSays(events, tx, status)
  {
    if events != [] {
      var front, last := events[..|events| - 1], events[|events| - 1];
      assert events == front + [last];
      LastEventIff(front, tx);
      forall status
        ensures LastEvent(events, tx) == [status] <==> LastSays(events, tx, status)
      {
        LastSaysStep(front, last, tx, status);
      }
    }
  }

  /** What parsing a response promises: a status for each transaction that timed out or that
      some event names, the one reported last if there is any, and "unspecified" otherwise. */
  ghost predicate Parsed(resp: Response, res: map<TxID, int>)
  {
    && (forall tx :: tx in res <==> tx in resp.timeouts || exists e :: e in resp.events && e.txID == tx)
    && (forall i: nat :: IsLast(resp.events, i) ==>
          resp.events[i].txID in res && res[resp.events[i].txID] == resp.events[i].status)
    && (forall tx :: tx in res && (forall e :: e in resp.events ==> e.txID != tx) ==> res[tx] == STATUS_UNSPECIFIED)
  }

  lemma ParseMeans(resp: Response)
    ensures Parsed(resp, Parse(resp))
  {
    forall tx
      ensures tx in Parse(resp) <==> tx in resp.timeouts || exists e :: e in resp.events && e.txID == tx
    {
    }
    forall i: nat | IsLast(resp.events, i)
      ensures resp.events[i].txID in Parse(resp) && Parse(resp)[resp.events[i].txID] == resp.events[i].status
    {
      var e := resp.events[i];
      assert e in resp.events;
      LastEventIff(resp.events, e.txID);
      assert LastSays(resp.events, e.txID, e.status);
    }
    forall tx | tx in Parse(resp) && forall e :: e in resp.events ==> e.txID != tx
      ensures Parse(resp)[tx] == STATUS_UNSPECIFIED
    {
      LastEventIff(resp.events, tx);
    }
  }

  /** And no other map meets that promise. */
  lemma ParsedUnique(resp: Response, res: map<TxID, int>)
    requires Parsed(resp, res)
    ensures res == Parse(resp)
  {
    ParseMeans(resp);
    var parsed := Parse(resp);
    forall tx | tx in res
      ensures tx in parsed && res[tx] == parsed[tx]
    {
      LastEventIff(resp.events, tx);
      if e :| e in resp.events && e.txID == tx {
        assert LastSays(resp.events, tx, LastEvent(resp.events, tx)[0]);
      }
    }
  }

  lemma ParseStep(timeouts: seq<TxID>, events: seq<StatusEvent>, r: StatusEvent)
    ensures Parse(Response(timeouts, events + [r])) == Parse(Response(timeouts, events))[r.txID := r.status]
  {
    assert (events + [r])[..|events|] == events;
    var before, after := Response(timeouts, events), Response(timeouts, events + [r]);
    assert Mentioned(after) == Mentioned(before) + {r.txID};
    forall tx
      ensures StatusOf(after, tx) == if tx == r.txID then r.status else StatusOf(before, tx)
    {
    }
  }

  lemma TimeoutStep(timeouts: seq<TxID>, tx: TxID)
    ensures Parse(Response(timeouts + [tx], [])) == Parse(Response(timeouts, []))[tx := STATUS_UNSPECIFIED]
  {
    assert Mentioned(Response(timeouts + [tx], [])) == Mentioned(Response(timeouts, [])) + {tx};
  }

  /** `parseResponse`: two loops filling one map. */
  method ParseResponse(resp: Response) returns (res: map<TxID, int>)
    ensures Parsed(resp, res)
    ensures res == Parse(resp)
  {
    res := map[];
    for i := 0 to |resp.timeouts|
      invariant res == Parse(Response(resp.timeouts[..i], []))
    {
      res := res[resp.timeouts[i] := STATUS_UNSPECIFIED];
      TimeoutStep(resp.timeouts[..i], resp.timeouts[i]);
      assert resp.timeouts[..i + 1] == resp.timeouts[..i] + [resp.timeouts[i]];
    }
    assert resp.timeouts[..|resp.timeouts|] == resp.timeouts;
    for i := 0 to |resp.events|
      invariant res == Parse(Response(resp.timeouts, resp.events[..i]))
    {
      var r := resp.events[i];
      res := res[r.txID := r.status];
      ParseStep(resp.timeouts, resp.events[..i], r);
      assert resp.events[..i + 1] == resp.events[..i] + [r];
    }
    assert resp.events[..|resp.events|] == resp.events;
    ParseMeans(resp);
  }

  // ---------- the table ----------

  /** `n.subscribers[txID]`: a missing key reads as an empty list. */
  function List(t: Table, tx: TxID): seq<Chan>
  {
    if tx in t then t[tx] else []
  }

  function Registered(t: Table, tx: TxID, ch: Chan): Table
  {
    t[tx := List(t, tx) + [ch]]
  }

  /** `s` without the first occurrence of `ch`. */
  function Without(s: seq<Chan>, ch: Chan): seq<Chan>
  {
    if s == [] then [] else if s[0] == ch then s[1..] else [s[0]] + Without(s[1..], ch)
  }

  function RolledBack(t: Table, tx: TxID, ch: Chan): Table
  {
    if tx !in t || ch !in t[tx] then t
    else if Without(t[tx], ch) == [] then t - {tx}
    else t[tx := Without(t[tx], ch)]
  }

  lemma {:induction false} WithoutSplit(left: seq<Chan>, ch: Chan, right: seq<Chan>)
    requires ch !in left
    ensures Without(left + [ch] + right, ch) == left + right
  {
    var s := left + [ch] + right;
    if left == [] {
      assert s[0] == ch && s[1..] == right;
    } else {
      assert s[1..] == left[1..] + [ch] + right;
      WithoutSplit(left[1..], ch, right);
      assert left + right == [left[0]] + (left[1..] + right);
    }
  }

  /** The notifications for one transaction. */
  function Fanout(receivers: seq<Chan>, status: int): (r: seq<Notification>)
    ensures |r| == |receivers|
    ensures forall i :: 0 <= i < |r| ==> r[i] == Notification(receivers[i], status)
  {
    seq(|receivers|, i requires 0 <= i < |receivers| => Notification(receivers[i], status))
  }

  /** The notifications for one transaction of `res`. */
  function ForTx(t: Table, res: map<TxID, int>, tx: TxID): seq<Notification>
  {
    if tx in res then Fanout(List(t, tx), res[tx]) else []
  }

  /** The notifications for `res`, its keys visited in the given order. */
  function Notifications(t: Table, res: map<TxID, int>, order: seq<TxID>): seq<Notification>
  {
    if order == [] then [] else Notifications(t, res, order[..|order| - 1]) + ForTx(t, res, order[|order| - 1])
  }

  lemma NotificationsStep(t: Table, res: map<TxID, int>, order: seq<TxID>, tx: TxID)
    ensures Notifications(t, res, order + [tx]) == Notifications(t, res, order) + ForTx(t, res, tx)
  {
    assert (order + [tx])[..|order|] == order;
  }

  /** `order` is an iteration order of `keys`. */
  predicate IsOrder(order: seq<TxID>, keys: set<TxID>)
  {
    && (forall i, j :: 0 <= i < j < |order| ==> order[i] != order[j])
    && (set tx | tx in order) == keys
  }

  /** The dispatcher has handled the keys `done` of `res`, in the given order. */
  ghost predicate Collecting(table: Table, res: map<TxID, int>, order: seq<TxID>, done: set<TxID>,
                             now: Table, notifications: seq<Notification>)
  {
    && done <= res.Keys
    && IsOrder(order, done)
    && notifications == Notifications(table, res, order)
    && now == table - done
  }

  lemma ExtendOrder(order: seq<TxID>, keys: set<TxID>, tx: TxID)
    requires IsOrder(order, keys) && tx !in keys
    ensures IsOrder(order + [tx], keys + {tx})
  {
    assert forall i :: 0 <= i < |order| ==> order[i] in keys;
  }

  lemma CollectStep(table: Table, res: map<TxID, int>, order: seq<TxID>, done: set<TxID>,
                    now: Table, notifications: seq<Notification>, tx: TxID)
    requires Collecting(table, res, order, done, now, notifications) && tx in res.Keys - done
    ensures Collecting(table, res, order + [tx], done + {tx}, now - {tx},
                       notifications + Fanout(List(now, tx), res[tx]))
  {
    ExtendOrder(order, done, tx);
    NotificationsStep(table, res, order, tx);
    assert List(now, tx) == List(table, tx);
  }

  /** The part of the notification client that its critical sections and sends change. */
  class SubscriberTable {
    var subscribers: Table
    /** The message in each receiver channel that holds one; the channels have one slot. */
    var buffers: map<Chan, int>

    constructor ()
      ensures subscribers == map[] && buffers == map[]
    {
      subscribers, buffers := map[], map[];
    }

    /** The locked section of `Subscribe`. */
    method Register(tx: TxID, ch: Chan) returns (isFirst: bool)
      modifies this
      ensures subscribers == Registered(old(subscribers), tx, ch)
      ensures isFirst == (List(old(subscribers), tx) == [])
      ensures buffers == old(buffers)
    {
      var receivers := if tx in subscribers then subscribers[tx] else [];
      subscribers := subscribers[tx := receivers + [ch]];
      isFirst := |receivers| == 0;
    }

    /** The `rollback` closure of `Subscribe`. */
    method Rollback(tx: TxID, ch: Chan)
      modifies this
      ensures subscribers == RolledBack(old(subscribers), tx, ch)
      ensures buffers == old(buffers)
    {
      if tx !in subscribers {
        return;
      }
      var receivers := subscribers[tx];
      for i := 0 to |receivers|
        invariant subscribers == old(subscribers) && ch !in receivers[..i]
      {
        if receivers[i] != ch {
          continue;
        }
        assert receivers == receivers[..i] + [ch] + receivers[i + 1..];
        WithoutSplit(receivers[..i], ch, receivers[i + 1..]);
        receivers := receivers[..i] + receivers[i + 1..];
        if |receivers| == 0 {
          subscribers := subscribers - {tx};
          return;
        }
        subscribers := subscribers[tx := receivers];
        return;
      }
      assert receivers[..|receivers|] == receivers;
    }

    /** The dispatcher's loop body: look the transaction up, delete it, list its receivers. */
    method CollectOne(tx: TxID, status: int, before: seq<Notification>) returns (notifications: seq<Notification>)
      modifies this
      ensures notifications == before + Fanout(List(old(subscribers), tx), status)
      ensures subscribers == old(subscribers) - {tx}
      ensures buffers == old(buffers)
    {
      notifications := before;
      if tx !in subscribers {
        return;
      }
      var receivers := subscribers[tx];
      subscribers := subscribers - {tx};
      for i := 0 to |receivers|
        invariant notifications == before + Fanout(receivers, status)[..i]
      {
        notifications := notifications + [Notification(receivers[i], status)];
      }
    }

    /** The locked section of the dispatcher. Go ranges over a map in any order. */
    method Collect(res: map<TxID, int>) returns (notifications: seq<Notification>, ghost order: seq<TxID>)
      modifies this
      ensures IsOrder(order, res.Keys)
      ensures notifications == Notifications(old(subscribers), res, order)
      ensures subscribers == old(subscribers) - res.Keys
      ensures buffers == old(buffers)
    {
      notifications, order := [], [];
      ghost var table := subscribers;
      var rest := res.Keys;
      ghost var done := {};
      while rest != {}
        invariant done == res.Keys - rest && rest <= res.Keys
        invariant buffers == old(buffers)
        invariant Collecting(table, res, order, done, subscribers, notifications)
        decreases rest
      {
        var tx :| tx in rest;
        CollectStep(table, res, order, done, subscribers, notifications, tx);
        rest := rest - {tx};
        done := done + {tx};
        order := order + [tx];
        notifications := CollectOne(tx, res[tx], notifications);
      }
      assert done == res.Keys;
    }

    /** One non-blocking send of the dispatcher; a full channel drops the message. */
    method TrySend(n: Notification) returns (dropped: bool)
      modifies this
      ensures dropped == (n.receiver in old(buffers))
      ensures buffers == if dropped then old(buffers) else old(buffers)[n.receiver := n.status]
      ensures subscribers == old(subscribers)
    {
      dropped := n.receiver in buffers;
      if !dropped {
        buffers := buffers[n.receiver := n.status];
      }
    }

    /** The cleanup when `listen` exits. */
    method Clear()
      modifies this
      ensures subscribers == map[] && buffers == old(buffers)
    {
      subscribers := map[];
    }
  }

  // ---------- the iteration order does not matter ----------

  lemma {:induction false} NotificationsDrop(t: Table, res: map<TxID, int>, p: seq<TxID>, x: TxID, q: seq<TxID>)
    ensures multiset(Notifications(t, res, p + [x] + q))
         == multiset(Notifications(t, res, p + q)) + multiset(ForTx(t, res, x))
  {
    if q == [] {
      assert p + [x] + q == p + [x] && (p + [x])[..|p|] == p && p + q == p;
    } else {
      var front, last := q[..|q| - 1], q[|q| - 1];
      assert (p + [x] + q)[..|p + [x] + q| - 1] == p + [x] + front;
      assert (p + q)[..|p + q| - 1] == p + front;
      NotificationsDrop(t, res, p, x, front);
    }
  }

  lemma OrderEmptyIff(order: seq<TxID>, keys: set<TxID>)
    requires IsOrder(order, keys)
    ensures order == [] <==> keys == {}
  {
    if order != [] {
      assert order[0] in keys;
    } else {
      assert keys == {};
    }
  }

  lemma OrderWithout(p: seq<TxID>, x: TxID, q: seq<TxID>, keys: set<TxID>)
    requires IsOrder(p + [x] + q, keys)
    ensures IsOrder(p + q, keys - {x})
  {
    var s := p + [x] + q;
    assert forall i :: 0 <= i < |p| ==> s[i] == p[i];
    assert s[|p|] == x;
    assert forall i :: 0 <= i < |q| ==> s[|p| + 1 + i] == q[i];
    forall tx
      ensures tx in p + q <==> tx in keys && tx != x
    {
      assert tx in s <==> tx in p || tx == x || tx in q;
    }
  }

  /** Whatever order the response map is ranged over, the same messages go to the same channels. */
  lemma {:induction false} DispatchConfluent(t: Table, res: map<TxID, int>, keys: set<TxID>, a: seq<TxID>, b: seq<TxID>)
    requires keys <= res.Keys && IsOrder(a, keys) && IsOrder(b, keys)
    ensures multiset(Notifications(t, res, a)) == multiset(Notifications(t, res, b))
    decreases |a|
  {
    OrderEmptyIff(a, keys);
    OrderEmptyIff(b, keys);
    if a != [] {
      var front, x := a[..|a| - 1], a[|a| - 1];
      assert a == front + [x] + [];
      assert x in keys;
      var j :| 0 <= j < |b| && b[j] == x;
      var p, q := b[..j], b[j + 1..];
      assert b == p + [x] + q;
      assert front + [] == front;
      OrderWithout(front, x, [], keys);
      OrderWithout(p, x, q, keys);
      NotificationsDrop(t, res, front, x, []);
      NotificationsDrop(t, res, p, x, q);
      DispatchConfluent(t, res, keys - {x}, front, p + q);
    }
  }
}
