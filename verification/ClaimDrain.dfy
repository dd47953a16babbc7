/** Successive claims on the in-memory outbox hand out the eligible dispatches, oldest first, each once. */
module ClaimDrain {
  import opened Prelude
  import opened Sorting
  import opened DispatchStore

  /** One claim leaves in the queue exactly what it did not take. */
  lemma {:induction false} QueueAfterClaim(before: IdOrder, s: Store, limit: int, at: Time)
    requires GoodIds(s)
    ensures GoodIds(Claim(before, s, limit, at).0)
    ensures Queue(before, Claim(before, s, limit, at).0) == Drop(Queue(before, s), limit)
  {
    ClaimKeepsIds(before, s, limit, at);
    var queue, after := Queue(before, s), Claim(before, s, limit, at).0;
    var batch := Take(queue, limit);
    var f := ClaimIf(IdsOf(batch), at);
    ClaimedValues(s, IdsOf(batch), at);
    var lt := Older(before);
    SameAge(before, IdsOf(batch), at);
    SortMap(lt, f, Values(s));
    SortedValues(before, s);
    ChosenMap(Sort(lt, Values(s)), IdsOf(batch), at);
    ChosenDistinct(Sort(lt, Values(s)));
    OthersDrop(queue, limit);
  }

  function ClaimIf(ids: set<string>, at: Time): Dispatch -> Dispatch {
    (d: Dispatch) => if d.id in ids then Claimed(at)(d) else d
  }

  lemma {:induction false} SameAge(before: IdOrder, ids: set<string>, at: Time)
    ensures forall x, y :: Older(before)(ClaimIf(ids, at)(x), ClaimIf(ids, at)(y)) == Older(before)(x, y)
  {
    forall x, y
      ensures Older(before)(ClaimIf(ids, at)(x), ClaimIf(ids, at)(y)) == Older(before)(x, y)
    {
      KeepsAge(ids, at, x);
      KeepsAge(ids, at, y);
    }
  }

  lemma {:induction false} KeepsAge(ids: set<string>, at: Time, d: Dispatch)
    ensures var c := ClaimIf(ids, at)(d);
      c.id == d.id && c.createdAt == d.createdAt && (Eligible(c) <==> Eligible(d) && d.id !in ids)
        && (d.id !in ids ==> c == d)
  {
    assert Claimed(at)(d).state == Starting;
  }

  lemma {:induction false} ClaimedValues(s: Store, ids: set<string>, at: Time)
    requires GoodIds(s)
    ensures var after := s.(dispatches := ClaimIds(s.dispatches, ids, at));
      GoodIds(after) && Values(after) == Map(ClaimIf(ids, at), Values(s))
  {
  }

  function Others(ds: seq<Dispatch>, ids: set<string>): seq<Dispatch> {
    if ds == [] then []
    else if ds[0].id in ids then Others(ds[1..], ids)
    else [ds[0]] + Others(ds[1..], ids)
  }

  lemma {:induction false} ChosenMap(ds: seq<Dispatch>, ids: set<string>, at: Time)
    ensures Chosen(Map(ClaimIf(ids, at), ds)) == Others(Chosen(ds), ids)
    decreases |ds|
  {
    if ds != [] {
      var mapped := Map(ClaimIf(ids, at), ds);
      assert mapped[1..] == Map(ClaimIf(ids, at), ds[1..]);
      ChosenMap(ds[1..], ids, at);
      KeepsAge(ids, at, ds[0]);
      assert mapped[0] == ClaimIf(ids, at)(ds[0]);
      if Eligible(ds[0]) {
        assert Chosen(ds)[1..] == Chosen(ds[1..]);
      }
    }
  }

  lemma {:induction false} ChosenDistinct(ds: seq<Dispatch>)
    requires DistinctIds(ds)
    ensures DistinctIds(Chosen(ds))
    decreases |ds|
  {
    if ds != [] {
      assert DistinctIds(ds[1..]);
      ChosenDistinct(ds[1..]);
      ChosenMembers(ds[1..]);
      var rest := Chosen(ds[1..]);
      forall i | 0 <= i < |rest|
        ensures rest[i].id != ds[0].id
      {
        assert rest[i] in rest;
        var k :| 0 <= k < |ds[1..]| && ds[1..][k] == rest[i];
        assert ds[k + 1] == rest[i];
      }
    }
  }

  lemma {:induction false} OthersConcat(a: seq<Dispatch>, b: seq<Dispatch>, ids: set<string>)
    ensures Others(a + b, ids) == Others(a, ids) + Others(b, ids)
    decreases |a|
  {
    if a == [] {
      assert a + b == b;
    } else {
      assert (a + b)[1..] == a[1..] + b;
      OthersConcat(a[1..], b, ids);
    }
  }

  lemma {:induction false} OthersNone(ds: seq<Dispatch>, ids: set<string>)
    requires forall i :: 0 <= i < |ds| ==> ds[i].id in ids
    ensures Others(ds, ids) == []
    decreases |ds|
  {
    if ds != [] {
      OthersNone(ds[1..], ids);
    }
  }

  lemma {:induction false} OthersAll(ds: seq<Dispatch>, ids: set<string>)
    requires forall i :: 0 <= i < |ds| ==> ds[i].id !in ids
    ensures Others(ds, ids) == ds
    decreases |ds|
  {
    if ds != [] {
      OthersAll(ds[1..], ids);
    }
  }

  lemma {:induction false} DropIsNotTaken(queue: seq<Dispatch>, limit: int)
    requires DistinctIds(queue)
    ensures Take(queue, limit) + Drop(queue, limit) == queue
    ensures forall i :: 0 <= i < |Drop(queue, limit)| ==> Drop(queue, limit)[i].id !in IdsOf(Take(queue, limit))
  {
    var a, b := Take(queue, limit), Drop(queue, limit);
    forall i, k | 0 <= i < |b| && 0 <= k < |a|
      ensures a[k].id != b[i].id
    {
      assert b[i] == queue[|a| + i] && a[k] == queue[k];
    }
  }

  lemma {:induction false} OthersDrop(queue: seq<Dispatch>, limit: int)
    requires DistinctIds(queue)
    ensures Others(queue, IdsOf(Take(queue, limit))) == Drop(queue, limit)
  {
    var a, b := Take(queue, limit), Drop(queue, limit);
    OthersConcat(a, b, IdsOf(a));
    OthersNone(a, IdsOf(a));
    DropIsNotTaken(queue, limit);
    hide Take, Drop, IdsOf, DistinctIds, Others;
    OthersAll(b, IdsOf(a));
    assert Others(a, IdsOf(a)) + Others(b, IdsOf(a)) == b;
  }

  // ----- several claims -----

  datatype ClaimCall = ClaimCall(limit: int, at: Time)

  function AfterClaims(before: IdOrder, s: Store, calls: seq<ClaimCall>): (t: Store)
    requires GoodIds(s)
    ensures GoodIds(t)
    decreases |calls|
  {
    if calls == [] then s
    else
      var front, last := AfterClaims(before, s, calls[..|calls| - 1]), calls[|calls| - 1];
      ClaimKeepsIds(before, front, last.limit, last.at);
      Claim(before, front, last.limit, last.at).0
  }

  /** The batch of call `i`, as the dispatches stood just before it. */
  function Batch(before: IdOrder, s: Store, calls: seq<ClaimCall>, i: nat): seq<Dispatch>
    requires GoodIds(s) && i < |calls|
  {
    Take(Queue(before, AfterClaims(before, s, calls[..i])), calls[i].limit)
  }

  function Batches(before: IdOrder, s: Store, calls: seq<ClaimCall>): seq<Dispatch>
    requires GoodIds(s)
    decreases |calls|
  {
    if calls == [] then []
    else Batches(before, s, calls[..|calls| - 1]) + Batch(before, s, calls, |calls| - 1)
  }

  function Total(calls: seq<ClaimCall>): nat
    decreases |calls|
  {
    if calls == [] then 0
    else Total(calls[..|calls| - 1]) + AtLeast0(calls[|calls| - 1].limit)
  }

  /**
   * With no outcome recorded in between, the batches put end to end are the oldest eligible
   * dispatches, as many as the limits allow, and the rest of the queue is left as it was.
   */
  lemma {:induction false} ClaimsTakeThePrefix(before: IdOrder, s: Store, calls: seq<ClaimCall>)
    requires GoodIds(s)
    ensures Batches(before, s, calls) == Take(Queue(before, s), Total(calls))
    ensures Queue(before, AfterClaims(before, s, calls)) == Drop(Queue(before, s), Total(calls))
    decreases |calls|
  {
    hide *;
    var queue := Queue(before, s);
    if calls == [] {
      NoCalls(before, s);
    } else {
      var front, last := calls[..|calls| - 1], calls[|calls| - 1];
      ClaimsTakeThePrefix(before, s, front);
      CallsUnfold(before, s, calls);
      QueueAfterClaim(before, AfterClaims(before, s, front), last.limit, last.at);
      TakeDrop(queue, Total(front), last.limit);
    }
  }

  lemma {:induction false} NoCalls(before: IdOrder, s: Store)
    requires GoodIds(s)
    ensures AfterClaims(before, s, []) == s && Batches(before, s, []) == [] && Total([]) == 0
    ensures Take(Queue(before, s), 0) == [] && Drop(Queue(before, s), 0) == Queue(before, s)
  {
  }

  lemma {:induction false} CallsUnfold(before: IdOrder, s: Store, calls: seq<ClaimCall>)
    requires GoodIds(s) && calls != []
    ensures var front, last := calls[..|calls| - 1], calls[|calls| - 1];
      var t := AfterClaims(before, s, front);
      && AfterClaims(before, s, calls) == Claim(before, t, last.limit, last.at).0
      && Batches(before, s, calls) == Batches(before, s, front) + Take(Queue(before, t), last.limit)
      && Total(calls) == Total(front) + AtLeast0(last.limit)
  {
    hide Queue, GoodIds, Claim, Take;
  }

  function AtLeast0(limit: int): nat {
    if limit < 0 then 0 else limit
  }

  lemma {:induction false} TakeDrop(queue: seq<Dispatch>, n: nat, limit: int)
    ensures Take(queue, n) + Take(Drop(queue, n), limit) == Take(queue, n + AtLeast0(limit))
    ensures Drop(Drop(queue, n), limit) == Drop(queue, n + AtLeast0(limit))
  {
    var m := AtLeast0(limit);
    if n < |queue| {
      assert Drop(queue, n) == queue[n..];
      if n + m < |queue| {
        assert queue[..n] + queue[n..][..m] == queue[..n + m];
        assert queue[n..][m..] == queue[n + m..];
      } else {
        assert queue[..n] + queue[n..] == queue;
      }
    }
  }

  /** The dispatches no batch contains are not touched. */
  lemma {:induction false} ClaimsTouchOnlyTheirs(before: IdOrder, s: Store, calls: seq<ClaimCall>, id: string)
    requires GoodIds(s) && id in s.dispatches && id !in IdsOf(Take(Queue(before, s), Total(calls)))
    ensures id in AfterClaims(before, s, calls).dispatches
    ensures AfterClaims(before, s, calls).dispatches[id] == s.dispatches[id]
    decreases |calls|
  {
    hide *;
    if calls == [] {
      NoCalls(before, s);
    } else {
      var front, last := calls[..|calls| - 1], calls[|calls| - 1];
      var queue, t := Queue(before, s), AfterClaims(before, s, front);
      ClaimsTakeThePrefix(before, s, front);
      CallsUnfold(before, s, calls);
      TakeDrop(queue, Total(front), last.limit);
      IdsOfConcat(Take(queue, Total(front)), Take(Queue(before, t), last.limit));
      ClaimsTouchOnlyTheirs(before, s, front, id);
      OneClaimTouches(before, t, last, id);
    }
  }

  lemma {:induction false} IdsOfConcat(a: seq<Dispatch>, b: seq<Dispatch>)
    ensures IdsOf(a + b) == IdsOf(a) + IdsOf(b)
  {
    var c := a + b;
    forall id | id in IdsOf(a) + IdsOf(b)
      ensures id in IdsOf(c)
    {
      if id in IdsOf(a) {
        var i :| 0 <= i < |a| && a[i].id == id;
        assert c[i].id == id;
      } else {
        var i :| 0 <= i < |b| && b[i].id == id;
        assert c[|a| + i].id == id;
      }
    }
  }

  lemma {:induction false} OneClaimTouches(before: IdOrder, t: Store, call: ClaimCall, id: string)
    requires GoodIds(t) && id in t.dispatches && id !in IdsOf(Take(Queue(before, t), call.limit))
    ensures var u := Claim(before, t, call.limit, call.at).0; id in u.dispatches && u.dispatches[id] == t.dispatches[id]
  {
    hide Queue, GoodIds, Take, IdsOf;
  }

  /** No dispatch is in two batches. */
  lemma {:induction false} BatchesDisjoint(before: IdOrder, s: Store, calls: seq<ClaimCall>, i: nat, j: nat)
    requires GoodIds(s) && i < j < |calls|
    ensures IdsOf(Batch(before, s, calls, i)) !! IdsOf(Batch(before, s, calls, j))
  {
    var queue := Queue(before, s);
    SortedValues(before, s);
    ChosenDistinct(Sort(Older(before), Values(s)));
    hide Queue, GoodIds, AfterClaims, Batch, Batches;
    TotalGrows(calls, i, j);
    var a, b := Batch(before, s, calls, i), Batch(before, s, calls, j);
    BatchInQueue(before, s, calls, i);
    BatchInQueue(before, s, calls, j);
    forall m, n | 0 <= m < |a| && 0 <= n < |b|
      ensures a[m].id != b[n].id
    {
      assert a[m] == queue[Total(calls[..i]) + m] && b[n] == queue[Total(calls[..j]) + n];
    }
  }

  lemma {:induction false} TakeAfterDrop(queue: seq<Dispatch>, start: nat, limit: int)
    ensures var batch := Take(Drop(queue, start), limit);
      && |batch| <= AtLeast0(limit) && (batch != [] ==> start + |batch| <= |queue|)
      && forall k :: 0 <= k < |batch| ==> batch[k] == queue[start + k]
  {
  }

  lemma {:induction false} BatchUnfold(before: IdOrder, s: Store, calls: seq<ClaimCall>, i: nat)
    requires GoodIds(s) && i < |calls|
    ensures Batch(before, s, calls, i) == Take(Queue(before, AfterClaims(before, s, calls[..i])), calls[i].limit)
  {
    hide Take, Queue, AfterClaims, GoodIds;
  }

  /** Each batch is the stretch of the queue that comes after all the batches before it. */
  lemma {:induction false} BatchInQueue(before: IdOrder, s: Store, calls: seq<ClaimCall>, i: nat)
    requires GoodIds(s) && i < |calls|
    ensures var batch, queue, start := Batch(before, s, calls, i), Queue(before, s), Total(calls[..i]);
      && |batch| <= AtLeast0(calls[i].limit)
      && (batch != [] ==> start + |batch| <= |queue|)
      && forall k :: 0 <= k < |batch| ==> batch[k] == queue[start + k]
  {
    hide *;
    ClaimsTakeThePrefix(before, s, calls[..i]);
    BatchUnfold(before, s, calls, i);
    TakeAfterDrop(Queue(before, s), Total(calls[..i]), calls[i].limit);
  }

  lemma {:induction false} TotalGrows(calls: seq<ClaimCall>, i: nat, j: nat)
    requires i < j <= |calls|
    ensures Total(calls[..i]) + AtLeast0(calls[i].limit) <= Total(calls[..j])
    decreases j
  {
    assert calls[..j][..j - 1] == calls[..j - 1];
    if i < j - 1 {
      TotalGrows(calls, i, j - 1);
    }
  }

  ghost predicate IsOlder(before: IdOrder, x: Dispatch, y: Dispatch) {
    x.createdAt < y.createdAt || (x.createdAt == y.createdAt && before(x.id, y.id))
  }

  /** New, or to be tried again. */
  ghost predicate IsWaiting(s: Store, d: Dispatch) {
    d.id in s.dispatches && s.dispatches[d.id] == d && (d.state == Pending || d.state == FailedRetryable)
  }

  /** The queue runs from the oldest dispatch to the youngest, ties by id, and holds exactly the eligible ones. */
  lemma {:induction false} QueueIsByAge(before: IdOrder, s: Store)
    requires TotalOrder(before) && GoodIds(s)
    ensures forall i, j :: 0 <= i < j < |Queue(before, s)| ==> IsOlder(before, Queue(before, s)[i], Queue(before, s)[j])
    ensures forall d :: d in Queue(before, s) <==> IsWaiting(s, d)
  {
    var values := Values(s);
    forall i, j | 0 <= i < j < |values|
      ensures Older(before)(values[i], values[j]) || Older(before)(values[j], values[i])
    {
      assert values[i].id == s.ids[i] && values[j].id == s.ids[j];
    }
    OlderIsStrict(before);
    SortAscending(Older(before), values);
    ChosenAscending(Older(before), Sort(Older(before), values));
    SortedValues(before, s);
    ChosenMembers(Sort(Older(before), values));
  }

  /** These are the first of the queue, up to the limit, under the ids they had. */
  ghost predicate IsFront(queue: seq<Dispatch>, claimed: seq<Dispatch>, limit: int) {
    && |claimed| <= |queue| && |claimed| <= AtLeast0(limit) && (|claimed| < |queue| ==> |claimed| == AtLeast0(limit))
    && forall k :: 0 <= k < |claimed| ==> claimed[k].id == queue[k].id
  }

  lemma {:induction false} ClaimedFront(before: IdOrder, s: Store, limit: int, at: Time)
    requires GoodIds(s)
    ensures IsFront(Queue(before, s), Claim(before, s, limit, at).1, limit)
  {
    hide GoodIds, Queue;
  }

  lemma {:induction false} SortedQueue(before: IdOrder, s: Store)
    requires GoodIds(s)
    ensures DistinctIds(Queue(before, s))
  {
    SortedValues(before, s);
    ChosenDistinct(Sort(Older(before), Values(s)));
    hide GoodIds, Older;
  }

  lemma {:induction false} WaitingAt(before: IdOrder, s: Store, k: nat)
    requires TotalOrder(before) && GoodIds(s) && k < |Queue(before, s)|
    ensures var d := Queue(before, s)[k]; d.id in s.dispatches && s.dispatches[d.id] == d && IsWaiting(s, d)
  {
    hide GoodIds, Queue, IsOlder, TotalOrder;
    QueueIsByAge(before, s);
    assert Queue(before, s)[k] in Queue(before, s);
  }

  /** A place in the queue is in the front or, if the limit is reached, behind it. */
  lemma {:induction false} FrontOrBehind(queue: seq<Dispatch>, claimed: seq<Dispatch>, limit: int, n: nat)
    requires IsFront(queue, claimed, limit) && n < |queue|
    ensures if n < |claimed| then claimed[n].id == queue[n].id else |claimed| == AtLeast0(limit)
  {
  }

  /**
   * A claim hands out what was waiting, the oldest first and each once, up to its limit, and leaves
   * something waiting only if the limit is reached and all it claimed is older.
   */
  lemma {:induction false} ClaimsTheOldest(before: IdOrder, s: Store, limit: int, at: Time)
    requires TotalOrder(before) && GoodIds(s)
    ensures var claimed := Claim(before, s, limit, at).1;
      && |claimed| <= AtLeast0(limit)
      && (forall k :: 0 <= k < |claimed| ==> claimed[k].id in s.dispatches && IsWaiting(s, s.dispatches[claimed[k].id]))
      && (forall i, j :: 0 <= i < j < |claimed| ==>
            claimed[i].id != claimed[j].id
            && IsOlder(before, s.dispatches[claimed[i].id], s.dispatches[claimed[j].id]))
      && forall d :: IsWaiting(s, d) && (forall k :: 0 <= k < |claimed| ==> claimed[k].id != d.id) ==>
           |claimed| == AtLeast0(limit)
           && forall k :: 0 <= k < |claimed| ==> IsOlder(before, s.dispatches[claimed[k].id], d)
  {
    hide GoodIds, Queue, Claim, IsWaiting, IsOlder, TotalOrder;
    var queue, claimed := Queue(before, s), Claim(before, s, limit, at).1;
    QueueIsByAge(before, s);
    SortedQueue(before, s);
    ClaimedFront(before, s, limit, at);
    forall k | 0 <= k < |claimed|
      ensures claimed[k].id in s.dispatches && s.dispatches[claimed[k].id] == queue[k] && IsWaiting(s, queue[k])
    {
      WaitingAt(before, s, k);
    }
    forall d | IsWaiting(s, d) && (forall k :: 0 <= k < |claimed| ==> claimed[k].id != d.id)
      ensures |claimed| == AtLeast0(limit)
      ensures forall k :: 0 <= k < |claimed| ==> IsOlder(before, s.dispatches[claimed[k].id], d)
    {
      hide IsFront, DistinctIds;
      var n :| 0 <= n < |queue| && queue[n] == d;
      FrontOrBehind(queue, claimed, limit, n);
    }
  }

  lemma {:induction false} OlderIsStrict(before: IdOrder)
    requires TotalOrder(before)
    ensures StrictOrder(Older(before))
  {
    var lt := Older(before);
    forall x
      ensures !lt(x, x)
    {
      assert !before(x.id, x.id);
    }
    forall x, y, z | lt(x, y) && lt(y, z)
      ensures lt(x, z)
    {
      assert before(x.id, y.id) && before(y.id, z.id) ==> before(x.id, z.id);
    }
  }

  lemma {:induction false} ChosenAscending(lt: (Dispatch, Dispatch) -> bool, ds: seq<Dispatch>)
    requires Ascending(lt, ds)
    ensures Ascending(lt, Chosen(ds))
    decreases |ds|
  {
    if ds != [] {
      assert Ascending(lt, ds[1..]);
      ChosenAscending(lt, ds[1..]);
      ChosenMembers(ds[1..]);
      var rest := Chosen(ds[1..]);
      forall i | 0 <= i < |rest|
        ensures lt(ds[0], rest[i])
      {
        assert rest[i] in rest;
        var k :| 0 <= k < |ds[1..]| && ds[1..][k] == rest[i];
        assert ds[k + 1] == rest[i];
      }
    }
  }

  /** With one positive limit, the queue is empty after exactly the calls it takes to cover it. */
  lemma {:induction false} DrainedWhen(before: IdOrder, s: Store, calls: seq<ClaimCall>, limit: nat)
    requires GoodIds(s) && limit > 0 && forall i :: 0 <= i < |calls| ==> calls[i].limit == limit
    ensures Queue(before, AfterClaims(before, s, calls)) == [] <==> |calls| >= (|Queue(before, s)| + limit - 1) / limit
  {
    hide Queue, GoodIds, AfterClaims;
    ClaimsTakeThePrefix(before, s, calls);
    FixedTotal(calls, limit);
    Ceiling(|Queue(before, s)|, limit, |calls|);
  }

  lemma {:induction false} FixedTotal(calls: seq<ClaimCall>, limit: nat)
    requires forall i :: 0 <= i < |calls| ==> calls[i].limit == limit
    ensures Total(calls) == |calls| * limit
    decreases |calls|
  {
    if calls != [] {
      FixedTotal(calls[..|calls| - 1], limit);
      assert (|calls| - 1) * limit + limit == |calls| * limit;
    }
  }

  lemma {:induction false} Ceiling(n: nat, limit: nat, k: nat)
    requires limit > 0
    ensures k * limit >= n <==> k >= (n + limit - 1) / limit
  {
    var c := (n + limit - 1) / limit;
    assert c * limit <= n + limit - 1 < c * limit + limit;
    if k >= c {
      assert k * limit >= c * limit;
    } else {
      assert k * limit <= (c - 1) * limit == c * limit - limit;
    }
  }
}
