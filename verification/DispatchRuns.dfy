/** What holds over every run of the dispatch protocol, and how the in-memory outbox fits it. */
module DispatchRuns {
  import opened Prelude
  import Sorting
  import ClaimDrain
  import DispatchHistory
  import DispatchRecords
  import Outbox = DispatchStore
  import opened DispatchProtocol

  type State = Outbox.DispatchState

  function After(known: set<string>, s: System, events: seq<Event>): (t: System)
    requires Legal(known, s, events)
    decreases |events|, 2
  {
    if events == [] then s
    else Apply(known, After(known, s, events[..|events| - 1]), events[|events| - 1])
  }

  /** Each event is enabled where it happens. */
  predicate Legal(known: set<string>, s: System, events: seq<Event>)
    decreases |events|, 1
  {
    events == []
    || (Legal(known, s, events[..|events| - 1])
        && Enabled(known, After(known, s, events[..|events| - 1]), events[|events| - 1]))
  }

  /** Intents still to be dispatched, one workflow key each, before any worker has done anything. */
  ghost predicate Initial(s: System) {
    && UniqueKeys(s.rows) && (forall id :: id in s.rows ==> s.rows[id].state == Outbox.Pending)
    && s.startedBy == map[] && (forall v :: 0 <= v < |s.workers| ==> s.workers[v].Idle?)
    && s.handed == [] && s.recorded == [] && s.outcomes == map[] && s.returned == []
  }

  lemma {:induction false} InitialInv(known: set<string>, s: System)
    requires Initial(s)
    ensures Inv(known, s)
  {
  }

  lemma {:induction false} ReachableInv(known: set<string>, s: System, events: seq<Event>)
    requires Initial(s) && Legal(known, s, events)
    ensures Inv(known, After(known, s, events))
    decreases |events|
  {
    hide Inv, Initial, Enabled, Apply;
    if events == [] {
      InitialInv(known, s);
    } else {
      var front := events[..|events| - 1];
      ReachableInv(known, s, front);
      StepKeepsInv(known, After(known, s, front), events[|events| - 1]);
    }
  }

  lemma {:induction false} PrefixLegal(known: set<string>, s: System, events: seq<Event>, i: nat)
    requires Legal(known, s, events) && i <= |events|
    ensures Legal(known, s, events[..i])
    decreases |events|
  {
    hide Enabled, Apply;
    if i < |events| {
      PrefixLegal(known, s, events[..|events| - 1], i);
      assert events[..|events| - 1][..i] == events[..i];
    } else {
      assert events[..i] == events;
    }
  }

  predicate Final(state: State) {
    state == Outbox.Started || state == Outbox.Duplicate || state == Outbox.FailedTerminal
  }

  // ----- safety of every reachable state -----

  /**
   * `started` and `duplicate` mean the workflow was really started, a dispatch whose workflow
   * started is never `failed_terminal`, and which of the two it is tells the attempts apart:
   * `started` if the start was made under the token it was recorded with, `duplicate` if under
   * an older one.
   */
  lemma {:induction false} OutcomeTellsTheStart(known: set<string>, s: System, events: seq<Event>, id: string)
    requires Initial(s) && Legal(known, s, events) && id in After(known, s, events).rows
    ensures var t := After(known, s, events);
      var row := t.rows[id];
      && (row.state == Outbox.Started || row.state == Outbox.Duplicate ==> row.key in t.startedBy)
      && (row.key in t.startedBy ==> row.state != Outbox.FailedTerminal && t.startedBy[row.key].id == id)
      && (Final(row.state) && row.key in t.startedBy ==>
            (row.state == Outbox.Started <==> t.startedBy[row.key].token == row.token - 1)
            && (row.state == Outbox.Duplicate <==> t.startedBy[row.key].token < row.token - 1))
  {
    ReachableInv(known, s, events);
    var t := After(known, s, events);
    assert RowOk(known, t.startedBy, id, t.rows[id]);
    hide Enabled, Apply, After, Initial, WorkersOk, HistoryOk;
  }

  predicate Holds(s: System, w: int, k: int) {
    0 <= w < |s.workers| && s.workers[w].Dispatching? && 0 <= k < |s.workers[w].queue|
  }

  /** No (dispatch, token) pair is handed out twice or recorded twice, and no two workers hold the same one. */
  lemma {:induction false} TicketsAreExclusive(known: set<string>, s: System, events: seq<Event>)
    requires Initial(s) && Legal(known, s, events)
    ensures var t := After(known, s, events);
      && (forall k, l :: 0 <= k < l < |t.handed| ==> t.handed[k] != t.handed[l])
      && (forall k, l :: 0 <= k < l < |t.recorded| ==> t.recorded[k] != t.recorded[l])
      && (forall u, v, k, l :: Holds(t, u, k) && Holds(t, v, l) && u != v ==>
          t.workers[u].queue[k] != t.workers[v].queue[l])
  {
    ReachableInv(known, s, events);
    var t := After(known, s, events);
    hide Enabled, Apply, After, Initial, RowsOk, WorkerOk;
    forall u, v, k, l | Holds(t, u, k) && Holds(t, v, l) && u != v
      ensures t.workers[u].queue[k] != t.workers[v].queue[l]
    {
      assert Apart(t.workers[u], t.workers[v]);
    }
  }

  // ----- what only grows -----

  /** From `d` to `e` nothing was lost: tokens do not go back, and nothing changes without a new token. */
  ghost predicate Grows(d: Row, e: Row) {
    && d.token <= e.token && (d.token == e.token ==> d == e) && (Final(d.state) ==> d == e)
    && e.key == d.key && e.templateId == d.templateId
  }

  ghost predicate Later(s: System, t: System) {
    && (forall id :: id in s.rows ==> id in t.rows && Grows(s.rows[id], t.rows[id]))
    && (forall key :: key in s.startedBy ==> key in t.startedBy && t.startedBy[key] == s.startedBy[key])
    && s.handed <= t.handed && s.recorded <= t.recorded && s.returned <= t.returned
  }

  lemma {:induction false} StepIsLater(known: set<string>, s: System, e: Event)
    requires Inv(known, s) && Enabled(known, s, e)
    ensures Later(s, Apply(known, s, e))
  {
    hide Later, Inv, AfterCommit, AfterRecord, AfterStart, AfterClaimRow;
    match e
    case Commit(w) => CommitIsLater(known, s, w);
    case Record(w, reached, answered) => RecordIsLater(s, w, reached, answered);
    case Start(w, reached, answered) => StartIsLater(s, w, reached, answered);
    case ClaimRow(w) => ClaimIsLater(s, w);
    case Enqueue(id, row) => EnqueueIsLater(known, s, id, row);
    case _ => WorkersOnly(s, Apply(known, s, e));
  }

  lemma {:induction false} WorkersOnly(s: System, t: System)
    requires t.rows == s.rows && t.startedBy == s.startedBy && t.handed == s.handed && t.recorded == s.recorded
    requires s.returned <= t.returned
    ensures Later(s, t)
  {
  }

  lemma {:induction false} ClaimIsLater(s: System, w: nat)
    requires w < |s.workers| && s.workers[w].Scanning? && s.workers[w].candidates != []
    ensures Later(s, AfterClaimRow(s, w))
  {
    hide Claimable;
  }

  lemma {:induction false} EnqueueIsLater(known: set<string>, s: System, id: string, row: Row)
    requires Enabled(known, s, Enqueue(id, row))
    ensures Later(s, Apply(known, s, Enqueue(id, row)))
  {
  }

  lemma {:induction false} CommitIsLater(known: set<string>, s: System, w: nat)
    requires Inv(known, s) && Enabled(known, s, Commit(w))
    ensures Later(s, AfterCommit(s, w))
  {
    assert WorkerOk(known, s.rows, s.startedBy, s.workers[w]);
    hide Inv, CommitRows, WorkerOk;
    CommitTokens(known, s.rows, s.startedBy, s.workers[w]);
  }

  lemma {:induction false} RecordIsLater(s: System, w: nat, reached: bool, answered: bool)
    requires Attempting(s, w)
    ensures Later(s, AfterRecord(s, w, reached, answered))
  {
    hide Count, TargetOf;
  }

  lemma {:induction false} StartIsLater(s: System, w: nat, reached: bool, answered: bool)
    requires Attempting(s, w)
    ensures Later(s, AfterStart(s, w, reached, answered))
  {
  }

  lemma {:induction false} LaterTransitive(s: System, t: System, u: System)
    requires Later(s, t) && Later(t, u)
    ensures Later(s, u)
  {
  }

  lemma {:induction false} LaterReflexive(s: System)
    ensures Later(s, s)
  {
  }

  /**
   * Over every run tokens never go back, outcomes are absorbing, and a recorded start of a workflow is
   * never rewritten.
   */
  lemma {:induction false} RunsAreLater(known: set<string>, s: System, events: seq<Event>, i: nat)
    requires Initial(s) && Legal(known, s, events) && i <= |events|
    ensures Legal(known, s, events[..i])
    ensures Later(After(known, s, events[..i]), After(known, s, events))
    decreases |events|
  {
    hide Inv, Initial, Enabled, Apply, Later;
    PrefixLegal(known, s, events, i);
    if i == |events| {
      assert events[..i] == events;
      LaterReflexive(After(known, s, events));
    } else {
      var front := events[..|events| - 1];
      assert front[..i] == events[..i];
      RunsAreLater(known, s, front, i);
      ReachableInv(known, s, front);
      StepIsLater(known, After(known, s, front), events[|events| - 1]);
      LaterTransitive(After(known, s, events[..i]), After(known, s, front), After(known, s, events));
    }
  }

  /**
   * When the record of a start was lost, so that the dispatch became retryable although its
   * workflow runs, any outcome it settles on later is `duplicate`.
   */
  lemma {:induction false} LostStartEndsDuplicate(known: set<string>, s: System, events: seq<Event>, i: nat, id: string)
    requires Initial(s) && Legal(known, s, events) && i <= |events| && Legal(known, s, events[..i])
    requires id in After(known, s, events[..i]).rows
    requires var t := After(known, s, events[..i]);
      t.rows[id].key in t.startedBy && t.rows[id].state == Outbox.FailedRetryable
    ensures var u := After(known, s, events);
      id in u.rows && (Final(u.rows[id].state) ==> u.rows[id].state == Outbox.Duplicate)
  {
    var t, u := After(known, s, events[..i]), After(known, s, events);
    ReachableInv(known, s, events[..i]);
    assert RowOk(known, t.startedBy, id, t.rows[id]);
    RunsAreLater(known, s, events, i);
    OutcomeTellsTheStart(known, s, events, id);
    hide Enabled, Apply, After, Legal, Initial, Inv;
    assert Grows(t.rows[id], u.rows[id]);
  }

  // ----- the in-memory outbox, seen as the protocol's rows -----

  function RowsOf(dispatches: map<string, Outbox.Dispatch>): Rows {
    map id | id in dispatches :: RowOf(dispatches[id])
  }

  function RowOf(d: Outbox.Dispatch): Row {
    Row(d.state, d.token, d.key, d.templateId)
  }

  function TicketsOf(batch: seq<Outbox.Dispatch>): (claims: seq<Ticket>)
    ensures |claims| == |batch| && forall k :: 0 <= k < |batch| ==> claims[k] == Ticket(batch[k].id, batch[k].token)
  {
    seq(|batch|, k requires 0 <= k < |batch| => Ticket(batch[k].id, batch[k].token))
  }

  lemma {:induction false} QueueIsClaimable(before: Outbox.IdOrder, s: Outbox.Store)
    requires Outbox.GoodIds(s)
    ensures var queue := Outbox.Queue(before, s);
      && (forall k :: 0 <= k < |queue| ==>
            queue[k].id in s.dispatches && s.dispatches[queue[k].id] == queue[k] && Outbox.Eligible(queue[k]))
      && (forall k, l :: 0 <= k < l < |queue| ==> queue[k].id != queue[l].id)
  {
    var sorted := Sorting.Sort(Outbox.Older(before), Outbox.Values(s));
    Outbox.SortedValues(before, s);
    Outbox.ChosenMembers(sorted);
    ClaimDrain.ChosenDistinct(sorted);
    hide Outbox.GoodIds, Outbox.Values, Outbox.Chosen, Sorting.Sort, Outbox.Older, Outbox.Eligible;
    var queue := Outbox.Queue(before, s);
    forall k | 0 <= k < |queue|
      ensures queue[k].id in s.dispatches && s.dispatches[queue[k].id] == queue[k] && Outbox.Eligible(queue[k])
    {
      assert queue[k] in queue;
    }
  }

  /** What the in-memory claim takes: distinct dispatches that are claimable and under their current tokens. */
  lemma {:induction false} BatchIsClaimable(before: Outbox.IdOrder, s: Outbox.Store, limit: int)
    requires Outbox.GoodIds(s)
    ensures var batch := Outbox.Take(Outbox.Queue(before, s), limit);
      && (forall k :: 0 <= k < |batch| ==>
            batch[k].id in s.dispatches && s.dispatches[batch[k].id] == batch[k] && Outbox.Eligible(batch[k]))
      && (forall k, l :: 0 <= k < l < |batch| ==> batch[k].id != batch[l].id)
  {
    QueueIsClaimable(before, s);
    hide Outbox.Queue, Outbox.GoodIds, Outbox.Eligible;
  }

  /** A claim on the in-memory outbox changes the rows and hands out tickets as one commit does. */
  lemma {:induction false} ClaimIsCommit(before: Outbox.IdOrder, s: Outbox.Store, limit: int, at: Time)
    requires Outbox.GoodIds(s)
    ensures var batch := Outbox.Take(Outbox.Queue(before, s), limit);
      && RowsOf(Outbox.Claim(before, s, limit, at).0.dispatches) == CommitRows(RowsOf(s.dispatches), TicketsOf(batch))
      && TicketsOf(Outbox.Claim(before, s, limit, at).1) == TicketsFor(TicketsOf(batch))
  {
    var batch := Outbox.Take(Outbox.Queue(before, s), limit);
    hide Outbox.Queue, Outbox.Take, Outbox.GoodIds, Outbox.IdsOf, Outbox.ClaimIds, Outbox.Claimed;
    hide RowsOf, CommitRows, TicketsOf, TicketsFor;
    ClaimedRows(s.dispatches, batch, at);
    ClaimedTickets(batch, at);
  }

  lemma {:induction false} ClaimedRows(dispatches: map<string, Outbox.Dispatch>, batch: seq<Outbox.Dispatch>, at: Time)
    ensures RowsOf(Outbox.ClaimIds(dispatches, Outbox.IdsOf(batch), at))
      == CommitRows(RowsOf(dispatches), TicketsOf(batch))
  {
    forall id | id in dispatches
      ensures id in Outbox.IdsOf(batch) <==> Claims(TicketsOf(batch), id)
    {
      if Claims(TicketsOf(batch), id) {
        var k :| 0 <= k < |batch| && TicketsOf(batch)[k].id == id;
        assert batch[k].id == id;
      }
    }
  }

  lemma {:induction false} ClaimedTickets(batch: seq<Outbox.Dispatch>, at: Time)
    ensures TicketsOf(Sorting.Map(Outbox.Claimed(at), batch)) == TicketsFor(TicketsOf(batch))
  {
  }

  /** A recording call goes through exactly for the current token of a dispatch being started. */
  lemma {:induction false} RecordedDispatch(before: Outbox.IdOrder, s: Outbox.Store, op: DispatchHistory.Op)
    requires Outbox.GoodIds(s) && Outbox.NoDangling(s) && !op.ClaimOp?
    ensures var (id, token) := DispatchHistory.Presented(op).value;
      var t := DispatchHistory.Step(before, s, op);
      if id in s.dispatches && s.dispatches[id].state == Outbox.Starting && s.dispatches[id].token == token then
        DispatchHistory.ReplyOf(s, op).Ok? && id in t.dispatches && t.dispatches == s.dispatches[id := t.dispatches[id]]
        && t.dispatches[id].state == DispatchHistory.Target(op) && t.dispatches[id].token == token + 1
        && t.dispatches[id].key == s.dispatches[id].key && t.dispatches[id].templateId == s.dispatches[id].templateId
      else DispatchHistory.ReplyOf(s, op).Err? && t.dispatches == s.dispatches
  {
    hide DispatchHistory.Step, DispatchHistory.ReplyOf, Outbox.GoodIds, Outbox.NoDangling;
    var id := DispatchHistory.Presented(op).value.0;
    DispatchRecords.RepliesExactly(s, op);
    if id in s.dispatches {
      DispatchRecords.RecordShows(before, s, op, id);
    }
    DispatchRecords.RecordLeaves(before, s, op);
  }

  /** One recording call on the in-memory outbox goes through, and changes the rows, exactly as the protocol's does. */
  lemma {:induction false} RecordsAreRecords(before: Outbox.IdOrder, s: Outbox.Store, op: DispatchHistory.Op)
    requires Outbox.GoodIds(s) && Outbox.NoDangling(s) && !op.ClaimOp?
    ensures var (id, token) := DispatchHistory.Presented(op).value;
      var ticket := Ticket(id, token);
      && (DispatchHistory.ReplyOf(s, op).Ok? <==> Accepted(RowsOf(s.dispatches), ticket))
      && RowsOf(DispatchHistory.Step(before, s, op).dispatches)
         == if Accepted(RowsOf(s.dispatches), ticket) then
              RecordRow(RowsOf(s.dispatches), ticket, DispatchHistory.Target(op))
            else RowsOf(s.dispatches)
  {
    RecordedDispatch(before, s, op);
    hide Outbox.GoodIds, Outbox.NoDangling, DispatchHistory.Step, DispatchHistory.ReplyOf, RowsOf, Accepted, RecordRow;
    var (id, token) := DispatchHistory.Presented(op).value;
    AcceptedRow(s.dispatches, id, token);
    if Accepted(RowsOf(s.dispatches), Ticket(id, token)) {
      var t := DispatchHistory.Step(before, s, op);
      RecordedRow(s.dispatches, id, token, t.dispatches[id]);
    }
  }

  lemma {:induction false} AcceptedRow(dispatches: map<string, Outbox.Dispatch>, id: string, token: int)
    ensures Accepted(RowsOf(dispatches), Ticket(id, token))
      <==> id in dispatches && dispatches[id].state == Outbox.Starting && dispatches[id].token == token
  {
  }

  lemma {:induction false} RecordedRow(
      dispatches: map<string, Outbox.Dispatch>, id: string, token: int, d: Outbox.Dispatch)
    requires id in dispatches && d.token == token + 1
    requires d.key == dispatches[id].key && d.templateId == dispatches[id].templateId
    ensures RowsOf(dispatches[id := d]) == RecordRow(RowsOf(dispatches), Ticket(id, token), d.state)
  {
  }

  // ----- tickets come from claims -----

  ghost predicate TicketsHanded(s: System) {
    && (forall w, k :: Holds(s, w, k) ==> s.workers[w].queue[k] in s.handed)
    && (forall k :: 0 <= k < |s.recorded| ==> s.recorded[k] in s.handed)
  }

  lemma {:induction false} StepKeepsHanded(known: set<string>, s: System, e: Event)
    requires TicketsHanded(s) && Enabled(known, s, e)
    ensures TicketsHanded(Apply(known, s, e))
  {
    match e
    case Commit(w) =>
      hide CommitRows, TicketsFor;
      CommitHands(known, s, w);
    case Record(w, reached, answered) =>
      hide TicketsHanded, Enabled;
      RecordHands(s, w, reached, answered);
    case Start(w, reached, answered) =>
      hide TicketsHanded, Enabled;
      StartHands(s, w, reached, answered);
    case ClaimRow(w) =>
      hide TicketsHanded, Enabled;
      ClaimHands(s, w);
    case _ =>
      hide Locked, Claimable;
      HandsOn(s, Apply(known, s, e));
  }

  /** A step that hands out and records nothing, and leaves no worker with a new ticket. */
  lemma {:induction false} HandsOn(s: System, t: System)
    requires TicketsHanded(s) && t.handed == s.handed && t.recorded == s.recorded
    requires forall v, k :: Holds(t, v, k) ==> Holds(s, v, k) && t.workers[v].queue[k] == s.workers[v].queue[k]
    ensures TicketsHanded(t)
  {
    hide Holds;
  }

  lemma {:induction false} StartHands(s: System, w: nat, reached: bool, answered: bool)
    requires TicketsHanded(s) && Attempting(s, w)
    ensures TicketsHanded(AfterStart(s, w, reached, answered))
  {
    hide TicketsHanded;
    HandsOn(s, AfterStart(s, w, reached, answered));
  }

  lemma {:induction false} ClaimHands(s: System, w: nat)
    requires TicketsHanded(s) && w < |s.workers| && s.workers[w].Scanning? && s.workers[w].candidates != []
    ensures TicketsHanded(AfterClaimRow(s, w))
  {
    hide TicketsHanded, Claimable;
    HandsOn(s, AfterClaimRow(s, w));
  }

  lemma {:induction false} RecordHands(s: System, w: nat, reached: bool, answered: bool)
    requires TicketsHanded(s) && Attempting(s, w)
    ensures TicketsHanded(AfterRecord(s, w, reached, answered))
  {
    var t := AfterRecord(s, w, reached, answered);
    assert Holds(s, w, 0);
    hide Accepted, RecordRow, Count, TargetOf;
    forall v, k | Holds(t, v, k)
      ensures t.workers[v].queue[k] in t.handed
    {
      assert Holds(s, v, k) && (v == w && k + 1 < |s.workers[w].queue| ==> Holds(s, v, k + 1));
    }
  }

  lemma {:induction false} CommitHands(known: set<string>, s: System, w: nat)
    requires TicketsHanded(s) && Enabled(known, s, Commit(w))
    ensures TicketsHanded(AfterCommit(s, w))
  {
    var t := AfterCommit(s, w);
    var queue := TicketsFor(s.workers[w].claims);
    hide CommitRows, TicketsFor;
    forall v, k | Holds(t, v, k)
      ensures t.workers[v].queue[k] in t.handed
    {
      if v == w {
        assert t.handed[|s.handed| + k] == queue[k];
      } else {
        assert Holds(s, v, k);
      }
    }
  }

  /** An outcome is only ever recorded under a ticket that a claim handed out. */
  lemma {:induction false} RecordedWasHanded(known: set<string>, s: System, events: seq<Event>)
    requires Initial(s) && Legal(known, s, events)
    ensures TicketsHanded(After(known, s, events))
    decreases |events|
  {
    hide Inv, Enabled, Apply, TicketsHanded;
    if events == [] {
      NothingHeld(s);
    } else {
      var front := events[..|events| - 1];
      RecordedWasHanded(known, s, front);
      StepKeepsHanded(known, After(known, s, front), events[|events| - 1]);
    }
  }

  lemma {:induction false} NothingHeld(s: System)
    requires Initial(s)
    ensures TicketsHanded(s)
  {
  }
}
