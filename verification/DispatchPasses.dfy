/** What the counts of a pass mean, and how a dispatch comes to be recorded as a duplicate. */
module DispatchPasses {
  import opened Prelude
  import opened Outbox = DispatchStore
  import opened DispatchProtocol
  import opened DispatchRuns

  // ----- counts -----

  /** How many of the tickets were recorded with this outcome. */
  function Tally(outcomes: map<Ticket, DispatchState>, tickets: seq<Ticket>, target: DispatchState): nat
    decreases |tickets|
  {
    if tickets == [] then 0
    else
      var last := tickets[|tickets| - 1];
      Tally(outcomes, tickets[..|tickets| - 1], target) + if last in outcomes && outcomes[last] == target then 1 else 0
  }

  /** Each count is the number of tickets recorded with that outcome. */
  ghost predicate Tallied(outcomes: map<Ticket, DispatchState>, tickets: seq<Ticket>, c: Counts) {
    && c.started == Tally(outcomes, tickets, Started) && c.duplicate == Tally(outcomes, tickets, Duplicate)
    && c.retryable == Tally(outcomes, tickets, FailedRetryable)
    && c.terminal == Tally(outcomes, tickets, FailedTerminal)
    && forall k :: 0 <= k < |tickets| ==> tickets[k] in outcomes
  }

  /** The outcomes noted are those of the recorded tickets, and every worker and every return has counted them. */
  ghost predicate PassesOk(s: System) {
    && (forall t :: t in s.outcomes <==> t in s.recorded)
    && (forall w :: 0 <= w < |s.workers| && s.workers[w].Dispatching? ==> CountedOk(s.outcomes, s.workers[w]))
    && (forall k :: 0 <= k < |s.returned| ==> PassOk(s.outcomes, s.returned[k]))
  }

  ghost predicate CountedOk(outcomes: map<Ticket, DispatchState>, me: Worker)
    requires me.Dispatching?
  {
    Tallied(outcomes, me.done, me.counts) && me.counts.claimed == |me.done| + |me.queue|
  }

  ghost predicate PassOk(outcomes: map<Ticket, DispatchState>, p: Pass) {
    Tallied(outcomes, p.batch, p.counts) && p.counts.claimed == |p.batch|
  }

  /** Noting a ticket that had no outcome does not disturb older tallies. */
  lemma {:induction false} TallyStays(
      outcomes: map<Ticket, DispatchState>, tickets: seq<Ticket>, t: Ticket,
      outcome: DispatchState, target: DispatchState)
    requires t !in outcomes && forall k :: 0 <= k < |tickets| ==> tickets[k] in outcomes
    ensures Tally(outcomes[t := outcome], tickets, target) == Tally(outcomes, tickets, target)
    decreases |tickets|
  {
    if tickets != [] {
      TallyStays(outcomes, tickets[..|tickets| - 1], t, outcome, target);
      assert tickets[|tickets| - 1] in outcomes;
    }
  }

  lemma {:induction false} TalliedStays(
      outcomes: map<Ticket, DispatchState>, tickets: seq<Ticket>, c: Counts, t: Ticket, outcome: DispatchState)
    requires t !in outcomes && Tallied(outcomes, tickets, c)
    ensures Tallied(outcomes[t := outcome], tickets, c)
  {
    TallyStays(outcomes, tickets, t, outcome, Started);
    TallyStays(outcomes, tickets, t, outcome, Duplicate);
    TallyStays(outcomes, tickets, t, outcome, FailedRetryable);
    TallyStays(outcomes, tickets, t, outcome, FailedTerminal);
    hide Tally;
  }

  lemma {:induction false} TallySnoc(
      outcomes: map<Ticket, DispatchState>, tickets: seq<Ticket>, t: Ticket, target: DispatchState)
    ensures Tally(outcomes, tickets + [t], target)
      == Tally(outcomes, tickets, target) + if t in outcomes && outcomes[t] == target then 1 else 0
  {
    assert (tickets + [t])[..|tickets|] == tickets;
  }

  /** Counting the outcome just noted keeps the tally. */
  lemma {:induction false} TalliedNext(
      outcomes: map<Ticket, DispatchState>, tickets: seq<Ticket>, c: Counts, t: Ticket, target: DispatchState)
    requires Tallied(outcomes, tickets, c) && t in outcomes && outcomes[t] == target
    requires target == Started || target == Duplicate || target == FailedRetryable || target == FailedTerminal
    ensures Tallied(outcomes, tickets + [t], Count(c, target))
  {
    hide Tally;
    TallySnoc(outcomes, tickets, t, Started);
    TallySnoc(outcomes, tickets, t, Duplicate);
    TallySnoc(outcomes, tickets, t, FailedRetryable);
    TallySnoc(outcomes, tickets, t, FailedTerminal);
  }

  lemma {:induction false} CountKeepsClaimed(c: Counts, target: DispatchState)
    ensures Count(c, target).claimed == c.claimed
  {
  }

  /** A ticket about to be accepted has no outcome yet. */
  lemma {:induction false} NotRecordedYet(s: System, t: Ticket)
    requires HistoryOk(s) && PassesOk(s) && Accepted(s.rows, t)
    ensures t !in s.outcomes
  {
    forall k | 0 <= k < |s.recorded|
      ensures s.recorded[k] != t
    {
      assert s.recorded[k].token < s.rows[s.recorded[k].id].token;
    }
  }

  /** Everyone's counts outlive a new outcome. */
  lemma {:induction false} RecordedPasses(s: System, t: Ticket, target: DispatchState)
    requires HistoryOk(s) && PassesOk(s) && Accepted(s.rows, t)
    ensures PassesOk(Recorded(s, t, target))
    ensures var u := Recorded(s, t, target); t in u.outcomes && u.outcomes[t] == target
  {
    NotRecordedYet(s, t);
    var u := Recorded(s, t, target);
    hide HistoryOk, RecordRow, Tallied;
    forall w | 0 <= w < |u.workers| && u.workers[w].Dispatching?
      ensures CountedOk(u.outcomes, u.workers[w])
    {
      assert CountedOk(s.outcomes, s.workers[w]);
      TalliedStays(s.outcomes, s.workers[w].done, s.workers[w].counts, t, target);
    }
    forall k | 0 <= k < |u.returned|
      ensures PassOk(u.outcomes, u.returned[k])
    {
      assert PassOk(s.outcomes, s.returned[k]);
      TalliedStays(s.outcomes, s.returned[k].batch, s.returned[k].counts, t, target);
    }
    hide CountedOk, PassOk;
  }

  /** One worker changes, in a way that keeps its counts right. */
  lemma {:induction false} WorkerPasses(s: System, w: nat, me: Worker)
    requires PassesOk(s) && w < |s.workers| && (me.Dispatching? ==> CountedOk(s.outcomes, me))
    ensures PassesOk(With(s, w, me))
  {
    hide CountedOk, PassOk;
  }

  /** A worker that only changes its phase has counted the same. */
  lemma {:induction false} PhasePasses(s: System, w: nat, phase: Phase)
    requires PassesOk(s) && w < |s.workers| && s.workers[w].Dispatching?
    ensures PassesOk(With(s, w, s.workers[w].(phase := phase)))
  {
    assert CountedOk(s.outcomes, s.workers[w]);
    hide Tallied;
    assert CountedOk(s.outcomes, s.workers[w].(phase := phase));
    WorkerPasses(s, w, s.workers[w].(phase := phase));
  }

  lemma {:induction false} RecordPasses(known: set<string>, s: System, w: nat, reached: bool, answered: bool)
    requires Inv(known, s) && PassesOk(s) && Enabled(known, s, Record(w, reached, answered))
    ensures PassesOk(AfterRecord(s, w, reached, answered))
  {
    var me, ticket := s.workers[w], s.workers[w].queue[0];
    var target := TargetOf(me.phase);
    assert WorkerOk(known, s.rows, s.startedBy, me);
    RecordingWorker(known, s.rows, s.startedBy, me);
    TargetIsOutcome(known, s.rows, s.startedBy, ticket, me.phase);
    hide RowsOk, WorkersOk, HistoryOk, PassesOk, Accepted, RecordRow, WorkerOk, Recordable, TargetOf, Tallied, Count;
    if reached && Accepted(s.rows, ticket) {
      var t := Recorded(s, ticket, target);
      RecordedPasses(s, ticket, target);
      if answered {
        FinishedPasses(t, w, target);
      } else if me.phase.StartOk? {
        PhasePasses(t, w, Failing(FailedRetryable));
      } else {
        WorkerPasses(t, w, Idle);
      }
    } else if me.phase.StartOk? {
      PhasePasses(s, w, Failing(FailedRetryable));
    } else {
      WorkerPasses(s, w, Idle);
    }
  }

  lemma {:induction false} FinishedPasses(t: System, w: nat, target: DispatchState)
    requires PassesOk(t) && w < |t.workers| && t.workers[w].Dispatching? && t.workers[w].queue != []
    requires t.workers[w].queue[0] in t.outcomes && t.outcomes[t.workers[w].queue[0]] == target
    requires target == Started || target == Duplicate || target == FailedRetryable || target == FailedTerminal
    ensures PassesOk(With(t, w, Finished(t.workers[w], target)))
  {
    var me := t.workers[w];
    assert CountedOk(t.outcomes, me);
    TalliedNext(t.outcomes, me.done, me.counts, me.queue[0], target);
    CountKeepsClaimed(me.counts, target);
    hide Tallied, Count, PassesOk;
    assert CountedOk(t.outcomes, Finished(me, target));
    WorkerPasses(t, w, Finished(me, target));
  }

  lemma {:induction false} TargetIsOutcome(
      known: set<string>, rows: Rows, startedBy: StartedBy, t: Ticket, phase: Phase)
    requires Recordable(known, rows, startedBy, t, phase)
    ensures var target := TargetOf(phase);
      target == Started || target == Duplicate || target == FailedRetryable || target == FailedTerminal
  {
  }

  lemma {:induction false} StepKeepsPasses(known: set<string>, s: System, e: Event)
    requires Inv(known, s) && PassesOk(s) && Enabled(known, s, e)
    ensures PassesOk(Apply(known, s, e))
  {
    hide Inv, PassesOk, CountedOk, AfterRecord, AfterClaimRow, AfterCommit, AfterStart, Locked;
    match e
    case Enqueue(id, row) => SamePasses(s, s.(rows := s.rows[id := row]));
    case Snapshot(w, candidates) => WorkerPasses(s, w, Scanning(candidates, []));
    case ClaimRow(w) => ClaimRowPasses(s, w);
    case Commit(w) => CommitPasses(s, w);
    case Crash(w) => WorkerPasses(s, w, Idle);
    case ResolveUnknown(w) => PhasePasses(s, w, Failing(FailedTerminal));
    case Start(w, reached, answered) => StartPasses(s, w, reached, answered);
    case Record(w, reached, answered) => RecordPasses(known, s, w, reached, answered);
    case Return(w) => ReturnPasses(s, w);
  }

  lemma {:induction false} SamePasses(s: System, t: System)
    requires PassesOk(s) && t.workers == s.workers && t.outcomes == s.outcomes && t.recorded == s.recorded
    requires t.returned == s.returned
    ensures PassesOk(t)
  {
    hide CountedOk, PassOk;
  }

  lemma {:induction false} ClaimRowPasses(s: System, w: nat)
    requires PassesOk(s) && w < |s.workers| && s.workers[w].Scanning? && s.workers[w].candidates != []
    ensures PassesOk(AfterClaimRow(s, w))
  {
    var t := AfterClaimRow(s, w);
    assert t == With(s, w, t.workers[w]) && t.workers[w].Scanning?;
    hide AfterClaimRow, PassesOk;
    WorkerPasses(s, w, t.workers[w]);
  }

  lemma {:induction false} CommitPasses(s: System, w: nat)
    requires PassesOk(s) && w < |s.workers| && s.workers[w].Scanning?
    ensures PassesOk(AfterCommit(s, w))
  {
    var queue := TicketsFor(s.workers[w].claims);
    var me := Dispatching(queue, Ready, Counts(|queue|, 0, 0, 0, 0), []);
    assert CountedOk(s.outcomes, me);
    WorkerPasses(s, w, me);
    hide PassesOk, CountedOk;
    SamePasses(With(s, w, me), AfterCommit(s, w));
  }

  lemma {:induction false} StartPasses(s: System, w: nat, reached: bool, answered: bool)
    requires PassesOk(s) && Attempting(s, w)
    ensures PassesOk(AfterStart(s, w, reached, answered))
  {
    var phase := AfterStart(s, w, reached, answered).workers[w].phase;
    PhasePasses(s, w, phase);
    hide PassesOk;
    SamePasses(With(s, w, s.workers[w].(phase := phase)), AfterStart(s, w, reached, answered));
  }

  lemma {:induction false} ReturnPasses(s: System, w: nat)
    requires PassesOk(s) && w < |s.workers| && s.workers[w].Dispatching? && s.workers[w].queue == []
    ensures PassesOk(With(s, w, Idle).(returned := s.returned + [Pass(s.workers[w].done, s.workers[w].counts)]))
  {
    assert CountedOk(s.outcomes, s.workers[w]);
    hide Tallied;
  }

  lemma {:induction false} InitialPasses(s: System)
    requires Initial(s)
    ensures PassesOk(s)
  {
  }

  lemma {:induction false} AlwaysPasses(known: set<string>, s: System, events: seq<Event>)
    requires Initial(s) && Legal(known, s, events)
    ensures PassesOk(After(known, s, events))
    decreases |events|
  {
    hide Inv, Enabled, Apply, PassesOk;
    if events == [] {
      InitialPasses(s);
    } else {
      var front := events[..|events| - 1];
      ReachableInv(known, s, front);
      AlwaysPasses(known, s, front);
      StepKeepsPasses(known, After(known, s, front), events[|events| - 1]);
    }
  }

  /**
   * Whenever a worker's pass returns normally, each of its four counts is the number of tickets of
   * its batch recorded with that outcome, and together they are what it claimed.
   */
  lemma {:induction false} CountsAddUp(known: set<string>, s: System, events: seq<Event>, k: nat)
    requires Initial(s) && Legal(known, s, events) && k < |After(known, s, events).returned|
    ensures var t, pass := After(known, s, events), After(known, s, events).returned[k];
      && Tallied(t.outcomes, pass.batch, pass.counts) && pass.counts.claimed == |pass.batch|
      && pass.counts.started + pass.counts.duplicate + pass.counts.retryable + pass.counts.terminal
           == pass.counts.claimed
  {
    ReachableInv(known, s, events);
    AlwaysPasses(known, s, events);
    assert PassOk(After(known, s, events).outcomes, After(known, s, events).returned[k]);
    hide Enabled, Apply, After, Legal, Initial, RowsOk, WorkersOk, Tallied, CountedOk;
  }

  // ----- one attempt -----

  /** What the first ticket of the queue is claimed for, in a state where nothing of its attempt is done. */
  ghost predicate Fresh(s: System, w: nat) {
    Attempting(s, w) && s.workers[w].phase.Ready? && Accepted(s.rows, s.workers[w].queue[0])
  }

  /** How an attempt begins: an unknown template is not started. */
  function FirstOf(known: set<string>, s: System, w: nat, reached: bool, answered: bool): Event
    requires Attempting(s, w)
  {
    if s.rows[s.workers[w].queue[0].id].templateId in known then Start(w, reached, answered) else ResolveUnknown(w)
  }

  /** The state a dispatch is left in by an attempt whose record is not lost. */
  function Verdict(known: set<string>, startedBy: StartedBy, row: Row, heard: bool): DispatchState {
    if row.templateId !in known then FailedTerminal
    else if !heard then FailedRetryable
    else if row.key in startedBy then Duplicate
    else Started
  }

  /** An attempt and its record: the verdict is the row's new state, counted once, and nothing else changes. */
  lemma {:induction false} AttemptDecides(known: set<string>, s: System, w: nat, reached: bool, answered: bool)
    requires Fresh(s, w)
    ensures var first := FirstOf(known, s, w, reached, answered);
      && Enabled(known, s, first) && Enabled(known, Apply(known, s, first), Record(w, true, true))
      && var me, ticket := s.workers[w], s.workers[w].queue[0];
      var row, u := s.rows[ticket.id], Apply(known, Apply(known, s, first), Record(w, true, true));
      var verdict := Verdict(known, s.startedBy, row, reached && answered);
      && u.rows == s.rows[ticket.id := Row(verdict, row.token + 1, row.key, row.templateId)]
      && u.startedBy == (if row.templateId in known && reached && row.key !in s.startedBy
                         then s.startedBy[row.key := ticket] else s.startedBy)
      && |u.workers| == |s.workers| && (forall v :: 0 <= v < |s.workers| && v != w ==> u.workers[v] == s.workers[v])
      && u.workers[w].Dispatching? && u.workers[w].queue == me.queue[1..] && u.workers[w].phase.Ready?
      && u.workers[w].done == me.done + [ticket]
      && var c, d := me.counts, u.workers[w].counts;
      && d.claimed == c.claimed
      && d.started == c.started + (if verdict == Started then 1 else 0)
      && d.duplicate == c.duplicate + (if verdict == Duplicate then 1 else 0)
      && d.retryable == c.retryable + (if verdict == FailedRetryable then 1 else 0)
      && d.terminal == c.terminal + (if verdict == FailedTerminal then 1 else 0)
  {
    var first := FirstOf(known, s, w, reached, answered);
    var t := Apply(known, s, first);
    assert Attempting(t, w) && t.rows == s.rows && !t.workers[w].phase.Ready?;
  }

  /** A lost record: of a start, a retryable failure is recorded next; of anything else, the call ends. */
  lemma {:induction false} LostRecordDecides(known: set<string>, s: System, w: nat, reached: bool)
    requires Enabled(known, s, Record(w, reached, false))
    ensures var me, t := s.workers[w], Apply(known, s, Record(w, reached, false));
      && t.startedBy == s.startedBy && t.handed == s.handed && t.returned == s.returned
      && |t.workers| == |s.workers| && (forall v :: 0 <= v < |s.workers| && v != w ==> t.workers[v] == s.workers[v])
      && t.workers[w] == (if me.phase.StartOk? then me.(phase := Failing(FailedRetryable)) else Idle)
      && (!reached || !Accepted(s.rows, me.queue[0]) ==>
            t.rows == s.rows && t.recorded == s.recorded && t.outcomes == s.outcomes)
  {
  }

  // ----- how a dispatch ends as a duplicate -----

  /** A row is left alone, or claimed, or its outcome is recorded, each time with the next token. */
  ghost predicate RowStep(d: Row, e: Row) {
    || e == d
    || (e.token == d.token + 1 && Claimable(d) && e.state == Starting)
    || (e.token == d.token + 1 && d.state == Starting && (Final(e.state) || e.state == FailedRetryable))
  }

  lemma {:induction false} StepOnRow(known: set<string>, s: System, e: Event, id: string)
    requires Inv(known, s) && Enabled(known, s, e) && id in s.rows
    ensures id in Apply(known, s, e).rows && RowStep(s.rows[id], Apply(known, s, e).rows[id])
    ensures Apply(known, s, e).rows[id].key == s.rows[id].key
  {
    hide Inv, RowStep, AfterCommit, AfterRecord, AfterStart, AfterClaimRow, Locked;
    SameRow(s.rows[id]);
    match e
    case Commit(w) => CommitOnRow(known, s, w, id);
    case Record(w, reached, answered) => RecordOnRow(known, s, w, reached, answered, id);
    case Start(w, reached, answered) => StartFrame(s, w, reached, answered);
    case ClaimRow(w) => ClaimRowFrame(s, w);
    case _ =>
  }

  lemma {:induction false} SameRow(d: Row)
    ensures RowStep(d, d)
  {
  }

  lemma {:induction false} CommitOnRow(known: set<string>, s: System, w: nat, id: string)
    requires Inv(known, s) && Enabled(known, s, Commit(w)) && id in s.rows
    ensures var t := AfterCommit(s, w);
      id in t.rows && RowStep(s.rows[id], t.rows[id]) && t.rows[id].key == s.rows[id].key
  {
    assert WorkerOk(known, s.rows, s.startedBy, s.workers[w]);
    CommitTokens(known, s.rows, s.startedBy, s.workers[w]);
    hide Inv, CommitRows, WorkerOk, TicketsFor;
  }

  lemma {:induction false} RecordOnRow(known: set<string>, s: System, w: nat, reached: bool, answered: bool, id: string)
    requires Inv(known, s) && Enabled(known, s, Record(w, reached, answered)) && id in s.rows
    ensures var t := AfterRecord(s, w, reached, answered);
      id in t.rows && RowStep(s.rows[id], t.rows[id]) && t.rows[id].key == s.rows[id].key
  {
    assert WorkerOk(known, s.rows, s.startedBy, s.workers[w]);
    RecordingWorker(known, s.rows, s.startedBy, s.workers[w]);
    TargetIsOutcome(known, s.rows, s.startedBy, s.workers[w].queue[0], s.workers[w].phase);
    hide Inv, WorkerOk, Recordable, TargetOf, Finished;
  }

  lemma {:induction false} StartFrame(s: System, w: nat, reached: bool, answered: bool)
    requires Attempting(s, w)
    ensures var t, ticket := AfterStart(s, w, reached, answered), s.workers[w].queue[0];
      && t.rows == s.rows
      && (t.startedBy == s.startedBy
          || (s.rows[ticket.id].key !in s.startedBy && t.startedBy == s.startedBy[s.rows[ticket.id].key := ticket]))
  {
  }

  lemma {:induction false} ClaimRowFrame(s: System, w: nat)
    requires w < |s.workers| && s.workers[w].Scanning? && s.workers[w].candidates != []
    ensures AfterClaimRow(s, w).rows == s.rows && AfterClaimRow(s, w).startedBy == s.startedBy
  {
  }

  /** The workflow of the dispatch runs although the dispatch was recorded as retryable. */
  ghost predicate StartLost(s: System, id: string) {
    id in s.rows && s.rows[id].state == FailedRetryable && s.rows[id].key in s.startedBy
  }

  /** Past the token it was started under, and not recorded as started. */
  ghost predicate PastItsStart(s: System, id: string) {
    && id in s.rows && s.rows[id].key in s.startedBy && s.rows[id].state != Started
    && s.rows[id].token > s.startedBy[s.rows[id].key].token
  }

  ghost predicate SomeStartLost(known: set<string>, s: System, events: seq<Event>, id: string)
    requires Legal(known, s, events)
  {
    exists i :: LostBefore(known, s, events, i, id)
  }

  ghost predicate LostBefore(known: set<string>, s: System, events: seq<Event>, i: int, id: string)
    requires Legal(known, s, events)
  {
    0 <= i <= |events| && Legal(known, s, events[..i]) && StartLost(After(known, s, events[..i]), id)
  }

  /** What takes a row past the start of its workflow is being recorded as retryable. */
  lemma {:induction false} PastStart(
      known: set<string>, before: StartedBy, after: StartedBy, id: string, d: Row, e: Row)
    requires RowOk(known, before, id, d) && RowOk(known, after, id, e) && RowStep(d, e) && d.key == e.key
    requires e.key in after && e.state != Started && e.token > after[e.key].token
    requires d.key in before ==> after[d.key] == before[d.key] && (d.state == Started || d.token <= before[d.key].token)
    requires d.key !in before ==> e == d && after[e.key].token == d.token
    ensures e.state == FailedRetryable
  {
  }

  /** The step that takes a dispatch past its start is the record that lost the start. */
  lemma {:induction false} StepPastStart(known: set<string>, s: System, e: Event, id: string)
    requires Inv(known, s) && Enabled(known, s, e)
    requires PastItsStart(Apply(known, s, e), id) && !PastItsStart(s, id)
    ensures StartLost(Apply(known, s, e), id)
  {
    var t := Apply(known, s, e);
    StepKeepsInv(known, s, e);
    assert RowOk(known, t.startedBy, id, t.rows[id]);
    StartedByStep(known, s, e, id);
    if id in s.rows {
      StepOnRow(known, s, e, id);
      assert RowOk(known, s.startedBy, id, s.rows[id]);
      hide Inv, Enabled, Apply, RowOk, RowStep;
      PastStart(known, s.startedBy, t.startedBy, id, s.rows[id], t.rows[id]);
    }
  }

  /** Starts are only added, under the current token of their row, and never for a row that is new. */
  ghost predicate StartsAdded(s: System, t: System, id: string) {
    id in t.rows && t.rows[id].key in t.startedBy ==>
      && id in s.rows && t.rows[id].key == s.rows[id].key
      && if s.rows[id].key in s.startedBy then t.startedBy[s.rows[id].key] == s.startedBy[s.rows[id].key]
         else t.rows == s.rows && t.startedBy[s.rows[id].key].token == s.rows[id].token
  }

  lemma {:induction false} StartedByStep(known: set<string>, s: System, e: Event, id: string)
    requires Inv(known, s) && Enabled(known, s, e)
    ensures StartsAdded(s, Apply(known, s, e), id)
  {
    hide Inv, StartsAdded, AfterCommit, AfterStart, AfterRecord, AfterClaimRow, Locked;
    match e
    case Start(w, reached, answered) => StartOnRow(known, s, w, reached, answered, id);
    case Commit(w) =>
      CommitFrame(known, s, w);
      NoStart(s, AfterCommit(s, w), id);
    case Record(w, reached, answered) =>
      RecordFrame(s, w, reached, answered);
      NoStart(s, AfterRecord(s, w, reached, answered), id);
    case ClaimRow(w) =>
      ClaimRowFrame(s, w);
      NoStart(s, AfterClaimRow(s, w), id);
    case Enqueue(other, row) => EnqueueOnRow(known, s, other, row, id);
    case _ => NoStart(s, Apply(known, s, e), id);
  }

  lemma {:induction false} StartOnRow(known: set<string>, s: System, w: nat, reached: bool, answered: bool, id: string)
    requires Inv(known, s) && Enabled(known, s, Start(w, reached, answered))
    ensures StartsAdded(s, AfterStart(s, w, reached, answered), id)
  {
    StartFrame(s, w, reached, answered);
    assert WorkerOk(known, s.rows, s.startedBy, s.workers[w]);
    ReadyHead(known, s, s.workers[w]);
    assert UniqueKeys(s.rows);
    hide Inv, AfterStart, WorkerOk;
  }

  lemma {:induction false} NoStart(s: System, t: System, id: string)
    requires t.startedBy == s.startedBy && t.rows.Keys == s.rows.Keys
    requires forall other :: other in s.rows ==> t.rows[other].key == s.rows[other].key
    ensures StartsAdded(s, t, id)
  {
  }

  lemma {:induction false} EnqueueOnRow(known: set<string>, s: System, other: string, row: Row, id: string)
    requires Inv(known, s) && Enabled(known, s, Enqueue(other, row))
    ensures StartsAdded(s, s.(rows := s.rows[other := row]), id)
  {
    assert row.key !in s.startedBy;
    hide Inv;
  }

  lemma {:induction false} RecordFrame(s: System, w: nat, reached: bool, answered: bool)
    requires Attempting(s, w)
    ensures var t := AfterRecord(s, w, reached, answered);
      t.startedBy == s.startedBy && t.rows.Keys == s.rows.Keys
        && forall id :: id in s.rows ==> t.rows[id].key == s.rows[id].key
  {
    hide Finished, TargetOf;
  }

  lemma {:induction false} CommitFrame(known: set<string>, s: System, w: nat)
    requires Inv(known, s) && Enabled(known, s, Commit(w))
    ensures var t := AfterCommit(s, w);
      t.startedBy == s.startedBy && t.rows.Keys == s.rows.Keys
        && forall id :: id in s.rows ==> t.rows[id].key == s.rows[id].key
  {
    assert WorkerOk(known, s.rows, s.startedBy, s.workers[w]);
    CommitTokens(known, s.rows, s.startedBy, s.workers[w]);
    hide Inv, CommitRows, WorkerOk, TicketsFor;
  }

  /** So a dispatch past its start was once lost. */
  lemma {:induction false} PastStartWasLost(known: set<string>, s: System, events: seq<Event>, id: string)
    requires Initial(s) && Legal(known, s, events) && PastItsStart(After(known, s, events), id)
    ensures SomeStartLost(known, s, events, id)
    decreases |events|
  {
    hide Enabled, Apply, Inv, PastItsStart, StartLost;
    if events == [] {
      NothingStarted(s, id);
    } else {
      var front := events[..|events| - 1];
      ReachableInv(known, s, front);
      if PastItsStart(After(known, s, front), id) {
        PastStartWasLost(known, s, front, id);
        var i :| LostBefore(known, s, front, i, id);
        assert front[..i] == events[..i];
        assert LostBefore(known, s, events, i, id);
      } else {
        StepPastStart(known, After(known, s, front), events[|events| - 1], id);
        assert events[..|events|] == events;
        assert LostBefore(known, s, events, |events|, id);
      }
    }
  }

  lemma {:induction false} NothingStarted(s: System, id: string)
    requires Initial(s)
    ensures !PastItsStart(s, id)
  {
  }

  /**
   * A settled dispatch is a `duplicate` exactly if, at some time before, it had been recorded as
   * retryable although its workflow was running.
   */
  lemma {:induction false} DuplicateExactly(known: set<string>, s: System, events: seq<Event>, id: string)
    requires Initial(s) && Legal(known, s, events) && id in After(known, s, events).rows
    requires Final(After(known, s, events).rows[id].state)
    ensures After(known, s, events).rows[id].state == Duplicate <==> SomeStartLost(known, s, events, id)
  {
    OutcomeTellsTheStart(known, s, events, id);
    hide Enabled, Apply, Inv, After, Legal, Initial;
    if After(known, s, events).rows[id].state == Duplicate {
      PastStartWasLost(known, s, events, id);
    }
    if SomeStartLost(known, s, events, id) {
      var i :| LostBefore(known, s, events, i, id);
      LostStartEndsDuplicate(known, s, events, i, id);
    }
  }

  // ----- a run that loses a start -----

  lemma {:induction false} Snoc(known: set<string>, s: System, events: seq<Event>, e: Event)
    requires Legal(known, s, events) && Enabled(known, After(known, s, events), e)
    ensures Legal(known, s, events + [e]) && After(known, s, events + [e]) == Apply(known, After(known, s, events), e)
  {
    hide Enabled, Apply;
    var more := events + [e];
    assert more[..|more| - 1] == events && more[|more| - 1] == e;
  }

  const KNOWN: set<string> := {"t"}

  function D(token: int): Ticket {
    Ticket("d", token)
  }

  /** One dispatch, of a known template, and one worker. */
  predicate One(s: System, row: Row, me: Worker) {
    s.rows == map["d" := row] && row.templateId == "t" && s.workers == [me]
  }

  function Put(s: System, me: Worker): System {
    s.(workers := [me])
  }

  lemma {:induction false} PutIsWith(s: System, row: Row, me: Worker, next: Worker)
    requires One(s, row, me)
    ensures With(s, 0, next) == Put(s, next)
  {
  }

  lemma {:induction false} Snapshots(s: System, row: Row)
    requires One(s, row, Idle) && Claimable(row)
    ensures var e := Snapshot(0, [D(row.token)]);
      Enabled(KNOWN, s, e) && Apply(KNOWN, s, e) == Put(s, Scanning([D(row.token)], []))
  {
    PutIsWith(s, row, Idle, Scanning([D(row.token)], []));
  }

  lemma {:induction false} ClaimsTheRow(s: System, row: Row)
    requires One(s, row, Scanning([D(row.token)], [])) && Claimable(row)
    ensures Enabled(KNOWN, s, ClaimRow(0)) && Apply(KNOWN, s, ClaimRow(0)) == Put(s, Scanning([], [D(row.token)]))
  {
    var c := D(row.token);
    assert [c][1..] == [] && [] + [c] == [c];
    PutIsWith(s, row, Scanning([c], []), Scanning([], [c]));
  }

  function Claimed(row: Row): Row {
    row.(state := Starting, token := row.token + 1)
  }

  lemma {:induction false} CommitsTheClaim(s: System, row: Row)
    requires One(s, row, Scanning([], [D(row.token)]))
    ensures Enabled(KNOWN, s, Commit(0))
    ensures Apply(KNOWN, s, Commit(0))
         == Put(s, Dispatching([D(row.token + 1)], Ready, Counts(1, 0, 0, 0, 0), []))
            .(rows := map["d" := Claimed(row)], handed := s.handed + [D(row.token + 1)])
  {
    var c := D(row.token);
    assert TicketsFor([c]) == [D(row.token + 1)];
    assert Claims([c], "d") by {
      assert [c][0].id == "d";
    }
    assert CommitRows(s.rows, [c]) == map["d" := Claimed(row)];
    PutIsWith(s, row, Scanning([], [c]), Dispatching([D(row.token + 1)], Ready, Counts(1, 0, 0, 0, 0), []));
  }

  function ClaimedOne(s: System, row: Row): System {
    s.(rows := map["d" := Claimed(row)], handed := s.handed + [D(row.token + 1)],
       workers := [Dispatching([D(row.token + 1)], Ready, Counts(1, 0, 0, 0, 0), [])])
  }

  /** The only worker claims the only dispatch. */
  lemma {:induction false} ClaimingRuns(s: System, events: seq<Event>, row: Row)
    requires Legal(KNOWN, s, events) && One(After(KNOWN, s, events), row, Idle) && Claimable(row)
    ensures var more := events + [Snapshot(0, [D(row.token)])] + [ClaimRow(0)] + [Commit(0)];
      Legal(KNOWN, s, more) && After(KNOWN, s, more) == ClaimedOne(After(KNOWN, s, events), row)
  {
    hide Legal, After, Enabled, Apply;
    var c, t := D(row.token), After(KNOWN, s, events);
    Snapshots(t, row);
    Snoc(KNOWN, s, events, Snapshot(0, [c]));
    ClaimsTheRow(Put(t, Scanning([c], [])), row);
    Snoc(KNOWN, s, events + [Snapshot(0, [c])], ClaimRow(0));
    CommitsTheClaim(Put(t, Scanning([], [c])), row);
    Snoc(KNOWN, s, events + [Snapshot(0, [c])] + [ClaimRow(0)], Commit(0));
  }

  /** The service starts the workflow, unless it has done so before. */
  lemma {:induction false} Starts(s: System, row: Row, ticket: Ticket, counts: Counts)
    requires One(s, row, Dispatching([ticket], Ready, counts, [])) && ticket.id == "d"
    ensures Enabled(KNOWN, s, Start(0, true, true))
    ensures Apply(KNOWN, s, Start(0, true, true))
         == if row.key in s.startedBy then Put(s, Dispatching([ticket], AlreadyStarted, counts, []))
            else Put(s, Dispatching([ticket], StartOk, counts, [])).(startedBy := s.startedBy[row.key := ticket])
  {
    PutIsWith(s, row, s.workers[0], Dispatching([ticket], AlreadyStarted, counts, []));
    PutIsWith(s, row, s.workers[0], Dispatching([ticket], StartOk, counts, []));
  }

  lemma {:induction false} LosesTheRecord(s: System, row: Row, ticket: Ticket, counts: Counts)
    requires One(s, row, Dispatching([ticket], StartOk, counts, [])) && ticket.id == "d"
    ensures Enabled(KNOWN, s, Record(0, false, true))
    ensures Apply(KNOWN, s, Record(0, false, true))
      == Put(s, Dispatching([ticket], Failing(FailedRetryable), counts, []))
  {
    PutIsWith(s, row, s.workers[0], Dispatching([ticket], Failing(FailedRetryable), counts, []));
  }

  lemma {:induction false} Records(s: System, row: Row, phase: Phase, counts: Counts)
    requires One(s, row, Dispatching([D(row.token)], phase, counts, [])) && !phase.Ready? && row.state == Starting
    ensures var target := TargetOf(phase);
      Enabled(KNOWN, s, Record(0, true, true))
      && Apply(KNOWN, s, Record(0, true, true))
         == Put(s, Dispatching([], Ready, Count(counts, target), [D(row.token)]))
            .(rows := map["d" := row.(state := target, token := row.token + 1)],
              recorded := s.recorded + [D(row.token)],
              outcomes := s.outcomes[D(row.token) := target])
  {
    var ticket, target := D(row.token), TargetOf(phase);
    var t := Recorded(s, ticket, target);
    assert t.rows == map["d" := row.(state := target, token := row.token + 1)];
    assert [ticket][1..] == [] && [] + [ticket] == [ticket];
    assert With(t, 0, Finished(s.workers[0], target))
      == Put(t, Dispatching([], Ready, Count(counts, target), [ticket]));
  }

  lemma {:induction false} Returns(s: System, row: Row, counts: Counts, done: seq<Ticket>)
    requires One(s, row, Dispatching([], Ready, counts, done))
    ensures Enabled(KNOWN, s, Return(0))
    ensures Apply(KNOWN, s, Return(0)) == Put(s, Idle).(returned := s.returned + [Pass(done, counts)])
  {
    PutIsWith(s, row, s.workers[0], Idle);
  }

  const START := System(map["d" := Row(Pending, 1, "k", "t")], map[], [Idle], [], [], map[], [])

  /** Claimed, started, the record of the start lost, and recorded as retryable. */
  const LOSING := [] + [Snapshot(0, [D(1)])] + [ClaimRow(0)] + [Commit(0)] + [Start(0, true, true)]
                  + [Record(0, false, true)] + [Record(0, true, true)]

  const ONE_CLAIMED := Counts(1, 0, 0, 0, 0)

  /** The only dispatch after its start was lost. */
  predicate Lost(s: System, row: Row) {
    && row == Row(FailedRetryable, 3, "k", "t") && s.startedBy == map["k" := D(2)]
    && One(s, row, Dispatching([], Ready, Counts(1, 0, 0, 1, 0), [D(2)]))
  }

  const CLAIMED := [] + [Snapshot(0, [D(1)])] + [ClaimRow(0)] + [Commit(0)]

  const TAKEN := System(
    map["d" := Row(Starting, 2, "k", "t")], map[], [Dispatching([D(2)], Ready, ONE_CLAIMED, [])], [D(2)], [], map[], [])

  lemma {:induction false} ClaimedRuns()
    ensures Initial(START) && Legal(KNOWN, START, CLAIMED) && After(KNOWN, START, CLAIMED) == TAKEN
  {
    assert Legal(KNOWN, START, []) && After(KNOWN, START, []) == START;
    ClaimingRuns(START, [], Row(Pending, 1, "k", "t"));
    hide Legal, After;
  }

  lemma {:induction false} LosingRuns()
    ensures Initial(START) && Legal(KNOWN, START, LOSING)
    ensures Lost(After(KNOWN, START, LOSING), Row(FailedRetryable, 3, "k", "t"))
  {
    hide Legal, After, Enabled, Apply, Initial;
    ClaimedRuns();
    var row := Row(Starting, 2, "k", "t");
    Starts(TAKEN, row, D(2), ONE_CLAIMED);
    Snoc(KNOWN, START, CLAIMED, Start(0, true, true));
    var u := Put(TAKEN, Dispatching([D(2)], StartOk, ONE_CLAIMED, [])).(startedBy := map["k" := D(2)]);
    assert map[]["k" := D(2)] == map["k" := D(2)];
    LosesTheRecord(u, row, D(2), ONE_CLAIMED);
    Snoc(KNOWN, START, CLAIMED + [Start(0, true, true)], Record(0, false, true));
    Records(Put(u, Dispatching([D(2)], Failing(FailedRetryable), ONE_CLAIMED, [])), row, Failing(FailedRetryable),
            ONE_CLAIMED);
    Snoc(KNOWN, START, CLAIMED + [Start(0, true, true)] + [Record(0, false, true)], Record(0, true, true));
  }

  /** Then claimed again: the service rejects the start, and the dispatch ends as a duplicate. */
  const REPEATING := LOSING + [Return(0)] + [Snapshot(0, [D(3)])] + [ClaimRow(0)] + [Commit(0)] + [Start(0, true, true)]
                     + [Record(0, true, true)]

  lemma {:induction false} Repeats(s: System, row: Row)
    requires Legal(KNOWN, START, LOSING) && s == After(KNOWN, START, LOSING) && Lost(s, row)
    ensures Legal(KNOWN, START, REPEATING)
    ensures var t := After(KNOWN, START, REPEATING); "d" in t.rows && t.rows["d"].state == Duplicate
  {
    hide Legal, After, Enabled, Apply;
    Returns(s, row, Counts(1, 0, 0, 1, 0), [D(2)]);
    Snoc(KNOWN, START, LOSING, Return(0));
    var t := Put(s, Idle).(returned := s.returned + [Pass([D(2)], Counts(1, 0, 0, 1, 0))]);
    ClaimingRuns(START, LOSING + [Return(0)], row);
    var claimed, u := LOSING + [Return(0)] + [Snapshot(0, [D(3)])] + [ClaimRow(0)] + [Commit(0)], ClaimedOne(t, row);
    Starts(u, Claimed(row), D(4), ONE_CLAIMED);
    Snoc(KNOWN, START, claimed, Start(0, true, true));
    Records(Put(u, Dispatching([D(4)], AlreadyStarted, ONE_CLAIMED, [])), Claimed(row), AlreadyStarted, ONE_CLAIMED);
    Snoc(KNOWN, START, claimed + [Start(0, true, true)], Record(0, true, true));
  }

  /** A run that loses a start, and goes on to settle the dispatch as a duplicate. */
  lemma {:induction false} LostStartIsReachable()
    ensures Initial(START) && Legal(KNOWN, START, LOSING) && StartLost(After(KNOWN, START, LOSING), "d")
    ensures Legal(KNOWN, START, REPEATING)
    ensures var t := After(KNOWN, START, REPEATING); "d" in t.rows && t.rows["d"].state == Duplicate
  {
    hide Legal, After, Initial;
    LosingRuns();
    Repeats(After(KNOWN, START, LOSING), Row(FailedRetryable, 3, "k", "t"));
  }
}
