/** What a dispatch shows after any run of operations: its last claim or record, and nothing else. */
module DispatchRecords {
  import opened Prelude
  import opened DispatchStore
  import opened DispatchHistory

  // ----- what is there at first -----

  /** A seed not saying otherwise is pending, at token one, from the first of January 2026 and unchanged since. */
  ghost predicate ShowsSeed(seed: Seed, d: Dispatch) {
    && d.assetVersionId == seed.assetVersionId && d.id == seed.id && d.reason == seed.reason && d.key == seed.key
    && d.templateId == seed.templateId && d.firstAttemptAt == seed.firstAttemptAt
    && d.lastAttemptAt == seed.lastAttemptAt && d.retrySummary == seed.retrySummary
    && d.lastFailureClass == (if seed.lastFailureClass == Some("") then None else seed.lastFailureClass)
    && d.state == (if seed.state.Some? then seed.state.value else Pending)
    && d.token == (if seed.token.Some? then seed.token.value else 1)
    && d.createdAt == (if seed.createdAt.Some? then seed.createdAt.value else 1_767_225_600_000)
    && d.updatedAt == if seed.updatedAt.Some? then seed.updatedAt.value else d.createdAt
  }

  ghost predicate LastSeed(seeds: seq<Seed>, id: string, j: nat) {
    j < |seeds| && seeds[j].id == id && forall k :: j < k < |seeds| ==> seeds[k].id != id
  }

  lemma {:induction false} PlantedShows(seed: Seed)
    ensures ShowsSeed(seed, Planted(seed))
  {
  }

  lemma {:induction false} PlantUnfold(seeds: seq<Seed>)
    requires seeds != []
    ensures var n := |seeds| - 1;
      PlantAll(seeds).dispatches == PlantAll(seeds[..n]).dispatches[seeds[n].id := Planted(seeds[n])]
  {
    hide GoodIds, Planted;
  }

  /** A store starts with exactly the ids of its seeds, each as the last seed of that id says. */
  lemma {:induction false} SeedsShow(seeds: seq<Seed>, id: string) returns (j: nat)
    ensures id in PlantAll(seeds).dispatches ==>
      LastSeed(seeds, id, j) && ShowsSeed(seeds[j], PlantAll(seeds).dispatches[id])
    ensures id !in PlantAll(seeds).dispatches ==> forall k :: 0 <= k < |seeds| ==> seeds[k].id != id
    decreases |seeds|
  {
    hide GoodIds, Planted, ShowsSeed;
    j := 0;
    if seeds != [] {
      hide PlantAll;
      var n := |seeds| - 1;
      PlantUnfold(seeds);
      PlantedShows(seeds[n]);
      j := SeedsShow(seeds[..n], id);
      if seeds[n].id == id {
        j := n;
      }
    }
  }

  // ----- what one operation is answered -----

  /**
   * A record goes through for a dispatch being started, under its current token; else the first thing
   * wrong is said.
   */
  lemma {:induction false} RepliesExactly(s: Store, op: Op)
    requires NoDangling(s) && !op.ClaimOp?
    ensures var (id, token) := Presented(op).value;
      ReplyOf(s, op)
      == if id !in s.dispatches then Err(NotFound(id))
         else if s.dispatches[id].token != token then Err(VersionConflict(id, token))
         else if s.dispatches[id].state != Starting then
           Err(StateTransition(s.dispatches[id].id, s.dispatches[id].state, Target(op)))
         else Ok(())
  {
    hide StartedRun, ExistingRun;
  }

  // ----- what one operation shows -----

  /** A claim notes its time, as the last attempt and, if there was none, as the first. */
  ghost predicate ShowsClaim(d: Dispatch, e: Dispatch, at: Time) {
    && e.state == Starting && e.updatedAt == at && e.lastAttemptAt == Some(at)
    && e.firstAttemptAt == (if d.firstAttemptAt.Some? then d.firstAttemptAt else Some(at))
    && e.lastFailureClass == d.lastFailureClass && e.retrySummary == d.retrySummary
  }

  /** A record notes its time and, if it is a failure, what failed and how to try again. */
  ghost predicate ShowsRecord(d: Dispatch, e: Dispatch, op: Op) {
    && e.firstAttemptAt == d.firstAttemptAt && e.updatedAt == TimeOf(op) && e.lastAttemptAt == Some(TimeOf(op))
    && match op
       case ClaimOp(_, _) => false
       case StartedOp(_, _) =>
         e.state == Started && e.lastFailureClass == d.lastFailureClass && e.retrySummary == d.retrySummary
       case DuplicateOp(_, _) =>
         e.state == Duplicate && e.lastFailureClass == d.lastFailureClass && e.retrySummary == d.retrySummary
       case RetryableOp(f) =>
         e.state == FailedRetryable && e.lastFailureClass == Some(f.failureClass) && e.retrySummary == f.retrySummary
       case TerminalOp(f) =>
         e.state == FailedTerminal && e.lastFailureClass == Some(f.failureClass) && e.retrySummary == f.retrySummary
  }

  function TimeOf(op: Op): Time {
    match op
    case ClaimOp(_, at) => at
    case StartedOp(input, _) => input.at
    case DuplicateOp(input, _) => input.at
    case RetryableOp(f) => f.at
    case TerminalOp(f) => f.at
  }

  /** What a dispatch is about never changes, and its token counts its changes. */
  ghost predicate Shows(before: IdOrder, s: Store, op: Op, id: string, d: Dispatch, e: Dispatch)
    requires GoodIds(s)
  {
    && e.assetVersionId == d.assetVersionId && e.createdAt == d.createdAt && e.id == d.id && e.reason == d.reason
    && e.key == d.key && e.templateId == d.templateId && e.token == d.token + 1
    && if op.ClaimOp? then ShowsClaim(d, e, op.at) && HandsOut(before, s, op, id, e.token)
       else ShowsRecord(d, e, op) && Records(s, op, id, d.token)
  }

  lemma {:induction false} ClaimShows(before: IdOrder, s: Store, op: Op, id: string)
    requires GoodIds(s) && op.ClaimOp? && id in s.dispatches
    ensures id in Step(before, s, op).dispatches
    ensures var d, e := s.dispatches[id], Step(before, s, op).dispatches[id];
      e == d || Shows(before, s, op, id, d, e)
  {
    ClaimedIds(before, s, op, id);
    hide GoodIds, HandsOut, Queue, Take;
  }

  lemma {:induction false} UpsertGoesThrough(s: Store, run: Run, generated: string)
    requires NoDangling(s)
    ensures Upsert(s, run, generated).1.Ok? && Upsert(s, run, generated).0.dispatches == s.dispatches
  {
  }

  lemma {:induction false} SameDangling(s: Store, t: Store)
    requires NoDangling(s) && t.runsById == s.runsById && t.runsByWorkflowId == s.runsByWorkflowId
    ensures NoDangling(t)
  {
  }

  lemma {:induction false} StartedDispatches(s: Store, input: StartedInput, generated: string)
    requires NoDangling(s) && Mutable(s, input.id, input.expected, Started).Ok?
    ensures AfterStarted(s, input, generated).1.Ok?
    ensures AfterStarted(s, input, generated).0.dispatches
      == s.dispatches[input.id := Settled(s.dispatches[input.id], Started, input.at)]
  {
    hide Upsert, NoDangling, StartedRun, ExistingRun, Settled;
    var d := s.dispatches[input.id];
    var t := s.(dispatches := s.dispatches[input.id := Settled(d, Started, input.at)]);
    SameDangling(s, t);
    UpsertGoesThrough(t, StartedRun(ExistingRun(t, input.workflowId), d, input), generated);
  }

  lemma {:induction false} DuplicateDispatches(s: Store, input: DuplicateInput, generated: string)
    requires NoDangling(s) && Mutable(s, input.id, input.expected, Duplicate).Ok?
    ensures AfterDuplicate(s, input, generated).1.Ok?
    ensures AfterDuplicate(s, input, generated).0.dispatches
      == s.dispatches[input.id := Settled(s.dispatches[input.id], Duplicate, input.at)]
  {
    hide Upsert, NoDangling, Settled;
    var d := s.dispatches[input.id];
    var t := s.(dispatches := s.dispatches[input.id := Settled(d, Duplicate, input.at)]);
    SameDangling(s, t);
    UpsertGoesThrough(t, Run(d.assetVersionId, input.at, input.currentPhase, Some(input.at),
                             input.runState.GetOr(Running), input.at, Some(d.id), input.workflowId, "", d.templateId),
                      generated);
  }

  /** A dispatch after this record went through. */
  function RecordedAs(d: Dispatch, op: Op): Dispatch {
    var e := Settled(d, Target(op), TimeOf(op));
    match op
    case RetryableOp(f) => e.(lastFailureClass := Some(f.failureClass), retrySummary := f.retrySummary)
    case TerminalOp(f) => e.(lastFailureClass := Some(f.failureClass), retrySummary := f.retrySummary)
    case _ => e
  }

  lemma {:induction false} RecordedAsShows(d: Dispatch, op: Op)
    requires !op.ClaimOp?
    ensures var e := RecordedAs(d, op);
      && ShowsRecord(d, e, op) && e.token == d.token + 1
      && e.assetVersionId == d.assetVersionId && e.createdAt == d.createdAt && e.id == d.id && e.reason == d.reason
      && e.key == d.key && e.templateId == d.templateId
  {
  }

  /** What a record makes of the dispatches. */
  lemma {:induction false} RecordedDispatches(before: IdOrder, s: Store, op: Op)
    requires GoodIds(s) && NoDangling(s) && !op.ClaimOp?
    ensures var (id, token), t := Presented(op).value, Step(before, s, op);
      t.dispatches == if Mutable(s, id, token, Target(op)).Ok? then s.dispatches[id := RecordedAs(s.dispatches[id], op)]
                      else s.dispatches
  {
    hide GoodIds, Upsert, StartedRun, ExistingRun, Settled;
    var (id, token) := Presented(op).value;
    if Mutable(s, id, token, Target(op)).Ok? {
      match op
      case StartedOp(input, generated) => StartedDispatches(s, input, generated);
      case DuplicateOp(input, generated) => DuplicateDispatches(s, input, generated);
      case _ =>
    }
  }

  lemma {:induction false} RecordShows(before: IdOrder, s: Store, op: Op, id: string)
    requires GoodIds(s) && NoDangling(s) && !op.ClaimOp? && id in s.dispatches
    ensures id in Step(before, s, op).dispatches
    ensures var d, e := s.dispatches[id], Step(before, s, op).dispatches[id];
      if Records(s, op, id, d.token) then Shows(before, s, op, id, d, e) else e == d
  {
    hide GoodIds, HandsOut, NoDangling, Step, ReplyOf, RecordedAs, ShowsRecord;
    RepliesExactly(s, op);
    RecordedDispatches(before, s, op);
    RecordedAsShows(s.dispatches[id], op);
  }

  /** A record touches no other dispatch, and none if it is refused. */
  lemma {:induction false} RecordLeaves(before: IdOrder, s: Store, op: Op)
    requires GoodIds(s) && NoDangling(s) && !op.ClaimOp?
    ensures var id, t := Presented(op).value.0, Step(before, s, op);
      t.dispatches == if id in s.dispatches && id in t.dispatches then s.dispatches[id := t.dispatches[id]]
                      else s.dispatches
  {
    RecordedDispatches(before, s, op);
    hide GoodIds, NoDangling, Step;
  }

  /**
   * Over every run a dispatch shows the last claim or record that went through for it: the state, the
   * times, the failure and the token are those, and everything else is as it was before.
   */
  lemma {:induction false} LastChangeShows(before: IdOrder, s: Store, ops: seq<Op>, id: string) returns (j: nat)
    requires GoodIds(s) && NoDangling(s) && id in s.dispatches
    ensures id in After(before, s, ops).dispatches
    ensures j <= |ops|
    ensures j == |ops| ==> After(before, s, ops).dispatches[id] == s.dispatches[id]
    ensures j < |ops| ==>
      var t := After(before, s, ops[..j]);
      id in t.dispatches && Shows(before, t, ops[j], id, t.dispatches[id], After(before, s, ops).dispatches[id])
    decreases |ops|
  {
    hide *;
    if ops == [] {
      AfterNothing(before, s);
      j := 0;
    } else {
      var front, last := ops[..|ops| - 1], ops[|ops| - 1];
      var t := After(before, s, front);
      AfterUnfold(before, s, ops);
      j := LastChangeShows(before, s, front, id);
      if last.ClaimOp? {
        ClaimShows(before, t, last, id);
      } else {
        RecordShows(before, t, last, id);
      }
      if After(before, s, ops).dispatches[id] != t.dispatches[id] {
        j := |ops| - 1;
      } else if j < |front| {
        assert front[..j] == ops[..j];
      } else {
        j := |ops|;
      }
    }
  }

  // ----- what recording a duplicate shows of the run -----

  /** The run of a recorded duplicate says what was observed, under the id it had or the one generated for it. */
  lemma {:induction false} DuplicateShows(s: Store, input: DuplicateInput, generated: string)
    requires RunsConsistent(s) && generated != "" && generated !in s.runsById
    requires AfterDuplicate(s, input, generated).1.Ok?
    ensures input.id in s.dispatches
    ensures var t, w, d := AfterDuplicate(s, input, generated).0, input.workflowId, s.dispatches[input.id];
      && ExistingRun(t, w).Some?
      && var r := ExistingRun(t, w).value;
      && r.state == (if input.runState.Some? then input.runState.value else Running)
      && r.createdAt == input.at && r.updatedAt == input.at && r.startedAt == Some(input.at)
      && r.currentPhase == Present(input.currentPhase) && r.dispatchId == Present(Some(d.id))
      && r.assetVersionId == d.assetVersionId && r.templateId == d.templateId && r.workflowId == w
      && r.runId == (if ExistingRun(s, w).Some? then ExistingRun(s, w).value.runId else generated)
  {
  }

  /** The run of a recorded start: queued for this dispatch if it is new, and what it was already if it is not. */
  lemma {:induction false} StartShows(s: Store, input: StartedInput, generated: string)
    requires RunsConsistent(s) && generated != "" && generated !in s.runsById
    requires AfterStarted(s, input, generated).1.Ok?
    ensures input.id in s.dispatches
    ensures var t, w, d := AfterStarted(s, input, generated).0, input.workflowId, s.dispatches[input.id];
      && ExistingRun(t, w).Some?
      && var r := ExistingRun(t, w).value;
      && r.updatedAt == input.at && r.assetVersionId == d.assetVersionId && r.templateId == d.templateId
      && r.workflowId == w
      && match ExistingRun(s, w)
         case None =>
           && r.runId == generated && r.state == Queued && r.createdAt == input.at && r.startedAt == Some(input.at)
           && r.currentPhase == Present(input.currentPhase) && r.dispatchId == Present(Some(d.id))
         case Some(was) =>
           && r.runId == was.runId && r.state == was.state && r.createdAt == was.createdAt
           && r.startedAt == (if was.startedAt.Some? then was.startedAt else Some(input.at))
           && r.dispatchId == Present(if was.dispatchId.Some? then was.dispatchId else Some(d.id))
           && r.currentPhase == (if was.state != Queued && Present(was.currentPhase).Some? then was.currentPhase
                                 else Present(input.currentPhase))
  {
  }
}
