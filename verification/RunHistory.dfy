/** What becomes of one workflow's run over every run of claims and recorded outcomes. */
module RunHistory {
  import opened Prelude
  import opened DispatchStore
  import opened DispatchHistory

  /** What recording starts never takes back of a run. */
  ghost predicate Progressed(e: Run, r: Run) {
    && r.createdAt == e.createdAt && r.state == e.state
    && (e.startedAt.Some? ==> r.startedAt == e.startedAt)
    && (Present(e.dispatchId).Some? ==> r.dispatchId == e.dispatchId)
    && (e.state != Queued && Present(e.currentPhase).Some? ==> r.currentPhase == e.currentPhase)
  }

  /** The run of workflow `w` is still there under its id, with its progress if `quiet`. */
  ghost predicate KeepsRun(s: Store, t: Store, w: string, quiet: bool) {
    ExistingRun(s, w).Some? ==>
      && ExistingRun(t, w).Some?
      && ExistingRun(t, w).value.runId == ExistingRun(s, w).value.runId
      && ExistingRun(t, w).value.workflowId == ExistingRun(s, w).value.workflowId == w
      && (quiet ==> Progressed(ExistingRun(s, w).value, ExistingRun(t, w).value))
  }

  /** Recording `w` as a duplicate overwrites what its run says. */
  predicate Overwrites(op: Op, w: string) {
    op.DuplicateOp? && op.observed.workflowId == w
  }

  ghost predicate Quiet(ops: seq<Op>, from: nat, w: string) {
    forall j :: from <= j < |ops| ==> !Overwrites(ops[j], w)
  }

  lemma {:induction false} SameRuns(s: Store, t: Store, w: string, quiet: bool)
    requires RunsConsistent(s) && t.runsById == s.runsById && t.runsByWorkflowId == s.runsByWorkflowId
    ensures KeepsRun(s, t, w, quiet)
  {
  }

  /** Storing a run leaves the runs of other workflows alone, and its own run under its id. */
  lemma {:induction false} UpsertKeeps(s: Store, run: Run, generated: string, w: string, quiet: bool)
    requires RunsConsistent(s) && generated != "" && generated !in s.runsById && (quiet ==> run.workflowId != w)
    ensures KeepsRun(s, Upsert(s, run, generated).0, w, quiet)
  {
    hide Upsert;
    UpsertUnfold(s, run, generated);
  }

  lemma {:induction false} DuplicateKeeps(s: Store, input: DuplicateInput, generated: string, w: string)
    requires RunsConsistent(s) && generated != "" && generated !in s.runsById
    ensures KeepsRun(s, AfterDuplicate(s, input, generated).0, w, input.workflowId != w)
  {
    hide RunsConsistent, Upsert, KeepsRun;
    match Mutable(s, input.id, input.expected, Duplicate)
    case Err(_) => SameRuns(s, s, w, input.workflowId != w);
    case Ok(d) =>
      var t := s.(dispatches := s.dispatches[input.id := Settled(d, Duplicate, input.at)]);
      OnlyRuns(s, t);
      var run :=
        Run(d.assetVersionId, input.at, input.currentPhase, Some(input.at), input.runState.GetOr(Running), input.at,
            Some(d.id), input.workflowId, "", d.templateId);
      UpsertKeeps(t, run, generated, w, input.workflowId != w);
      SameExisting(s, t, w);
      Moved(s, t, Upsert(t, run, generated).0, w, input.workflowId != w);
  }

  lemma {:induction false} SameExisting(s: Store, t: Store, w: string)
    requires t.runsById == s.runsById && t.runsByWorkflowId == s.runsByWorkflowId
    ensures ExistingRun(t, w) == ExistingRun(s, w)
  {
  }

  lemma {:induction false} Moved(s: Store, t: Store, u: Store, w: string, quiet: bool)
    requires ExistingRun(t, w) == ExistingRun(s, w) && KeepsRun(t, u, w, quiet)
    ensures KeepsRun(s, u, w, quiet)
  {
    hide ExistingRun, Progressed;
  }

  lemma {:induction false} StartKeeps(s: Store, input: StartedInput, generated: string, w: string)
    requires GoodIds(s) && RunsConsistent(s) && generated != "" && generated !in s.runsById
    ensures KeepsRun(s, AfterStarted(s, input, generated).0, w, true)
  {
    hide GoodIds, RunsConsistent, Upsert, KeepsRun, StartedRun;
    match Mutable(s, input.id, input.expected, Started)
    case Err(_) => SameRuns(s, s, w, true);
    case Ok(d) =>
      var t := s.(dispatches := s.dispatches[input.id := Settled(d, Started, input.at)]);
      OnlyRuns(s, t);
      SameExisting(s, t, w);
      if input.workflowId == w {
        OwnStartKeeps(s, input, generated);
      } else {
        StartedRunIsFor(ExistingRun(t, input.workflowId), d, input);
        UpsertKeeps(t, StartedRun(ExistingRun(t, input.workflowId), d, input), generated, w, true);
        Moved(s, t, AfterStarted(s, input, generated).0, w, true);
      }
  }

  lemma {:induction false} StartedRunIsFor(existing: Option<Run>, d: Dispatch, input: StartedInput)
    ensures StartedRun(existing, d, input).workflowId == input.workflowId
  {
  }

  lemma {:induction false} OwnStartKeeps(s: Store, input: StartedInput, generated: string)
    requires GoodIds(s) && RunsConsistent(s) && generated != "" && generated !in s.runsById
    requires Mutable(s, input.id, input.expected, Started).Ok?
    ensures KeepsRun(s, AfterStarted(s, input, generated).0, input.workflowId, true)
  {
    StartSucceeds(s, input, generated);
    if ExistingRun(s, input.workflowId).Some? {
      ExistingIsFor(s, input.workflowId);
    }
    hide AfterStarted, GoodIds, RunsConsistent;
    StartKeepsProgress(s, input, generated);
  }

  lemma {:induction false} StartSucceeds(s: Store, input: StartedInput, generated: string)
    requires RunsConsistent(s) && Mutable(s, input.id, input.expected, Started).Ok?
    ensures AfterStarted(s, input, generated).1.Ok?
  {
  }

  lemma {:induction false} ExistingIsFor(s: Store, w: string)
    requires RunsConsistent(s) && ExistingRun(s, w).Some?
    ensures ExistingRun(s, w).value.workflowId == w
  {
  }

  lemma {:induction false} StepKeepsRun(before: IdOrder, s: Store, op: Op, w: string)
    requires GoodIds(s) && RunsConsistent(s) && Generates(s, op)
    ensures KeepsRun(s, Step(before, s, op), w, !Overwrites(op, w))
  {
    hide GoodIds, RunsConsistent, KeepsRun, Claim, AfterStarted, AfterDuplicate;
    match op
    case ClaimOp(limit, at) =>
      ClaimKeepsRuns(before, s, limit, at);
      SameRuns(s, Step(before, s, op), w, true);
    case StartedOp(input, generated) => StartKeeps(s, input, generated, w);
    case DuplicateOp(input, generated) => DuplicateKeeps(s, input, generated, w);
    case RetryableOp(_) => SameRuns(s, Step(before, s, op), w, true);
    case TerminalOp(_) => SameRuns(s, Step(before, s, op), w, true);
  }

  lemma {:induction false} KeepsTransitive(s: Store, t: Store, u: Store, w: string, quiet: bool, last: bool)
    requires KeepsRun(s, t, w, quiet) && KeepsRun(t, u, w, last)
    ensures KeepsRun(s, u, w, quiet && last)
  {
    hide ExistingRun;
  }

  /**
   * Once a workflow has a run it keeps that run, under the one id it was given, over every run of
   * operations; and it keeps its creation time, state, start time, first dispatch and settled phase
   * for as long as nothing is recorded as a duplicate of it.
   */
  lemma {:induction false} RunsAreKept(before: IdOrder, s: Store, ops: seq<Op>, i: nat, w: string)
    requires GoodIds(s) && RunsConsistent(s) && i <= |ops|
    requires forall j :: 0 <= j < |ops| ==> Generates(After(before, s, ops[..j]), ops[j])
    ensures KeepsRun(After(before, s, ops[..i]), After(before, s, ops), w, Quiet(ops, i, w))
    decreases |ops|
  {
    hide GoodIds, RunsConsistent, Generates, Step, KeepsRun, Overwrites;
    if i == |ops| {
      assert ops[..i] == ops;
      RunMapsStayConsistent(before, s, ops);
      SameRuns(After(before, s, ops), After(before, s, ops), w, true);
    } else {
      var front, op := ops[..|ops| - 1], ops[|ops| - 1];
      forall j | 0 <= j < |front|
        ensures Generates(After(before, s, front[..j]), front[j])
      {
        assert front[..j] == ops[..j] && front[j] == ops[j];
      }
      RunsAreKept(before, s, front, i, w);
      RunMapsStayConsistent(before, s, front);
      assert front[..i] == ops[..i];
      StepKeepsRun(before, After(before, s, front), op, w);
      KeepsTransitive(After(before, s, front[..i]), After(before, s, front), After(before, s, ops), w,
                      Quiet(front, i, w),
                      !Overwrites(op, w));
      QuietSplit(ops, i, w);
    }
  }

  lemma {:induction false} QuietSplit(ops: seq<Op>, i: nat, w: string)
    requires i < |ops|
    ensures Quiet(ops, i, w) <==> Quiet(ops[..|ops| - 1], i, w) && !Overwrites(ops[|ops| - 1], w)
  {
    hide Overwrites;
  }
}
