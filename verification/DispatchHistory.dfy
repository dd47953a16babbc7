/** What every run of claims and recorded outcomes keeps, on the in-memory outbox. */
module DispatchHistory {
  import opened Prelude
  import opened Sorting
  import opened DispatchStore

  datatype Op =
    | ClaimOp(limit: int, at: Time)
    | StartedOp(started: StartedInput, generated: string)
    | DuplicateOp(observed: DuplicateInput, generated: string)
    | RetryableOp(failed: FailedInput)
    | TerminalOp(failed: FailedInput)

  function Step(before: IdOrder, s: Store, op: Op): (t: Store)
    requires GoodIds(s)
    ensures GoodIds(t) && (NoDangling(s) ==> NoDangling(t))
  {
    match op
    case ClaimOp(limit, at) =>
      ClaimKeepsIds(before, s, limit, at);
      Claim(before, s, limit, at).0
    case StartedOp(input, generated) => AfterStarted(s, input, generated).0
    case DuplicateOp(input, generated) => AfterDuplicate(s, input, generated).0
    case RetryableOp(input) => AfterFailed(s, input, FailedRetryable).0
    case TerminalOp(input) => AfterFailed(s, input, FailedTerminal).0
  }

  function ReplyOf(s: Store, op: Op): Reply {
    match op
    case ClaimOp(_, _) => Ok(())
    case StartedOp(input, generated) => AfterStarted(s, input, generated).1
    case DuplicateOp(input, generated) => AfterDuplicate(s, input, generated).1
    case RetryableOp(input) => AfterFailed(s, input, FailedRetryable).1
    case TerminalOp(input) => AfterFailed(s, input, FailedTerminal).1
  }

  function After(before: IdOrder, s: Store, ops: seq<Op>): (t: Store)
    requires GoodIds(s)
    ensures GoodIds(t) && (NoDangling(s) ==> NoDangling(t))
    decreases |ops|
  {
    if ops == [] then s else Step(before, After(before, s, ops[..|ops| - 1]), ops[|ops| - 1])
  }

  lemma {:induction false} AfterUnfold(before: IdOrder, s: Store, ops: seq<Op>)
    requires GoodIds(s) && ops != []
    ensures After(before, s, ops) == Step(before, After(before, s, ops[..|ops| - 1]), ops[|ops| - 1])
  {
  }

  lemma {:induction false} AfterNothing(before: IdOrder, s: Store)
    requires GoodIds(s)
    ensures After(before, s, []) == s
  {
  }

  // ----- one step, seen from one dispatch -----

  predicate Final(state: DispatchState) {
    state == Started || state == Duplicate || state == FailedTerminal
  }

  /** The id and token a recording operation presents. */
  function Presented(op: Op): Option<(string, int)> {
    match op
    case ClaimOp(_, _) => None
    case StartedOp(input, _) => Some((input.id, input.expected))
    case DuplicateOp(input, _) => Some((input.id, input.expected))
    case RetryableOp(input) => Some((input.id, input.expected))
    case TerminalOp(input) => Some((input.id, input.expected))
  }

  function Target(op: Op): DispatchState {
    match op
    case ClaimOp(_, _) => Starting
    case StartedOp(_, _) => Started
    case DuplicateOp(_, _) => Duplicate
    case RetryableOp(_) => FailedRetryable
    case TerminalOp(_) => FailedTerminal
  }

  /** The operation is a recording one, for this dispatch under this token, and it went through. */
  ghost predicate Records(s: Store, op: Op, id: string, token: int) {
    Presented(op) == Some((id, token)) && ReplyOf(s, op).Ok?
  }

  /** The operation is a claim whose answer contains this dispatch with this token. */
  ghost predicate HandsOut(before: IdOrder, s: Store, op: Op, id: string, token: int)
    requires GoodIds(s)
  {
    && op.ClaimOp?
    && var claimed := Claim(before, s, op.limit, op.at).1;
       exists k :: 0 <= k < |claimed| && claimed[k].id == id && claimed[k].token == token
  }

  lemma {:induction false} ClaimedIds(before: IdOrder, s: Store, op: Op, id: string)
    requires GoodIds(s) && op.ClaimOp? && id in s.dispatches
    ensures var batch, claimed := Take(Queue(before, s), op.limit), Claim(before, s, op.limit, op.at).1;
      && (id in IdsOf(batch) ==> Eligible(s.dispatches[id]) && HandsOut(before, s, op, id, s.dispatches[id].token + 1))
      && (forall k :: 0 <= k < |claimed| && claimed[k].id == id ==>
            id in IdsOf(batch) && claimed[k].token == s.dispatches[id].token + 1)
  {
    var batch, claimed := Take(Queue(before, s), op.limit), Claim(before, s, op.limit, op.at).1;
    SortedValues(before, s);
    ChosenMembers(Sort(Older(before), Values(s)));
    hide Sort, Values, Chosen, GoodIds, Older;
    forall k | 0 <= k < |batch|
      ensures batch[k].id in s.dispatches && s.dispatches[batch[k].id] == batch[k] && Eligible(batch[k])
      ensures claimed[k].id == batch[k].id && claimed[k].token == batch[k].token + 1
    {
      assert Queue(before, s)[k] in Queue(before, s);
    }
    if id in IdsOf(batch) {
      var k :| 0 <= k < |batch| && batch[k].id == id;
      assert claimed[k].id == id;
    }
  }

  /** A step leaves a dispatch alone, or hands it out, or records its outcome: then the token is one more. */
  lemma {:induction false} StepOnDispatch(before: IdOrder, s: Store, op: Op, id: string)
    requires GoodIds(s) && NoDangling(s) && id in s.dispatches
    ensures id in Step(before, s, op).dispatches
    ensures var d, e := s.dispatches[id], Step(before, s, op).dispatches[id];
      || e == d
      || (e.token == d.token + 1 && e.state == Starting && Eligible(d) && HandsOut(before, s, op, id, e.token))
      || (e.token == d.token + 1 && d.state == Starting && e.state == Target(op) != Starting
          && Records(s, op, id, d.token))
  {
    hide HandsOut, GoodIds;
    if op.ClaimOp? {
      ClaimedIds(before, s, op, id);
    }
  }

  /** A recorded outcome was for a dispatch being started, under its current token. */
  lemma {:induction false} RecordStep(before: IdOrder, s: Store, op: Op, id: string, token: int)
    requires GoodIds(s) && NoDangling(s) && Records(s, op, id, token)
    ensures id in s.dispatches && s.dispatches[id].token == token && s.dispatches[id].state == Starting
    ensures id in Step(before, s, op).dispatches
    ensures var e := Step(before, s, op).dispatches[id]; e.token == token + 1 && e.state == Target(op) && !op.ClaimOp?
  {
    hide GoodIds;
  }

  lemma {:induction false} ClaimStep(before: IdOrder, s: Store, op: Op, id: string, token: int)
    requires GoodIds(s) && HandsOut(before, s, op, id, token)
    ensures id in s.dispatches && s.dispatches[id].token == token - 1 && Eligible(s.dispatches[id])
    ensures id in Step(before, s, op).dispatches
    ensures var e := Step(before, s, op).dispatches[id]; e.token == token && e.state == Starting
  {
    var batch, claimed := Take(Queue(before, s), op.limit), Claim(before, s, op.limit, op.at).1;
    var k :| 0 <= k < |claimed| && claimed[k].id == id && claimed[k].token == token;
    assert claimed[k] == Claimed(op.at)(batch[k]);
    assert Queue(before, s)[k] in Queue(before, s);
    SortedValues(before, s);
    ChosenMembers(Sort(Older(before), Values(s)));
    hide Sort, Values, Chosen, GoodIds, Older, Queue;
    ClaimedIds(before, s, op, id);
  }

  // ----- over runs -----

  /** The dispatches stay, tokens never go back, and a token that stays means nothing about the dispatch changed. */
  lemma {:induction false} TokensGrow(before: IdOrder, s: Store, ops: seq<Op>, i: nat, id: string)
    requires GoodIds(s) && NoDangling(s) && i <= |ops|
    ensures id in After(before, s, ops[..i]).dispatches <==> id in After(before, s, ops).dispatches
    ensures id in After(before, s, ops).dispatches ==>
      var d, e := After(before, s, ops[..i]).dispatches[id], After(before, s, ops).dispatches[id];
      d.token <= e.token && (d.token == e.token ==> d == e) && (Final(d.state) ==> d == e)
    decreases |ops|
  {
    if i == |ops| {
      assert ops[..i] == ops;
    } else {
      var front := ops[..|ops| - 1];
      assert front[..i] == ops[..i];
      TokensGrow(before, s, front, i, id);
      hide GoodIds, NoDangling, Step, HandsOut, Records, Target;
      SameIds(before, After(before, s, front), ops[|ops| - 1], id);
      if id in After(before, s, front).dispatches {
        StepOnDispatch(before, After(before, s, front), ops[|ops| - 1], id);
      }
    }
  }

  lemma {:induction false} SameIds(before: IdOrder, s: Store, op: Op, id: string)
    requires GoodIds(s)
    ensures id in s.dispatches <==> id in Step(before, s, op).dispatches
  {
    hide GoodIds;
  }

  /** `started`, `duplicate` and `failed_terminal` are absorbing: such a dispatch never changes again. */
  lemma {:induction false} FinalIsAbsorbing(before: IdOrder, s: Store, ops: seq<Op>, i: nat, id: string)
    requires GoodIds(s) && NoDangling(s) && i <= |ops| && id in After(before, s, ops[..i]).dispatches
    requires Final(After(before, s, ops[..i]).dispatches[id].state)
    ensures id in After(before, s, ops).dispatches
    ensures After(before, s, ops).dispatches[id] == After(before, s, ops[..i]).dispatches[id]
  {
    TokensGrow(before, s, ops, i, id);
  }

  /** At most one recording call per presented token goes through. */
  lemma {:induction false} OneRecordPerToken(
      before: IdOrder, s: Store, ops: seq<Op>, i: nat, j: nat, id: string, token: int)
    requires GoodIds(s) && NoDangling(s) && i < j < |ops|
    requires Records(After(before, s, ops[..i]), ops[i], id, token)
    ensures !Records(After(before, s, ops[..j]), ops[j], id, token)
  {
    hide GoodIds, Step;
    RecordStep(before, After(before, s, ops[..i]), ops[i], id, token);
    assert ops[..i + 1][..i] == ops[..i];
    assert ops[..j][..i + 1] == ops[..i + 1];
    TokensGrow(before, s, ops[..j], i + 1, id);
    if Records(After(before, s, ops[..j]), ops[j], id, token) {
      RecordStep(before, After(before, s, ops[..j]), ops[j], id, token);
      assert false;
    }
  }

  /** No two claims hand out a dispatch with the same token. */
  lemma {:induction false} OneClaimPerToken(
      before: IdOrder, s: Store, ops: seq<Op>, i: nat, j: nat, id: string, token: int)
    requires GoodIds(s) && NoDangling(s) && i < j < |ops|
    requires HandsOut(before, After(before, s, ops[..i]), ops[i], id, token)
    ensures !HandsOut(before, After(before, s, ops[..j]), ops[j], id, token)
  {
    hide GoodIds, Step, HandsOut;
    ClaimStep(before, After(before, s, ops[..i]), ops[i], id, token);
    assert ops[..i + 1][..i] == ops[..i];
    assert ops[..j][..i + 1] == ops[..i + 1];
    TokensGrow(before, s, ops[..j], i + 1, id);
    if HandsOut(before, After(before, s, ops[..j]), ops[j], id, token) {
      ClaimStep(before, After(before, s, ops[..j]), ops[j], id, token);
      assert false;
    }
  }

  /** A dispatch being started got its token from a claim of the run, unless it was so from the start. */
  lemma {:induction false} StartingWasClaimed(before: IdOrder, s: Store, ops: seq<Op>, id: string) returns (i: nat)
    requires GoodIds(s) && NoDangling(s) && id in After(before, s, ops).dispatches
    requires After(before, s, ops).dispatches[id].state == Starting
    ensures i <= |ops|
    ensures i < |ops| ==>
      HandsOut(before, After(before, s, ops[..i]), ops[i], id, After(before, s, ops).dispatches[id].token)
    ensures i == |ops| ==> id in s.dispatches && s.dispatches[id] == After(before, s, ops).dispatches[id]
    decreases |ops|
  {
    hide *;
    if ops == [] {
      AfterNothing(before, s);
      i := 0;
    } else {
      var front, last := ops[..|ops| - 1], ops[|ops| - 1];
      var t := After(before, s, front);
      AfterUnfold(before, s, ops);
      SameIds(before, t, last, id);
      StepOnDispatch(before, t, last, id);
      if t.dispatches[id] == After(before, s, ops).dispatches[id] {
        i := StartingWasClaimed(before, s, front, id);
        if i < |front| {
          assert front[..i] == ops[..i];
        } else {
          i := |ops|;
        }
      } else {
        i := |ops| - 1;
      }
    }
  }

  /** So an outcome is only recorded under a token that a claim handed out, or that was seeded as being started. */
  lemma {:induction false} RecordsFollowClaims(before: IdOrder, s: Store, ops: seq<Op>, j: nat, id: string, token: int)
    returns (i: nat)
    requires GoodIds(s) && NoDangling(s) && j < |ops| && Records(After(before, s, ops[..j]), ops[j], id, token)
    ensures i <= j
    ensures i < j ==> HandsOut(before, After(before, s, ops[..i]), ops[i], id, token)
    ensures i == j ==> id in s.dispatches && s.dispatches[id].state == Starting && s.dispatches[id].token == token
  {
    hide GoodIds, Step, HandsOut;
    RecordStep(before, After(before, s, ops[..j]), ops[j], id, token);
    i := StartingWasClaimed(before, s, ops[..j], id);
    if i < j {
      assert ops[..j][..i] == ops[..i];
    }
  }

  // ----- the two workflow-run maps -----

  /** The maps are inverse to each other: each run under its id, and each workflow id at its one run. */
  ghost predicate RunsConsistent(s: Store) {
    && (forall w :: w in s.runsByWorkflowId ==>
          var r := s.runsByWorkflowId[w];
          r != "" && r in s.runsById && s.runsById[r].workflowId == w)
    && (forall r :: r in s.runsById ==>
          var w := s.runsById[r].workflowId;
          s.runsById[r].runId == r && w in s.runsByWorkflowId && s.runsByWorkflowId[w] == r)
  }

  /** The id generator does not repeat itself and never answers the empty string. */
  ghost predicate Generates(s: Store, op: Op) {
    op.StartedOp? || op.DuplicateOp? ==> op.generated != "" && op.generated !in s.runsById
  }

  lemma {:induction false} UpsertConsistent(s: Store, run: Run, generated: string)
    requires RunsConsistent(s) && generated != "" && generated !in s.runsById
    ensures RunsConsistent(Upsert(s, run, generated).0)
  {
    var t := Upsert(s, run, generated).0;
    hide Upsert;
    UpsertUnfold(s, run, generated);
  }

  lemma {:induction false} UpsertUnfold(s: Store, run: Run, generated: string)
    requires RunsConsistent(s)
    ensures var t, w := Upsert(s, run, generated).0, run.workflowId;
      if w in s.runsByWorkflowId then
        var r := s.runsByWorkflowId[w];
        t.runsByWorkflowId == s.runsByWorkflowId && r in t.runsById && t.runsById == s.runsById[r := t.runsById[r]]
        && t.runsById[r].workflowId == w && t.runsById[r].runId == s.runsById[r].runId
      else
        generated in t.runsById && t.runsById[generated].workflowId == w && t.runsById[generated].runId == generated
        && t.runsByWorkflowId == s.runsByWorkflowId[w := generated]
        && t.runsById == s.runsById[generated := t.runsById[generated]]
  {
  }

  lemma {:induction false} StepConsistent(before: IdOrder, s: Store, op: Op)
    requires GoodIds(s) && RunsConsistent(s) && Generates(s, op)
    ensures RunsConsistent(Step(before, s, op))
  {
    hide GoodIds, RunsConsistent, Upsert, Claim, StartedRun;
    match op
    case ClaimOp(limit, at) =>
      ClaimKeepsRuns(before, s, limit, at);
      OnlyRuns(s, Step(before, s, op));
    case StartedOp(input, generated) =>
      if Mutable(s, input.id, input.expected, Started).Ok? {
        var d := Mutable(s, input.id, input.expected, Started).value;
        var t := s.(dispatches := s.dispatches[input.id := Settled(d, Started, input.at)]);
        OnlyRuns(s, t);
        UpsertConsistent(t, StartedRun(ExistingRun(t, input.workflowId), d, input), generated);
      }
    case DuplicateOp(input, generated) =>
      if Mutable(s, input.id, input.expected, Duplicate).Ok? {
        var d := Mutable(s, input.id, input.expected, Duplicate).value;
        var t := s.(dispatches := s.dispatches[input.id := Settled(d, Duplicate, input.at)]);
        OnlyRuns(s, t);
        UpsertConsistent(t,
                         Run(d.assetVersionId, input.at, input.currentPhase, Some(input.at),
                             input.runState.GetOr(Running),
                                input.at, Some(d.id), input.workflowId, "", d.templateId), generated);
      }
    case RetryableOp(input) => OnlyRuns(s, Step(before, s, op));
    case TerminalOp(input) => OnlyRuns(s, Step(before, s, op));
  }

  lemma {:induction false} ClaimKeepsRuns(before: IdOrder, s: Store, limit: int, at: Time)
    requires GoodIds(s)
    ensures var t := Claim(before, s, limit, at).0; t.runsById == s.runsById && t.runsByWorkflowId == s.runsByWorkflowId
  {
    hide Queue;
  }

  lemma {:induction false} OnlyRuns(s: Store, t: Store)
    requires RunsConsistent(s) && s.runsById == t.runsById && s.runsByWorkflowId == t.runsByWorkflowId
    ensures RunsConsistent(t)
  {
  }

  /** Over every run with generated ids that do not repeat, the two run maps stay inverse to each other. */
  lemma {:induction false} RunMapsStayConsistent(before: IdOrder, s: Store, ops: seq<Op>)
    requires GoodIds(s) && RunsConsistent(s)
    requires forall i :: 0 <= i < |ops| ==> Generates(After(before, s, ops[..i]), ops[i])
    ensures RunsConsistent(After(before, s, ops))
    decreases |ops|
  {
    if ops != [] {
      hide GoodIds, RunsConsistent, Generates, Step;
      var front := ops[..|ops| - 1];
      forall i | 0 <= i < |front|
        ensures Generates(After(before, s, front[..i]), front[i])
      {
        assert front[..i] == ops[..i] && front[i] == ops[i];
      }
      RunMapsStayConsistent(before, s, front);
      assert ops[..|ops| - 1] == front;
      StepConsistent(before, After(before, s, front), ops[|ops| - 1]);
    }
  }

  /** Whatever ids the generator answers, no call is ever told that a run is missing. */
  lemma {:induction false} NoRunIsMissing(before: IdOrder, seeds: seq<Seed>, ops: seq<Op>, op: Op)
    ensures var s := After(before, PlantAll(seeds), ops);
      ReplyOf(s, op).Err? ==> !ReplyOf(s, op).error.RunMissing?
  {
    hide GoodIds, PlantAll;
    var s := After(before, PlantAll(seeds), ops);
    hide After;
  }

  /** Recording a start keeps what an existing run says of itself once it has left the queue. */
  lemma {:induction false} StartKeepsProgress(s: Store, input: StartedInput, generated: string)
    requires GoodIds(s) && RunsConsistent(s) && generated != "" && generated !in s.runsById
    requires AfterStarted(s, input, generated).1.Ok?
    ensures var t, w := AfterStarted(s, input, generated).0, input.workflowId;
      && ExistingRun(t, w).Some? && ExistingRun(t, w).value.workflowId == w
      && (ExistingRun(s, w).None? ==>
            var r := ExistingRun(t, w).value;
            r.runId == generated && r.state == Queued && r.startedAt == Some(input.at)
              && r.dispatchId == Present(Some(input.id)))
      && (ExistingRun(s, w).Some? ==>
            var e, r := ExistingRun(s, w).value, ExistingRun(t, w).value;
            && r.runId == e.runId && r.createdAt == e.createdAt && r.state == e.state
            && (e.startedAt.Some? ==> r.startedAt == e.startedAt)
            && (e.dispatchId.Some? ==> r.dispatchId == Present(e.dispatchId))
            && (e.state != Queued && Present(e.currentPhase).Some? ==> r.currentPhase == e.currentPhase))
  {
  }
}
