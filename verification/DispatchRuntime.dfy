/** One worker's pass over the outbox: claim a batch, start each workflow, record each outcome. */
module DispatchRuntime {
  import opened Prelude
  import opened DispatchStore
  import Sorting
  import ClaimDrain
  import DispatchHistory
  import DispatchRuns
  import opened Protocol = DispatchProtocol

  /** What the workflow client does with a start request. */
  datatype Answer = StartedAs(workflowId: string) | AlreadyStartedAs(workflowId: string) | Threw(name: string)

  /** The clock, the client's answer and the run id generator at one turn of the loop. */
  datatype Turn = Turn(at: Time, answer: Answer, generated: string)

  const DEFAULT_BATCH_SIZE := 25

  /** The failure class of an error is its name. */
  function ErrorName(error: StoreError): string {
    match error
    case NotFound(_) => "WorkflowDispatchNotFoundError"
    case VersionConflict(_, _) => "WorkflowDispatchVersionConflictError"
    case StateTransition(_, _, _) => "WorkflowDispatchStateTransitionError"
    case RunMissing(_) => "Error"
  }

  function FailureClass(name: string): string {
    if name == "" then "workflow-start-failed" else name
  }

  /** An outcome that was recorded, or the error that ends the pass. */
  type Settlement = Result<DispatchState, StoreError>

  function Fail(s: Store, d: Dispatch, at: Time, failureClass: string, target: DispatchState): (Store, Settlement) {
    var (t, reply) := AfterFailed(s, FailedInput(d.id, d.token, at, failureClass, None), target);
    (t, if reply.Ok? then Ok(target) else Err(reply.error))
  }

  /** One turn of the loop, with the errors that its try block does and does not catch. */
  function Attempt(known: set<string>, s: Store, d: Dispatch, turn: Turn): (Store, Settlement) {
    if d.templateId !in known then Fail(s, d, turn.at, "unknown-workflow-template", FailedTerminal)
    else
      match turn.answer
      case StartedAs(workflowId) =>
        var (t, reply) :=
          AfterStarted(s, StartedInput(d.id, d.token, Some("accepted"), turn.at, workflowId), turn.generated);
        if reply.Ok? then (t, Ok(Started)) else Fail(t, d, turn.at, ErrorName(reply.error), FailedRetryable)
      case AlreadyStartedAs(workflowId) =>
        var (t, reply) := AfterDuplicate(
          s, DuplicateInput(d.id, d.token, Some("already-running"), turn.at, workflowId, Some(Running)),
          turn.generated);
        (t, if reply.Ok? then Ok(Duplicate) else Err(reply.error))
      case Threw(name) => Fail(s, d, turn.at, FailureClass(name), FailedRetryable)
  }

  function AttemptAll(
      known: set<string>, s: Store, claimed: seq<Dispatch>, turns: nat -> Turn): (Store, Result<Counts, StoreError>)
    decreases |claimed|
  {
    if claimed == [] then (s, Ok(Counts(0, 0, 0, 0, 0)))
    else
      var n := |claimed| - 1;
      var (t, counts) := AttemptAll(known, s, claimed[..n], turns);
      if counts.Err? then (t, counts)
      else
        var (u, settled) := Attempt(known, t, claimed[n], turns(n));
        (u, if settled.Ok? then Ok(Count(counts.value.(claimed := counts.value.claimed + 1), settled.value))
         else Err(settled.error))
  }

  class WorkflowDispatchRuntime {
    const store: InMemoryWorkflowDispatchStore
    const templates: set<string>
    const batchSize: int

    constructor (store: InMemoryWorkflowDispatchStore, templates: set<string>, batchSize: Option<int>)
      ensures this.store == store && this.templates == templates
      ensures this.batchSize == if batchSize.Some? then batchSize.value else 25
    {
      this.store := store;
      this.templates := templates;
      this.batchSize := batchSize.GetOr(DEFAULT_BATCH_SIZE);
    }

    method RecordFailure(dispatch: Dispatch, at: Time, failureClass: string, target: DispatchState)
      returns (settled: Settlement)
      requires store.Valid()
      modifies store
      ensures store.Valid()
      ensures (store.Contents(), settled) == Fail(old(store.Contents()), dispatch, at, failureClass, target)
    {
      var reply := store.RecordFailure(FailedInput(dispatch.id, dispatch.token, at, failureClass, None), target);
      if reply.Err? {
        return Err(reply.error);
      }
      return Ok(target);
    }

    method DispatchOne(dispatch: Dispatch, turn: Turn) returns (settled: Settlement)
      requires store.Valid()
      modifies store
      ensures store.Valid() && (store.Contents(), settled) == Attempt(templates, old(store.Contents()), dispatch, turn)
    {
      hide AfterStarted, AfterDuplicate, Fail;
      if dispatch.templateId !in templates {
        settled := RecordFailure(dispatch, turn.at, "unknown-workflow-template", FailedTerminal);
        return;
      }
      match turn.answer
      case StartedAs(workflowId) =>
        var reply := store.RecordStarted(
          StartedInput(dispatch.id, dispatch.token, Some("accepted"), turn.at, workflowId), turn.generated);
        if reply.Ok? {
          return Ok(Started);
        }
        settled := RecordFailure(dispatch, turn.at, ErrorName(reply.error), FailedRetryable);
      case AlreadyStartedAs(workflowId) =>
        var reply := store.RecordDuplicate(
          DuplicateInput(dispatch.id, dispatch.token, Some("already-running"), turn.at, workflowId, Some(Running)),
          turn.generated);
        if reply.Ok? {
          return Ok(Duplicate);
        }
        return Err(reply.error);
      case Threw(name) =>
        settled := RecordFailure(dispatch, turn.at, FailureClass(name), FailedRetryable);
    }

    /** The loop of the pass; an error it does not catch ends it there. */
    method DispatchPending(limit: Option<int>, claimedAt: Time, turns: nat -> Turn)
      returns (result: Result<Counts, StoreError>)
      requires store.Valid()
      modifies store
      ensures store.Valid()
      ensures var (s, claimed) := Claim(store.before, old(store.Contents()), limit.GetOr(batchSize), claimedAt);
        (store.Contents(), result) == AttemptAll(templates, s, claimed, turns)
    {
      hide Claim, Attempt;
      var claimed := store.ClaimPendingDispatches(claimedAt, limit.GetOr(batchSize));
      ghost var start := store.Contents();
      var counts := Counts(0, 0, 0, 0, 0);
      for i := 0 to |claimed|
        invariant store.Valid()
        invariant (store.Contents(), Ok(counts)) == AttemptAll(templates, start, claimed[..i], turns)
      {
        assert claimed[..i + 1][..i] == claimed[..i];
        var settled := DispatchOne(claimed[i], turns(i));
        if settled.Err? {
          FirstErrorStays(templates, start, claimed, turns, i + 1);
          return Err(settled.error);
        }
        counts := Count(counts.(claimed := counts.claimed + 1), settled.value);
      }
      assert claimed[..|claimed|] == claimed;
      return Ok(counts);
    }
  }

  lemma {:induction false} FirstErrorStays(
      known: set<string>, s: Store, claimed: seq<Dispatch>, turns: nat -> Turn, i: nat)
    requires i <= |claimed| && AttemptAll(known, s, claimed[..i], turns).1.Err?
    ensures AttemptAll(known, s, claimed, turns) == AttemptAll(known, s, claimed[..i], turns)
    decreases |claimed|
  {
    hide Attempt;
    if i == |claimed| {
      assert claimed[..i] == claimed;
    } else {
      var front := claimed[..|claimed| - 1];
      assert front[..i] == claimed[..i];
      FirstErrorStays(known, s, front, turns, i);
    }
  }

  // ----- a pass that nothing interferes with -----

  function Outcome(known: set<string>, d: Dispatch, turn: Turn): DispatchState {
    if d.templateId !in known then FailedTerminal
    else
      match turn.answer
      case StartedAs(_) => Started
      case AlreadyStartedAs(_) => Duplicate
      case Threw(_) => FailedRetryable
  }

  function Tally(known: set<string>, claimed: seq<Dispatch>, turns: nat -> Turn): (c: Counts)
    ensures c.claimed == |claimed| && c.started + c.duplicate + c.retryable + c.terminal == c.claimed
    decreases |claimed|
  {
    if claimed == [] then Counts(0, 0, 0, 0, 0)
    else
      var n := |claimed| - 1;
      var c := Tally(known, claimed[..n], turns);
      Count(c.(claimed := c.claimed + 1), Outcome(known, claimed[n], turns(n)))
  }

  /** From `s` to `t`, only this dispatch changed: it took its outcome and a new token. */
  ghost predicate SettledIn(s: Store, t: Store, d: Dispatch, target: DispatchState) {
    && GoodIds(t) && NoDangling(t) && t.dispatches.Keys == s.dispatches.Keys
    && (forall id :: id in s.dispatches && id != d.id ==> t.dispatches[id] == s.dispatches[id])
    && SettledAs(t, d, target)
  }

  ghost predicate SettledAs(t: Store, d: Dispatch, target: DispatchState) {
    d.id in t.dispatches && t.dispatches[d.id].state == target && t.dispatches[d.id].token == d.token + 1
  }

  ghost predicate Startable(s: Store, d: Dispatch) {
    d.id in s.dispatches && s.dispatches[d.id].token == d.token && s.dispatches[d.id].state == Starting
  }

  lemma {:induction false} PutSettles(s: Store, d: Dispatch, e: Dispatch, target: DispatchState)
    requires GoodIds(s) && NoDangling(s) && Startable(s, d)
    requires e.id == d.id && e.state == target && e.token == d.token + 1
    ensures SettledIn(s, s.(dispatches := s.dispatches[d.id := e]), d, target)
  {
  }

  lemma {:induction false} UpsertSettles(
      s: Store, t: Store, d: Dispatch, target: DispatchState, run: Run, generated: string)
    requires SettledIn(s, t, d, target)
    ensures Upsert(t, run, generated).1.Ok? && SettledIn(s, Upsert(t, run, generated).0, d, target)
  {
    var u := Upsert(t, run, generated).0;
    assert GoodIds(u) by {
      assert GoodIds(t);
    }
  }

  lemma {:induction false} StartedSettles(s: Store, d: Dispatch, input: StartedInput, generated: string)
    requires GoodIds(s) && NoDangling(s) && Startable(s, d) && input.id == d.id && input.expected == d.token
    ensures AfterStarted(s, input, generated).1.Ok? && SettledIn(s, AfterStarted(s, input, generated).0, d, Started)
  {
    var e := s.dispatches[d.id];
    assert e.id == d.id;
    var t := s.(dispatches := s.dispatches[input.id := Settled(e, Started, input.at)]);
    PutSettles(s, d, Settled(e, Started, input.at), Started);
    hide SettledIn, Upsert, StartedRun, GoodIds, NoDangling;
    UpsertSettles(s, t, d, Started, StartedRun(ExistingRun(t, input.workflowId), e, input), generated);
  }

  lemma {:induction false} DuplicateSettles(s: Store, d: Dispatch, input: DuplicateInput, generated: string)
    requires GoodIds(s) && NoDangling(s) && Startable(s, d) && input.id == d.id && input.expected == d.token
    ensures AfterDuplicate(s, input, generated).1.Ok?
    ensures SettledIn(s, AfterDuplicate(s, input, generated).0, d, Duplicate)
  {
    var e := s.dispatches[d.id];
    assert e.id == d.id;
    var t := s.(dispatches := s.dispatches[input.id := Settled(e, Duplicate, input.at)]);
    PutSettles(s, d, Settled(e, Duplicate, input.at), Duplicate);
    hide SettledIn, Upsert, GoodIds, NoDangling;
    UpsertSettles(s, t, d, Duplicate,
                  Run(e.assetVersionId, input.at, input.currentPhase, Some(input.at), input.runState.GetOr(Running),
                      input.at,
                      Some(e.id), input.workflowId, "", e.templateId), generated);
  }

  lemma {:induction false} FailedSettles(s: Store, d: Dispatch, at: Time, failureClass: string, target: DispatchState)
    requires GoodIds(s) && NoDangling(s) && Startable(s, d)
    ensures Fail(s, d, at, failureClass, target).1 == Ok(target)
    ensures SettledIn(s, Fail(s, d, at, failureClass, target).0, d, target)
  {
    var e := s.dispatches[d.id];
    assert e.id == d.id;
    PutSettles(s, d, Settled(e, target, at).(lastFailureClass := Some(failureClass), retrySummary := None), target);
    hide SettledIn, GoodIds, NoDangling;
  }

  lemma {:induction false} AttemptSettles(known: set<string>, s: Store, d: Dispatch, turn: Turn)
    requires GoodIds(s) && NoDangling(s) && Startable(s, d)
    ensures Attempt(known, s, d, turn).1 == Ok(Outcome(known, d, turn))
    ensures SettledIn(s, Attempt(known, s, d, turn).0, d, Outcome(known, d, turn))
  {
    hide SettledIn, AfterStarted, AfterDuplicate, Fail, GoodIds, NoDangling, Startable;
    if d.templateId !in known {
      FailedSettles(s, d, turn.at, "unknown-workflow-template", FailedTerminal);
    } else {
      match turn.answer
      case StartedAs(workflowId) =>
        StartedSettles(s, d, StartedInput(d.id, d.token, Some("accepted"), turn.at, workflowId), turn.generated);
      case AlreadyStartedAs(workflowId) =>
        DuplicateSettles(
          s, d, DuplicateInput(d.id, d.token, Some("already-running"), turn.at, workflowId, Some(Running)),
          turn.generated);
      case Threw(name) =>
        FailedSettles(s, d, turn.at, FailureClass(name), FailedRetryable);
    }
  }

  /** From `s` to `t`, the batch settled as templates and answers say, and nothing else changed. */
  ghost predicate BatchSettled(known: set<string>, s: Store, t: Store, claimed: seq<Dispatch>, turns: nat -> Turn) {
    && GoodIds(t) && NoDangling(t) && t.dispatches.Keys == s.dispatches.Keys
    && (forall k :: 0 <= k < |claimed| ==> SettledAs(t, claimed[k], Outcome(known, claimed[k], turns(k))))
    && (forall id :: id in s.dispatches && (forall k :: 0 <= k < |claimed| ==> claimed[k].id != id) ==>
          t.dispatches[id] == s.dispatches[id])
  }

  /**
   * With nobody else at the store, every claimed dispatch settles as its template and the
   * client's answer say, no error ends the pass, the counts tell the outcomes, and the other
   * dispatches are left alone.
   */
  lemma {:induction false} PassSettlesTheBatch(known: set<string>, s: Store, claimed: seq<Dispatch>, turns: nat -> Turn)
    requires GoodIds(s) && NoDangling(s)
    requires forall i, j :: 0 <= i < j < |claimed| ==> claimed[i].id != claimed[j].id
    requires forall i :: 0 <= i < |claimed| ==> Startable(s, claimed[i])
    ensures var (t, counts) := AttemptAll(known, s, claimed, turns);
      counts == Ok(Tally(known, claimed, turns)) && BatchSettled(known, s, t, claimed, turns)
    decreases |claimed|
  {
    hide *;
    if claimed == [] {
      EmptyPass(known, s, turns);
    } else {
      var n := |claimed| - 1;
      PassSettlesTheBatch(known, s, claimed[..n], turns);
      var t := AttemptAll(known, s, claimed[..n], turns).0;
      StillStartable(known, s, t, claimed, turns);
      AttemptSettles(known, t, claimed[n], turns(n));
      AttemptAllUnfold(known, s, claimed, turns);
      MoreSettled(known, s, t, Attempt(known, t, claimed[n], turns(n)).0, claimed, turns);
    }
  }

  lemma {:induction false} EmptyPass(known: set<string>, s: Store, turns: nat -> Turn)
    requires GoodIds(s) && NoDangling(s)
    ensures AttemptAll(known, s, [], turns) == (s, Ok(Tally(known, [], turns))) && BatchSettled(known, s, s, [], turns)
  {
  }

  lemma {:induction false} AttemptAllUnfold(known: set<string>, s: Store, claimed: seq<Dispatch>, turns: nat -> Turn)
    requires claimed != []
    requires var n := |claimed| - 1;
      var (t, counts) := AttemptAll(known, s, claimed[..n], turns);
      counts == Ok(Tally(known, claimed[..n], turns))
      && Attempt(known, t, claimed[n], turns(n)).1 == Ok(Outcome(known, claimed[n], turns(n)))
    ensures var n := |claimed| - 1;
      AttemptAll(known, s, claimed, turns)
      == (Attempt(known, AttemptAll(known, s, claimed[..n], turns).0, claimed[n], turns(n)).0,
          Ok(Tally(known, claimed, turns)))
  {
    hide Attempt, Outcome;
  }

  lemma {:induction false} StillStartable(
      known: set<string>, s: Store, t: Store, claimed: seq<Dispatch>, turns: nat -> Turn)
    requires claimed != [] && BatchSettled(known, s, t, claimed[..|claimed| - 1], turns)
    requires Startable(s, claimed[|claimed| - 1])
    requires forall i, j :: 0 <= i < j < |claimed| ==> claimed[i].id != claimed[j].id
    ensures GoodIds(t) && NoDangling(t) && Startable(t, claimed[|claimed| - 1])
  {
    hide GoodIds, NoDangling, SettledAs, Outcome;
  }

  lemma {:induction false} MoreSettled(
      known: set<string>, s: Store, t: Store, u: Store, claimed: seq<Dispatch>, turns: nat -> Turn)
    requires claimed != [] && BatchSettled(known, s, t, claimed[..|claimed| - 1], turns)
    requires SettledIn(t, u, claimed[|claimed| - 1], Outcome(known, claimed[|claimed| - 1], turns(|claimed| - 1)))
    requires forall i, j :: 0 <= i < j < |claimed| ==> claimed[i].id != claimed[j].id
    ensures BatchSettled(known, s, u, claimed, turns)
  {
    hide GoodIds, NoDangling, Outcome;
    var n := |claimed| - 1;
    forall k | 0 <= k < n
      ensures SettledAs(u, claimed[k], Outcome(known, claimed[k], turns(k)))
    {
      assert SettledAs(t, claimed[..n][k], Outcome(known, claimed[..n][k], turns(k)));
    }
  }

  /** The claim that opens a pass leaves its batch as the pass needs it. */
  lemma {:induction false} ClaimOpensAPass(before: IdOrder, s: Store, limit: int, at: Time)
    requires GoodIds(s) && NoDangling(s)
    ensures var (t, claimed) := Claim(before, s, limit, at);
      && GoodIds(t) && NoDangling(t)
      && (forall i, j :: 0 <= i < j < |claimed| ==> claimed[i].id != claimed[j].id)
      && (forall i :: 0 <= i < |claimed| ==> Startable(t, claimed[i]))
  {
    ClaimKeepsIds(before, s, limit, at);
    DispatchRuns.BatchIsClaimable(before, s, limit);
    var batch := Take(Queue(before, s), limit);
    hide Queue, Take, GoodIds, NoDangling;
    forall i | 0 <= i < |batch|
      ensures batch[i].id in IdsOf(batch)
    {
    }
  }

  /** A whole pass with nobody else at the store returns normally, with counts that tell each outcome. */
  lemma {:induction false} UndisturbedPass(
      before: IdOrder, s: Store, limit: int, at: Time, known: set<string>, turns: nat -> Turn)
    requires GoodIds(s) && NoDangling(s)
    ensures var (claimedStore, claimed) := Claim(before, s, limit, at);
      var (t, counts) := AttemptAll(known, claimedStore, claimed, turns);
      counts == Ok(Tally(known, claimed, turns)) && BatchSettled(known, claimedStore, t, claimed, turns)
  {
    hide *;
    ClaimOpensAPass(before, s, limit, at);
    var (claimedStore, claimed) := Claim(before, s, limit, at);
    PassSettlesTheBatch(known, claimedStore, claimed, turns);
  }

  // ----- a turn as operations on the outbox -----

  /** The record a turn makes first: for the template, and for what the workflow client answered. */
  function FirstRecord(known: set<string>, d: Dispatch, turn: Turn): DispatchHistory.Op {
    if d.templateId !in known then
      DispatchHistory.TerminalOp(FailedInput(d.id, d.token, turn.at, "unknown-workflow-template", None))
    else
      match turn.answer
      case StartedAs(w) =>
        DispatchHistory.StartedOp(StartedInput(d.id, d.token, Some("accepted"), turn.at, w), turn.generated)
      case AlreadyStartedAs(w) =>
        DispatchHistory.DuplicateOp(
          DuplicateInput(d.id, d.token, Some("already-running"), turn.at, w, Some(Running)), turn.generated)
      case Threw(name) =>
        DispatchHistory.RetryableOp(
          FailedInput(d.id, d.token, turn.at, if name == "" then "workflow-start-failed" else name, None))
  }

  /** The name an error is thrown under. */
  predicate IsThrownAs(error: StoreError, name: string) {
    match error
    case NotFound(_) => name == "WorkflowDispatchNotFoundError"
    case VersionConflict(_, _) => name == "WorkflowDispatchVersionConflictError"
    case StateTransition(_, _, _) => name == "WorkflowDispatchStateTransitionError"
    case RunMissing(_) => name == "Error"
  }

  /**
   * On any store a turn is one record, told as its target if it goes through; only when recording a
   * start is refused is there a second one, a retryable failure under the name of that error.
   */
  lemma {:induction false} TurnIsRecords(before: IdOrder, known: set<string>, s: Store, d: Dispatch, turn: Turn)
    returns (name: string)
    requires GoodIds(s)
    ensures var first := FirstRecord(known, d, turn);
      var (t, settled), reply := Attempt(known, s, d, turn), DispatchHistory.ReplyOf(s, first);
      var u := DispatchHistory.Step(before, s, first);
      if reply.Ok? then t == u && settled == Ok(DispatchHistory.Target(first))
      else if !first.StartedOp? then t == u && settled == Err(reply.error)
      else
        var second := DispatchHistory.RetryableOp(FailedInput(d.id, d.token, turn.at, name, None));
        && IsThrownAs(reply.error, name) && t == DispatchHistory.Step(before, u, second)
        && settled == match DispatchHistory.ReplyOf(u, second)
                      case Ok(_) => Ok(FailedRetryable)
                      case Err(e) => Err(e)
  {
    hide GoodIds, AfterStarted, AfterDuplicate, AfterFailed;
    var reply := DispatchHistory.ReplyOf(s, FirstRecord(known, d, turn));
    name := if reply.Err? then ErrorName(reply.error) else "";
  }
}
