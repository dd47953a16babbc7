/** The in-memory outbox of workflow dispatches: claims under a version token, and their outcomes. */
module DispatchStore {
  import opened Prelude
  import opened Sorting

  datatype DispatchState = Pending | Starting | Started | Duplicate | FailedRetryable | FailedTerminal

  datatype RunState = Queued | Running | Waiting | Cancelled | Failed | Completed

  /** A retry summary is carried as its text. */
  datatype Dispatch = Dispatch(
    assetVersionId: string, createdAt: Time, id: string, reason: string, state: DispatchState,
    firstAttemptAt: Option<Time>, lastAttemptAt: Option<Time>, lastFailureClass: Option<string>,
    retrySummary: Option<string>, updatedAt: Time, token: int, key: string, templateId: string)

  /** The run fields this store ever sets. */
  datatype Run = Run(
    assetVersionId: string, createdAt: Time, currentPhase: Option<string>, startedAt: Option<Time>, state: RunState,
    updatedAt: Time, dispatchId: Option<string>, workflowId: string, runId: string, templateId: string)

  datatype StoreError =
    | NotFound(id: string)
    | VersionConflict(id: string, expected: int)
    | StateTransition(id: string, source: DispatchState, target: DispatchState)
    | RunMissing(runId: string)

  type Reply = Result<(), StoreError>

  datatype StartedInput = StartedInput(
    id: string, expected: int, currentPhase: Option<string>, at: Time, workflowId: string)

  datatype DuplicateInput = DuplicateInput(
    id: string, expected: int, currentPhase: Option<string>, at: Time, workflowId: string, runState: Option<RunState>)

  datatype FailedInput = FailedInput(
    id: string, expected: int, at: Time, failureClass: string, retrySummary: Option<string>)

  /** `ids` is the insertion order of the dispatch map; nothing is ever added to it after construction. */
  datatype Store = Store(
    ids: seq<string>, dispatches: map<string, Dispatch>, runsById: map<string, Run>,
    runsByWorkflowId: map<string, string>)

  /** `before` is the locale's order of ids. */
  type IdOrder = (string, string) -> bool

  // ----- seeding -----

  datatype Seed = Seed(
    assetVersionId: string, createdAt: Option<Time>, id: string, reason: string, state: Option<DispatchState>,
    firstAttemptAt: Option<Time>, lastAttemptAt: Option<Time>, lastFailureClass: Option<string>,
    retrySummary: Option<string>, updatedAt: Option<Time>, token: Option<int>, key: string, templateId: string)

  /** 2026-01-01T00:00:00.000Z */
  const DEFAULT_CREATED_AT: Time := 1_767_225_600_000

  function Planted(seed: Seed): Dispatch {
    var createdAt := seed.createdAt.GetOr(DEFAULT_CREATED_AT);
    Dispatch(seed.assetVersionId, createdAt, seed.id, seed.reason, seed.state.GetOr(Pending), seed.firstAttemptAt,
             seed.lastAttemptAt, Present(seed.lastFailureClass), seed.retrySummary, seed.updatedAt.GetOr(createdAt),
             seed.token.GetOr(1), seed.key, seed.templateId)
  }

  function Plant(s: Store, seed: Seed): Store {
    s.(ids := if seed.id in s.dispatches then s.ids else s.ids + [seed.id],
       dispatches := s.dispatches[seed.id := Planted(seed)])
  }

  function PlantAll(seeds: seq<Seed>): (s: Store)
    ensures GoodIds(s) && s.runsById == map[] && s.runsByWorkflowId == map[]
    decreases |seeds|
  {
    if seeds == [] then Store([], map[], map[], map[])
    else Plant(PlantAll(seeds[..|seeds| - 1]), seeds[|seeds| - 1])
  }

  // ----- claiming -----

  predicate Eligible(d: Dispatch) {
    d.state == Pending || d.state == FailedRetryable
  }

  function Older(before: IdOrder): (Dispatch, Dispatch) -> bool {
    (x: Dispatch, y: Dispatch) => x.createdAt < y.createdAt || (x.createdAt == y.createdAt && before(x.id, y.id))
  }

  ghost predicate GoodIds(s: Store) {
    && (forall i, j :: 0 <= i < j < |s.ids| ==> s.ids[i] != s.ids[j])
    && (forall i :: 0 <= i < |s.ids| ==> s.ids[i] in s.dispatches)
    && (forall id :: id in s.dispatches ==> id in s.ids && s.dispatches[id].id == id)
  }

  function Values(s: Store): seq<Dispatch>
    requires GoodIds(s)
  {
    seq(|s.ids|, i requires 0 <= i < |s.ids| => s.dispatches[s.ids[i]])
  }

  function Chosen(ds: seq<Dispatch>): seq<Dispatch> {
    if ds == [] then []
    else if Eligible(ds[0]) then [ds[0]] + Chosen(ds[1..])
    else Chosen(ds[1..])
  }

  /** Every dispatch that may be claimed, oldest first. */
  function Queue(before: IdOrder, s: Store): seq<Dispatch>
    requires GoodIds(s)
  {
    Chosen(Sort(Older(before), Values(s)))
  }

  function Take(ds: seq<Dispatch>, limit: int): seq<Dispatch> {
    if limit <= 0 then [] else if limit < |ds| then ds[..limit] else ds
  }

  function Drop(ds: seq<Dispatch>, limit: int): seq<Dispatch> {
    if limit <= 0 then ds else if limit < |ds| then ds[limit..] else []
  }

  function Claimed(at: Time): Dispatch -> Dispatch {
    (d: Dispatch) => d.(state := Starting, updatedAt := at, lastAttemptAt := Some(at),
                        firstAttemptAt := Some(d.firstAttemptAt.GetOr(at)), token := d.token + 1)
  }

  function IdsOf(ds: seq<Dispatch>): set<string> {
    set i | 0 <= i < |ds| :: ds[i].id
  }

  /** Claim the dispatches whose id is in `ids`. */
  function ClaimIds(dispatches: map<string, Dispatch>, ids: set<string>, at: Time): map<string, Dispatch> {
    map id | id in dispatches :: if id in ids then Claimed(at)(dispatches[id]) else dispatches[id]
  }

  function Claim(before: IdOrder, s: Store, limit: int, at: Time): (Store, seq<Dispatch>)
    requires GoodIds(s)
  {
    var batch := Take(Queue(before, s), limit);
    (s.(dispatches := ClaimIds(s.dispatches, IdsOf(batch), at)), Map(Claimed(at), batch))
  }

  // ----- recording outcomes -----

  /** The dispatch that may move to `target`, or the error its caller gets. */
  function Mutable(s: Store, id: string, expected: int, target: DispatchState): Result<Dispatch, StoreError> {
    if id !in s.dispatches then Err(NotFound(id))
    else
      var d := s.dispatches[id];
      if d.token != expected then Err(VersionConflict(id, expected))
      else if d.state != Starting then Err(StateTransition(d.id, d.state, target))
      else Ok(d)
  }

  /** The run a workflow id leads to; an empty run id leads nowhere. */
  function ExistingRun(s: Store, workflowId: string): Option<Run> {
    if workflowId !in s.runsByWorkflowId then None
    else
      var runId := s.runsByWorkflowId[workflowId];
      if runId == "" || runId !in s.runsById then None else Some(s.runsById[runId])
  }

  /** `run` comes without a run id: an existing run keeps its own, a new one gets `generated`. */
  function Upsert(s: Store, run: Run, generated: string): (Store, Reply) {
    var kept := run.(currentPhase := Present(run.currentPhase), dispatchId := Present(run.dispatchId));
    if run.workflowId in s.runsByWorkflowId && s.runsByWorkflowId[run.workflowId] != "" then
      var runId := s.runsByWorkflowId[run.workflowId];
      if runId !in s.runsById then (s, Err(RunMissing(runId)))
      else
        var existing := s.runsById[runId];
        (s.(runsById := s.runsById[runId := kept.(workflowId := existing.workflowId, runId := existing.runId)]), Ok(()))
    else
      (s.(runsById := s.runsById[generated := kept.(runId := generated)],
          runsByWorkflowId := s.runsByWorkflowId[run.workflowId := generated]), Ok(()))
  }

  /** What a recorded start makes of the run that was there before. */
  function StartedRun(existing: Option<Run>, d: Dispatch, input: StartedInput): Run {
    match existing
    case None =>
      Run(d.assetVersionId, input.at, input.currentPhase, Some(input.at), Queued, input.at, Some(d.id),
          input.workflowId, "", d.templateId)
    case Some(e) =>
      var phase := if e.state != Queued && Present(e.currentPhase).Some? then e.currentPhase else input.currentPhase;
      Run(d.assetVersionId, e.createdAt, phase, Some(e.startedAt.GetOr(input.at)), e.state, input.at,
          Some(e.dispatchId.GetOr(d.id)), input.workflowId, "", d.templateId)
  }

  function Settled(d: Dispatch, target: DispatchState, at: Time): Dispatch {
    d.(state := target, updatedAt := at, lastAttemptAt := Some(at), token := d.token + 1)
  }

  function AfterStarted(s: Store, input: StartedInput, generated: string): (Store, Reply) {
    match Mutable(s, input.id, input.expected, Started)
    case Err(e) => (s, Err(e))
    case Ok(d) =>
      var t := s.(dispatches := s.dispatches[input.id := Settled(d, Started, input.at)]);
      Upsert(t, StartedRun(ExistingRun(t, input.workflowId), d, input), generated)
  }

  function AfterDuplicate(s: Store, input: DuplicateInput, generated: string): (Store, Reply) {
    match Mutable(s, input.id, input.expected, Duplicate)
    case Err(e) => (s, Err(e))
    case Ok(d) =>
      var t := s.(dispatches := s.dispatches[input.id := Settled(d, Duplicate, input.at)]);
      Upsert(t,
             Run(d.assetVersionId, input.at, input.currentPhase, Some(input.at), input.runState.GetOr(Running),
                 input.at, Some(d.id), input.workflowId, "", d.templateId), generated)
  }

  function AfterFailed(s: Store, input: FailedInput, target: DispatchState): (Store, Reply) {
    match Mutable(s, input.id, input.expected, target)
    case Err(e) => (s, Err(e))
    case Ok(d) =>
      var settled :=
        Settled(d, target, input.at).(lastFailureClass := Some(input.failureClass), retrySummary := input.retrySummary);
      (s.(dispatches := s.dispatches[input.id := settled]), Ok(()))
  }

  /** Whatever id the run map holds for a workflow is empty or leads to a run. */
  ghost predicate NoDangling(s: Store) {
    forall w :: w in s.runsByWorkflowId && s.runsByWorkflowId[w] != "" ==> s.runsByWorkflowId[w] in s.runsById
  }

  class InMemoryWorkflowDispatchStore {
    const before: IdOrder
    var ids: seq<string>
    var dispatches: map<string, Dispatch>
    var workflowRunsById: map<string, Run>
    var workflowRunsByWorkflowId: map<string, string>

    function Contents(): Store
      reads this
    {
      Store(ids, dispatches, workflowRunsById, workflowRunsByWorkflowId)
    }

    ghost predicate Valid()
      reads this
    {
      GoodIds(Contents()) && NoDangling(Contents())
    }

    constructor (before: IdOrder, seeds: seq<Seed>)
      ensures Valid() && this.before == before && Contents() == PlantAll(seeds)
    {
      this.before := before;
      ids, dispatches := [], map[];
      workflowRunsById, workflowRunsByWorkflowId := map[], map[];
      new;
      for i := 0 to |seeds|
        invariant Contents() == PlantAll(seeds[..i])
      {
        assert seeds[..i + 1][..i] == seeds[..i];
        var seed := seeds[i];
        if seed.id !in dispatches {
          ids := ids + [seed.id];
        }
        dispatches := dispatches[seed.id := Planted(seed)];
      }
      assert seeds[..|seeds|] == seeds;
    }

    method ClaimPendingDispatches(claimedAt: Time, limit: int) returns (claimed: seq<Dispatch>)
      requires Valid()
      modifies this
      ensures Valid() && (Contents(), claimed) == Claim(before, old(Contents()), limit, claimedAt)
    {
      hide Older, GoodIds, NoDangling, Sort, Values, Chosen, ClaimIds, IdsOf, Claimed;
      claimed := [];
      ghost var start := Contents();
      var sorted := Sort(Older(before), Values(Contents()));
      NothingClaimed(sorted, start, claimedAt);
      var i := 0;
      while i < |sorted| && |claimed| < limit
        invariant 0 <= i <= |sorted| && |claimed| <= if limit < 0 then 0 else limit
        invariant claimed == Map(Claimed(claimedAt), Chosen(sorted[..i]))
        invariant dispatches == ClaimIds(start.dispatches, IdsOf(Chosen(sorted[..i])), claimedAt)
        invariant Contents() == start.(dispatches := dispatches)
      {
        var dispatch := sorted[i];
        ChosenStep(sorted, i);
        UntouchedSoFar(before, start, i);
        StillThere(start.dispatches, Chosen(sorted[..i]), dispatch, claimedAt);
        if Eligible(dispatch) {
          var changed := Claimed(claimedAt)(dispatches[dispatch.id]);
          ClaimOneMore(start.dispatches, Chosen(sorted[..i]), dispatch, claimedAt);
          MapSnoc(Claimed(claimedAt), Chosen(sorted[..i]), dispatch);
          dispatches := dispatches[dispatch.id := changed];
          claimed := claimed + [changed];
        }
        i := i + 1;
      }
      ChosenTake(sorted, i, limit);
      ClaimKeepsIds(before, start, limit, claimedAt);
    }

    method GetMutableDispatch(id: string, expected: int, target: DispatchState)
      returns (result: Result<Dispatch, StoreError>)
      ensures result == Mutable(Contents(), id, expected, target)
    {
      if id !in dispatches {
        return Err(NotFound(id));
      }
      var dispatch := dispatches[id];
      if dispatch.token != expected {
        return Err(VersionConflict(id, expected));
      }
      if dispatch.state != Starting {
        return Err(StateTransition(dispatch.id, dispatch.state, target));
      }
      return Ok(dispatch);
    }

    method UpsertWorkflowRun(run: Run, generated: string) returns (reply: Reply)
      requires Valid()
      modifies this
      ensures Valid() && reply.Ok?
      ensures (Contents(), reply) == Upsert(old(Contents()), run, generated)
    {
      var kept := run.(currentPhase := Present(run.currentPhase), dispatchId := Present(run.dispatchId));
      if run.workflowId in workflowRunsByWorkflowId && workflowRunsByWorkflowId[run.workflowId] != "" {
        var runId := workflowRunsByWorkflowId[run.workflowId];
        var existing := workflowRunsById[runId];
        workflowRunsById :=
          workflowRunsById[runId := kept.(workflowId := existing.workflowId, runId := existing.runId)];
        return Ok(());
      }
      workflowRunsById := workflowRunsById[generated := kept.(runId := generated)];
      workflowRunsByWorkflowId := workflowRunsByWorkflowId[run.workflowId := generated];
      return Ok(());
    }

    method RecordStarted(input: StartedInput, generated: string) returns (reply: Reply)
      requires Valid()
      modifies this
      ensures Valid() && (Contents(), reply) == AfterStarted(old(Contents()), input, generated)
      ensures reply.Err? ==> !reply.error.RunMissing?
    {
      var dispatch := GetMutableDispatch(input.id, input.expected, Started);
      if dispatch.Err? {
        return Err(dispatch.error);
      }
      dispatches := dispatches[input.id := Settled(dispatch.value, Started, input.at)];
      reply := UpsertWorkflowRun(StartedRun(ExistingRun(Contents(), input.workflowId), dispatch.value, input),
                                 generated);
    }

    method RecordDuplicate(input: DuplicateInput, generated: string) returns (reply: Reply)
      requires Valid()
      modifies this
      ensures Valid() && (Contents(), reply) == AfterDuplicate(old(Contents()), input, generated)
      ensures reply.Err? ==> !reply.error.RunMissing?
    {
      var result := GetMutableDispatch(input.id, input.expected, Duplicate);
      if result.Err? {
        return Err(result.error);
      }
      var dispatch := result.value;
      dispatches := dispatches[input.id := Settled(dispatch, Duplicate, input.at)];
      reply := UpsertWorkflowRun(
        Run(dispatch.assetVersionId, input.at, input.currentPhase, Some(input.at), input.runState.GetOr(Running),
            input.at,
            Some(dispatch.id), input.workflowId, "", dispatch.templateId), generated);
    }

    method RecordFailure(input: FailedInput, target: DispatchState) returns (reply: Reply)
      requires Valid()
      modifies this
      ensures Valid() && (Contents(), reply) == AfterFailed(old(Contents()), input, target)
    {
      var result := GetMutableDispatch(input.id, input.expected, target);
      if result.Err? {
        return Err(result.error);
      }
      var dispatch := Settled(result.value, target, input.at);
      dispatch := dispatch.(lastFailureClass := Some(input.failureClass), retrySummary := input.retrySummary);
      dispatches := dispatches[input.id := dispatch];
      return Ok(());
    }
  }

  // ----- the claim loop -----

  ghost predicate DistinctIds(ds: seq<Dispatch>) {
    forall i, j :: 0 <= i < j < |ds| ==> ds[i].id != ds[j].id
  }

  lemma {:induction false} InsertDistinct(lt: (Dispatch, Dispatch) -> bool, d: Dispatch, ds: seq<Dispatch>)
    requires DistinctIds(ds) && forall i :: 0 <= i < |ds| ==> ds[i].id != d.id
    ensures DistinctIds(Insert(lt, d, ds))
    decreases |ds|
  {
    if ds != [] && lt(ds[0], d) {
      var rest := ds[1..];
      assert DistinctIds(rest);
      InsertDistinct(lt, d, rest);
      InsertMembers(lt, d, rest);
      var t := Insert(lt, d, rest);
      forall i | 0 <= i < |t|
        ensures t[i].id != ds[0].id
      {
        assert t[i] in t;
        if t[i] != d {
          var k :| 0 <= k < |rest| && rest[k] == t[i];
          assert ds[k + 1] == t[i];
        }
      }
    }
  }

  lemma {:induction false} SortDistinct(lt: (Dispatch, Dispatch) -> bool, ds: seq<Dispatch>)
    requires DistinctIds(ds)
    ensures DistinctIds(Sort(lt, ds))
    decreases |ds|
  {
    if ds != [] {
      var rest := ds[1..];
      SortDistinct(lt, rest);
      SortMembers(lt, rest);
      var t := Sort(lt, rest);
      forall i | 0 <= i < |t|
        ensures t[i].id != ds[0].id
      {
        assert t[i] in t;
        var k :| 0 <= k < |rest| && rest[k] == t[i];
        assert ds[k + 1] == t[i];
      }
      InsertDistinct(lt, ds[0], t);
    }
  }

  /** The sorted list holds each stored dispatch once. */
  lemma {:induction false} SortedValues(before: IdOrder, s: Store)
    requires GoodIds(s)
    ensures var sorted := Sort(Older(before), Values(s));
      DistinctIds(sorted) && forall d :: d in sorted <==> d.id in s.dispatches && s.dispatches[d.id] == d
  {
    hide Older;
    var values := Values(s);
    forall i, j | 0 <= i < j < |values|
      ensures values[i].id != values[j].id
    {
      assert values[i].id == s.ids[i] && values[j].id == s.ids[j];
    }
    SortDistinct(Older(before), values);
    SortMembers(Older(before), values);
    forall d
      ensures d in values <==> d.id in s.dispatches && s.dispatches[d.id] == d
    {
      if d.id in s.dispatches && s.dispatches[d.id] == d {
        var i :| 0 <= i < |s.ids| && s.ids[i] == d.id;
        assert values[i] == d;
      }
    }
  }

  lemma {:induction false} ChosenConcat(a: seq<Dispatch>, b: seq<Dispatch>)
    ensures Chosen(a + b) == Chosen(a) + Chosen(b)
    decreases |a|
  {
    if a == [] {
      assert a + b == b;
    } else {
      assert (a + b)[1..] == a[1..] + b;
      ChosenConcat(a[1..], b);
    }
  }

  lemma {:induction false} ChosenMembers(ds: seq<Dispatch>)
    ensures forall d :: d in Chosen(ds) <==> d in ds && Eligible(d)
    decreases |ds|
  {
    if ds != [] {
      ChosenMembers(ds[1..]);
      assert ds == [ds[0]] + ds[1..];
    }
  }

  lemma {:induction false} ChosenStep(sorted: seq<Dispatch>, i: nat)
    requires i < |sorted|
    ensures Chosen(sorted[..i + 1])
      == if Eligible(sorted[i]) then Chosen(sorted[..i]) + [sorted[i]] else Chosen(sorted[..i])
  {
    assert sorted[..i + 1] == sorted[..i] + [sorted[i]];
    ChosenConcat(sorted[..i], [sorted[i]]);
    assert [sorted[i]][1..] == [];
    assert Chosen([sorted[i]]) == if Eligible(sorted[i]) then [sorted[i]] else [];
  }

  /** Stopping the scan at the limit, or at the end, takes the front of all that is eligible. */
  lemma {:induction false} ChosenTake(sorted: seq<Dispatch>, i: nat, limit: int)
    requires i <= |sorted| && |Chosen(sorted[..i])| <= if limit < 0 then 0 else limit
    requires i == |sorted| || |Chosen(sorted[..i])| >= limit
    ensures Chosen(sorted[..i]) == Take(Chosen(sorted), limit)
  {
    assert sorted[..i] + sorted[i..] == sorted;
    ChosenConcat(sorted[..i], sorted[i..]);
    if i == |sorted| {
      assert Chosen(sorted[i..]) == [];
    }
  }

  /** The dispatch the scan is at has not been claimed by the scan yet. */
  lemma {:induction false} UntouchedSoFar(before: IdOrder, s: Store, i: nat)
    requires GoodIds(s) && i < |Sort(Older(before), Values(s))|
    ensures var sorted := Sort(Older(before), Values(s));
      && sorted[i].id in s.dispatches && s.dispatches[sorted[i].id] == sorted[i]
      && sorted[i].id !in IdsOf(Chosen(sorted[..i]))
  {
    SortedValues(before, s);
    var sorted := Sort(Older(before), Values(s));
    hide Older, GoodIds, Sort, Values;
    assert sorted[i] in sorted;
    ChosenMembers(sorted[..i]);
    var c := Chosen(sorted[..i]);
    forall k | 0 <= k < |c|
      ensures c[k].id != sorted[i].id
    {
      assert c[k] in c;
      var j :| 0 <= j < i && sorted[j] == c[k];
    }
  }

  lemma {:induction false} ClaimOneMore(dispatches: map<string, Dispatch>, batch: seq<Dispatch>, d: Dispatch, at: Time)
    requires d.id in dispatches && d.id !in IdsOf(batch)
    ensures ClaimIds(dispatches, IdsOf(batch + [d]), at)
      == ClaimIds(dispatches, IdsOf(batch), at)[d.id := Claimed(at)(dispatches[d.id])]
  {
    var more := batch + [d];
    forall id
      ensures id in IdsOf(more) <==> id in IdsOf(batch) || id == d.id
    {
      if id in IdsOf(batch) {
        var i :| 0 <= i < |batch| && batch[i].id == id;
        assert more[i].id == id;
      }
      if id == d.id {
        assert more[|batch|].id == id;
      }
    }
  }

  lemma {:induction false} MapSnoc<T, U>(f: T -> U, s: seq<T>, x: T)
    ensures Map(f, s + [x]) == Map(f, s) + [f(x)]
  {
  }

  lemma {:induction false} NothingClaimed(sorted: seq<Dispatch>, s: Store, at: Time)
    ensures Chosen(sorted[..0]) == [] && Map(Claimed(at), Chosen(sorted[..0])) == []
    ensures ClaimIds(s.dispatches, IdsOf(Chosen(sorted[..0])), at) == s.dispatches
  {
  }

  lemma {:induction false} StillThere(dispatches: map<string, Dispatch>, batch: seq<Dispatch>, d: Dispatch, at: Time)
    requires d.id in dispatches && dispatches[d.id] == d && d.id !in IdsOf(batch)
    ensures var after := ClaimIds(dispatches, IdsOf(batch), at);
      d.id in after && after[d.id] == d
  {
  }

  lemma {:induction false} ClaimKeepsIds(before: IdOrder, s: Store, limit: int, at: Time)
    requires GoodIds(s)
    ensures GoodIds(Claim(before, s, limit, at).0)
    ensures NoDangling(s) ==> NoDangling(Claim(before, s, limit, at).0)
  {
  }
}
