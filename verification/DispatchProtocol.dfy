/**
 * Several dispatch workers, the outbox they claim from and the workflow service they start
 * workflows on, with crashes and lost messages at any point.
 */
module DispatchProtocol {
  import opened DispatchStore

  /** A claim on one dispatch: the token is the one it was handed out with. */
  datatype Ticket = Ticket(id: string, token: int)

  datatype Row = Row(state: DispatchState, token: int, key: string, templateId: string)

  type Rows = map<string, Row>

  /** For every workflow id the service has started, the ticket under which it was started. */
  type StartedBy = map<string, Ticket>

  datatype Counts = Counts(claimed: nat, started: nat, duplicate: nat, retryable: nat, terminal: nat)

  /** How far the attempt on the first ticket of the queue has come. */
  datatype Phase = Ready | StartOk | AlreadyStarted | Failing(target: DispatchState)

  /**
   * A scanning worker is inside the claim transaction: `claims` are the rows it has updated and
   * locked, with their tokens before the update. `done` are the tickets of the batch that a
   * dispatching worker is through with.
   */
  datatype Worker =
    | Idle
    | Scanning(candidates: seq<Ticket>, claims: seq<Ticket>)
    | Dispatching(queue: seq<Ticket>, phase: Phase, counts: Counts, done: seq<Ticket>)

  /** What a normal return says: the tickets of its batch, and the counts. */
  datatype Pass = Pass(batch: seq<Ticket>, counts: Counts)

  /**
   * `handed`, `recorded` and `returned` are histories: committed claims, records that went through
   * and normal returns. `outcomes` says what each ticket was recorded with.
   */
  datatype System = System(
    rows: Rows, startedBy: StartedBy, workers: seq<Worker>, handed: seq<Ticket>, recorded: seq<Ticket>,
    outcomes: map<Ticket, DispatchState>, returned: seq<Pass>)

  /**
   * `reached` says whether a request gets to its destination and `answered` whether the answer
   * gets back; either loss looks to the worker like an error it cannot place.
   */
  datatype Event =
    | Enqueue(id: string, row: Row)
    | Snapshot(w: nat, candidates: seq<Ticket>)
    | ClaimRow(w: nat)
    | Commit(w: nat)
    | Crash(w: nat)
    | ResolveUnknown(w: nat)
    | Start(w: nat, reached: bool, answered: bool)
    | Record(w: nat, reached: bool, answered: bool)
    | Return(w: nat)

  predicate Claimable(row: Row) {
    row.state == Pending || row.state == FailedRetryable
  }

  predicate Locked(s: System, w: nat, id: string) {
    exists v, k :: 0 <= v < |s.workers| && v != w && s.workers[v].Scanning? && 0 <= k < |s.workers[v].claims|
                   && s.workers[v].claims[k].id == id
  }

  predicate Attempting(s: System, w: nat) {
    w < |s.workers| && s.workers[w].Dispatching? && s.workers[w].queue != [] && s.workers[w].queue[0].id in s.rows
  }

  predicate Enabled(known: set<string>, s: System, e: Event) {
    match e
    case Enqueue(id, row) =>
      id !in s.rows && row.state == Pending && forall other :: other in s.rows ==> s.rows[other].key != row.key
    case Snapshot(w, candidates) =>
      && w < |s.workers| && s.workers[w].Idle?
      && forall k :: 0 <= k < |candidates| ==>
           var c := candidates[k]; c.id in s.rows && Claimable(s.rows[c.id]) && s.rows[c.id].token == c.token
    case ClaimRow(w) =>
      && w < |s.workers| && s.workers[w].Scanning? && s.workers[w].candidates != []
      && !Locked(s, w, s.workers[w].candidates[0].id)
    case Commit(w) => w < |s.workers| && s.workers[w].Scanning? && s.workers[w].candidates == []
    case Crash(w) => w < |s.workers|
    case ResolveUnknown(w) =>
      Attempting(s, w) && s.workers[w].phase.Ready? && s.rows[s.workers[w].queue[0].id].templateId !in known
    case Start(w, _, _) =>
      Attempting(s, w) && s.workers[w].phase.Ready? && s.rows[s.workers[w].queue[0].id].templateId in known
    case Record(w, _, _) => Attempting(s, w) && !s.workers[w].phase.Ready?
    case Return(w) => w < |s.workers| && s.workers[w].Dispatching? && s.workers[w].queue == []
  }

  function With(s: System, w: nat, worker: Worker): System
    requires w < |s.workers|
  {
    s.(workers := s.workers[w := worker])
  }

  /** The per-row compare-and-set; inside its transaction the worker also sees its own updates. */
  function AfterClaimRow(s: System, w: nat): System
    requires w < |s.workers| && s.workers[w].Scanning? && s.workers[w].candidates != []
  {
    var me := s.workers[w];
    var c := me.candidates[0];
    var mine := exists k :: 0 <= k < |me.claims| && me.claims[k].id == c.id;
    if !mine && c.id in s.rows && Claimable(s.rows[c.id]) && s.rows[c.id].token == c.token then
      With(s, w, Scanning(me.candidates[1..], me.claims + [c]))
    else With(s, w, Scanning(me.candidates[1..], me.claims))
  }

  function TicketsFor(claims: seq<Ticket>): (queue: seq<Ticket>)
    ensures |queue| == |claims|
    ensures forall k :: 0 <= k < |claims| ==> queue[k] == Ticket(claims[k].id, claims[k].token + 1)
  {
    seq(|claims|, k requires 0 <= k < |claims| => Ticket(claims[k].id, claims[k].token + 1))
  }

  predicate Claims(claims: seq<Ticket>, id: string) {
    exists k :: 0 <= k < |claims| && claims[k].id == id
  }

  function CommitRows(rows: Rows, claims: seq<Ticket>): Rows {
    map id | id in rows ::
      if Claims(claims, id) then rows[id].(state := Starting, token := rows[id].token + 1) else rows[id]
  }

  function AfterCommit(s: System, w: nat): System
    requires w < |s.workers| && s.workers[w].Scanning?
  {
    var queue := TicketsFor(s.workers[w].claims);
    With(s, w, Dispatching(queue, Ready, Counts(|queue|, 0, 0, 0, 0), []))
      .(rows := CommitRows(s.rows, s.workers[w].claims), handed := s.handed + queue)
  }

  /** The workflow service rejects an id it has already started. */
  function AfterStart(s: System, w: nat, reached: bool, answered: bool): System
    requires Attempting(s, w)
  {
    var me, ticket := s.workers[w], s.workers[w].queue[0];
    var key := s.rows[ticket.id].key;
    var lost := With(s, w, me.(phase := Failing(FailedRetryable)));
    if !reached then lost
    else if key in s.startedBy then if answered then With(s, w, me.(phase := AlreadyStarted)) else lost
    else
      var t := if answered then With(s, w, me.(phase := StartOk)) else lost;
      t.(startedBy := s.startedBy[key := ticket])
  }

  function TargetOf(phase: Phase): DispatchState {
    match phase
    case Ready => Starting
    case StartOk => Started
    case AlreadyStarted => Duplicate
    case Failing(target) => target
  }

  function Count(c: Counts, target: DispatchState): Counts {
    if target == Started then c.(started := c.started + 1)
    else if target == Duplicate then c.(duplicate := c.duplicate + 1)
    else if target == FailedTerminal then c.(terminal := c.terminal + 1)
    else c.(retryable := c.retryable + 1)
  }

  /** The store goes through with a record only for a dispatch being started, under its current token. */
  predicate Accepted(rows: Rows, ticket: Ticket) {
    ticket.id in rows && rows[ticket.id].state == Starting && rows[ticket.id].token == ticket.token
  }

  function RecordRow(rows: Rows, ticket: Ticket, target: DispatchState): Rows
    requires ticket.id in rows
  {
    rows[ticket.id := rows[ticket.id].(state := target, token := ticket.token + 1)]
  }

  function Recorded(s: System, ticket: Ticket, target: DispatchState): System
    requires ticket.id in s.rows
  {
    s.(rows := RecordRow(s.rows, ticket, target), recorded := s.recorded + [ticket],
       outcomes := s.outcomes[ticket := target])
  }

  /** The worker counts the outcome and goes on to the next ticket. */
  function Finished(me: Worker, target: DispatchState): Worker
    requires me.Dispatching? && me.queue != []
  {
    Dispatching(me.queue[1..], Ready, Count(me.counts, target), me.done + [me.queue[0]])
  }

  /**
   * Recording a start is inside the worker's try block, so any trouble with it is classified as
   * retryable and recorded as such next; trouble with any other record ends the worker's call.
   */
  function AfterRecord(s: System, w: nat, reached: bool, answered: bool): System
    requires Attempting(s, w)
  {
    var me, ticket := s.workers[w], s.workers[w].queue[0];
    var target := TargetOf(me.phase);
    var applied := reached && Accepted(s.rows, ticket);
    var t := if applied then Recorded(s, ticket, target) else s;
    if applied && answered then With(t, w, Finished(me, target))
    else if me.phase.StartOk? then With(t, w, me.(phase := Failing(FailedRetryable)))
    else With(t, w, Idle)
  }

  function Apply(known: set<string>, s: System, e: Event): System
    requires Enabled(known, s, e)
  {
    match e
    case Enqueue(id, row) => s.(rows := s.rows[id := row])
    case Snapshot(w, candidates) => With(s, w, Scanning(candidates, []))
    case ClaimRow(w) => AfterClaimRow(s, w)
    case Commit(w) => AfterCommit(s, w)
    case Crash(w) => With(s, w, Idle)
    case ResolveUnknown(w) => With(s, w, s.workers[w].(phase := Failing(FailedTerminal)))
    case Start(w, reached, answered) => AfterStart(s, w, reached, answered)
    case Record(w, reached, answered) => AfterRecord(s, w, reached, answered)
    case Return(w) => With(s, w, Idle).(returned := s.returned + [Pass(s.workers[w].done, s.workers[w].counts)])
  }

  // ----- what every state keeps -----

  ghost predicate UniqueKeys(rows: Rows) {
    forall a, b :: a in rows && b in rows && a != b ==> rows[a].key != rows[b].key
  }

  /** What the state of a row says about the service. */
  ghost predicate RowOk(known: set<string>, startedBy: StartedBy, id: string, row: Row) {
    && (row.state == Started ==> row.key in startedBy && startedBy[row.key].token == row.token - 1)
    && (row.state == Duplicate ==> row.key in startedBy && startedBy[row.key].token < row.token - 1)
    && (row.state == FailedTerminal ==> row.templateId !in known)
    && (row.key in startedBy ==>
          startedBy[row.key].id == id && startedBy[row.key].token <= row.token && row.templateId in known
          && (Claimable(row) ==> startedBy[row.key].token < row.token))
  }

  ghost predicate RowsOk(known: set<string>, s: System) {
    && UniqueKeys(s.rows)
    && (forall id :: id in s.rows ==> RowOk(known, s.startedBy, id, s.rows[id]))
    && (forall key :: key in s.startedBy ==> s.startedBy[key].id in s.rows && s.rows[s.startedBy[key].id].key == key)
  }

  /** What a worker holding a ticket may rely on. */
  ghost predicate HeldOk(known: set<string>, rows: Rows, startedBy: StartedBy, t: Ticket, phase: Phase) {
    && t.id in rows
    && var row := rows[t.id];
    && (row.token == t.token ==> row.state == Starting)
    && match phase
       case Ready => row.token == t.token && (row.key in startedBy ==> startedBy[row.key].token < t.token)
       case StartOk => row.token == t.token && row.key in startedBy && startedBy[row.key] == t
       case AlreadyStarted => row.token == t.token && row.key in startedBy && startedBy[row.key].token < t.token
       case Failing(target) =>
         t.token <= row.token
         && (target == FailedRetryable
             || (target == FailedTerminal && row.token == t.token && row.templateId !in known))
  }

  function PhaseAt(me: Worker, k: nat): Phase
    requires me.Dispatching?
  {
    if k == 0 then me.phase else Ready
  }

  ghost predicate WorkerOk(known: set<string>, rows: Rows, startedBy: StartedBy, me: Worker) {
    match me
    case Idle => true
    case Scanning(_, claims) =>
      && (forall k :: 0 <= k < |claims| ==>
            claims[k].id in rows && Claimable(rows[claims[k].id]) && rows[claims[k].id].token == claims[k].token)
      && (forall k, l :: 0 <= k < l < |claims| ==> claims[k].id != claims[l].id)
    case Dispatching(queue, phase, counts, _) =>
      && (forall k :: 0 <= k < |queue| ==> HeldOk(known, rows, startedBy, queue[k], PhaseAt(me, k)))
      && (forall k, l :: 0 <= k < l < |queue| ==> queue[k].id != queue[l].id)
      && (queue == [] ==> phase.Ready?)
      && counts.started + counts.duplicate + counts.retryable + counts.terminal + |queue| == counts.claimed
  }

  /** No two workers hold the same ticket or lock the same row. */
  ghost predicate Apart(a: Worker, b: Worker) {
    && (a.Scanning? && b.Scanning? ==>
          forall k, l :: 0 <= k < |a.claims| && 0 <= l < |b.claims| ==> a.claims[k].id != b.claims[l].id)
    && (a.Dispatching? && b.Dispatching? ==>
          forall k, l :: 0 <= k < |a.queue| && 0 <= l < |b.queue| ==> a.queue[k] != b.queue[l])
  }

  ghost predicate WorkersOk(known: set<string>, s: System) {
    && (forall v :: 0 <= v < |s.workers| ==> WorkerOk(known, s.rows, s.startedBy, s.workers[v]))
    && (forall u, v :: 0 <= u < |s.workers| && 0 <= v < |s.workers| && u != v ==> Apart(s.workers[u], s.workers[v]))
  }

  ghost predicate HistoryOk(s: System) {
    && (forall k :: 0 <= k < |s.handed| ==>
          var t := s.handed[k];
          t.id in s.rows && t.token <= s.rows[t.id].token && (Claimable(s.rows[t.id]) ==> t.token < s.rows[t.id].token))
    && (forall k, l :: 0 <= k < l < |s.handed| ==> s.handed[k] != s.handed[l])
    && (forall k :: 0 <= k < |s.recorded| ==>
          var t := s.recorded[k];
          t.id in s.rows && t.token < s.rows[t.id].token)
    && (forall k, l :: 0 <= k < l < |s.recorded| ==> s.recorded[k] != s.recorded[l])
    && (forall k :: 0 <= k < |s.returned| ==>
          var c := s.returned[k].counts; c.started + c.duplicate + c.retryable + c.terminal == c.claimed)
  }

  ghost predicate Inv(known: set<string>, s: System) {
    RowsOk(known, s) && WorkersOk(known, s) && HistoryOk(s)
  }

  // ----- steps of one worker that touch nothing else -----

  lemma {:induction false} OneWorker(known: set<string>, s: System, w: nat, me: Worker)
    requires WorkersOk(known, s) && w < |s.workers| && WorkerOk(known, s.rows, s.startedBy, me)
    requires forall v :: 0 <= v < |s.workers| && v != w ==> Apart(me, s.workers[v]) && Apart(s.workers[v], me)
    ensures WorkersOk(known, With(s, w, me))
  {
    hide WorkerOk, Apart;
  }

  ghost predicate HoldsNoMore(was: Worker, me: Worker) {
    match me
    case Idle => true
    case Scanning(_, claims) => claims == []
    case Dispatching(queue, _, _, _) =>
      was.Dispatching? && (queue == was.queue || (was.queue != [] && queue == was.queue[1..]))
  }

  /** A worker that holds no more than before stays apart from the others. */
  lemma {:induction false} StillApart(s: System, w: nat, me: Worker, known: set<string>)
    requires WorkersOk(known, s) && w < |s.workers|
    requires HoldsNoMore(s.workers[w], me)
    ensures forall v :: 0 <= v < |s.workers| && v != w ==> Apart(me, s.workers[v]) && Apart(s.workers[v], me)
  {
    hide WorkerOk;
    forall v | 0 <= v < |s.workers| && v != w
      ensures Apart(me, s.workers[v]) && Apart(s.workers[v], me)
    {
      assert Apart(s.workers[w], s.workers[v]) && Apart(s.workers[v], s.workers[w]);
    }
  }

  lemma {:induction false} ClaimRowApart(known: set<string>, s: System, w: nat)
    requires WorkersOk(known, s) && Enabled(known, s, ClaimRow(w))
    ensures var me := AfterClaimRow(s, w).workers[w];
      forall v :: 0 <= v < |s.workers| && v != w ==> Apart(me, s.workers[v]) && Apart(s.workers[v], me)
  {
    hide WorkerOk;
    var was, me := s.workers[w], AfterClaimRow(s, w).workers[w];
    var c := was.candidates[0];
    assert me.claims == was.claims || me.claims == was.claims + [c];
    forall v | 0 <= v < |s.workers| && v != w
      ensures Apart(me, s.workers[v]) && Apart(s.workers[v], me)
    {
      assert Apart(was, s.workers[v]);
      if s.workers[v].Scanning? {
        forall k, l | 0 <= k < |me.claims| && 0 <= l < |s.workers[v].claims|
          ensures me.claims[k].id != s.workers[v].claims[l].id
        {
          assert k < |was.claims| ==> me.claims[k] == was.claims[k];
        }
      }
    }
  }

  lemma {:induction false} ClaimRowOk(known: set<string>, s: System, w: nat)
    requires WorkersOk(known, s) && Enabled(known, s, ClaimRow(w))
    ensures WorkersOk(known, AfterClaimRow(s, w))
    ensures var t := AfterClaimRow(s, w); t == With(s, w, t.workers[w])
  {
    ClaimRowApart(known, s, w);
    var me := AfterClaimRow(s, w).workers[w];
    assert WorkerOk(known, s.rows, s.startedBy, s.workers[w]);
    hide Apart, Locked;
    assert WorkerOk(known, s.rows, s.startedBy, me);
    OneWorker(known, s, w, me);
  }

  // ----- a record that goes through -----

  /** Another worker is not disturbed when a ticket that is not its own is recorded. */
  lemma {:induction false} RecordElsewhere(
      known: set<string>, rows: Rows, startedBy: StartedBy, ticket: Ticket, target: DispatchState, other: Worker)
    requires Accepted(rows, ticket) && WorkerOk(known, rows, startedBy, other)
    requires other.Dispatching? ==> forall k :: 0 <= k < |other.queue| ==> other.queue[k] != ticket
    ensures WorkerOk(known, RecordRow(rows, ticket, target), startedBy, other)
  {
    if other.Dispatching? {
      forall k | 0 <= k < |other.queue|
        ensures HeldOk(known, RecordRow(rows, ticket, target), startedBy, other.queue[k], PhaseAt(other, k))
      {
        assert HeldOk(known, rows, startedBy, other.queue[k], PhaseAt(other, k));
        var t := other.queue[k];
        assert t.id == ticket.id ==> t.token != ticket.token;
      }
    }
  }

  ghost predicate Recordable(known: set<string>, rows: Rows, startedBy: StartedBy, t: Ticket, phase: Phase) {
    HeldOk(known, rows, startedBy, t, phase) && !phase.Ready?
  }

  lemma {:induction false} RecordRowsOk(known: set<string>, s: System, ticket: Ticket, phase: Phase)
    requires RowsOk(known, s) && Accepted(s.rows, ticket) && Recordable(known, s.rows, s.startedBy, ticket, phase)
    ensures RowsOk(known, s.(rows := RecordRow(s.rows, ticket, TargetOf(phase))))
  {
    var t := s.(rows := RecordRow(s.rows, ticket, TargetOf(phase)));
    RecordedRowOk(known, s, ticket, phase);
    hide RowOk, Accepted, Recordable, TargetOf;
    assert forall id :: id in t.rows ==> t.rows[id].key == s.rows[id].key;
    assert forall id :: id in t.rows && id != ticket.id ==> t.rows[id] == s.rows[id];
  }

  lemma {:induction false} RecordedRowOk(known: set<string>, s: System, ticket: Ticket, phase: Phase)
    requires RowsOk(known, s) && Accepted(s.rows, ticket) && Recordable(known, s.rows, s.startedBy, ticket, phase)
    ensures RowOk(known, s.startedBy, ticket.id, RecordRow(s.rows, ticket, TargetOf(phase))[ticket.id])
  {
    assert RowOk(known, s.startedBy, ticket.id, s.rows[ticket.id]);
    hide RowsOk;
  }

  lemma {:induction false} RecordHistory(s: System, ticket: Ticket, target: DispatchState)
    requires HistoryOk(s) && Accepted(s.rows, ticket)
    ensures HistoryOk(Recorded(s, ticket, target))
  {
  }

  lemma {:induction false} RecordOk(known: set<string>, s: System, w: nat, reached: bool, answered: bool)
    requires Inv(known, s) && Enabled(known, s, Record(w, reached, answered))
    ensures Inv(known, AfterRecord(s, w, reached, answered))
  {
    hide RowsOk, HistoryOk, WorkerOk, RowOk;
    var me, ticket := s.workers[w], s.workers[w].queue[0];
    var target := TargetOf(me.phase);
    RecordingWorker(known, s.rows, s.startedBy, me);
    if reached && Accepted(s.rows, ticket) {
      var t := Recorded(s, ticket, target);
      RecordRowsOk(known, s, ticket, me.phase);
      RowsOnly(known, s.(rows := RecordRow(s.rows, ticket, target)), t);
      RecordHistory(s, ticket, target);
      forall v | 0 <= v < |s.workers| && v != w
        ensures WorkerOk(known, t.rows, t.startedBy, s.workers[v])
      {
        assert Apart(s.workers[w], s.workers[v]);
        RecordElsewhere(known, s.rows, s.startedBy, ticket, target, s.workers[v]);
      }
      RecordedWorker(known, s.rows, s.startedBy, me);
      if answered {
        Replaced(known, s, t, w, Finished(me, target));
      } else if me.phase.StartOk? {
        Replaced(known, s, t, w, me.(phase := Failing(FailedRetryable)));
      } else {
        Replaced(known, s, t, w, Idle);
      }
    } else if me.phase.StartOk? {
      Replaced(known, s, s, w, me.(phase := Failing(FailedRetryable)));
    } else {
      Replaced(known, s, s, w, Idle);
    }
  }

  lemma {:induction false} RowsOnly(known: set<string>, s: System, t: System)
    requires RowsOk(known, s) && s.rows == t.rows && s.startedBy == t.startedBy
    ensures RowsOk(known, t)
  {
    hide RowOk, UniqueKeys;
  }

  /** The worker `w` becomes `me`, holding no more than before, in a system whose other workers are fine. */
  lemma {:induction false} Replaced(known: set<string>, s: System, t: System, w: nat, me: Worker)
    requires WorkersOk(known, s) && w < |s.workers| && t.workers == s.workers && RowsOk(known, t) && HistoryOk(t)
    requires forall v :: 0 <= v < |s.workers| && v != w ==> WorkerOk(known, t.rows, t.startedBy, s.workers[v])
    requires WorkerOk(known, t.rows, t.startedBy, me)
    requires HoldsNoMore(s.workers[w], me)
    ensures Inv(known, With(t, w, me))
  {
    StillApart(s, w, me, known);
    hide WorkerOk, Apart, RowOk;
    RowsOnly(known, t, With(t, w, me));
  }

  /** What the worker about to record may rely on, and what it may turn into without a record. */
  lemma {:induction false} RecordingWorker(known: set<string>, rows: Rows, startedBy: StartedBy, me: Worker)
    requires WorkerOk(known, rows, startedBy, me) && me.Dispatching? && me.queue != [] && !me.phase.Ready?
    ensures Recordable(known, rows, startedBy, me.queue[0], me.phase)
    ensures WorkerOk(known, rows, startedBy, Idle)
    ensures me.phase.StartOk? ==> WorkerOk(known, rows, startedBy, me.(phase := Failing(FailedRetryable)))
  {
    Rephased(known, rows, startedBy, me, Failing(FailedRetryable));
    assert HeldOk(known, rows, startedBy, me.queue[0], PhaseAt(me, 0));
  }

  lemma {:induction false} Rephased(known: set<string>, rows: Rows, startedBy: StartedBy, me: Worker, phase: Phase)
    requires WorkerOk(known, rows, startedBy, me) && me.Dispatching? && me.queue != []
    ensures HeldOk(known, rows, startedBy, me.queue[0], phase) ==> WorkerOk(known, rows, startedBy, me.(phase := phase))
  {
    hide HeldOk;
    var next := me.(phase := phase);
    assert forall k :: 0 < k < |me.queue| ==> PhaseAt(next, k) == PhaseAt(me, k);
    if HeldOk(known, rows, startedBy, me.queue[0], phase) {
      assert forall k :: 0 <= k < |next.queue| ==> HeldOk(known, rows, startedBy, next.queue[k], PhaseAt(next, k));
    }
  }

  /** The worker whose ticket has just been recorded. */
  lemma {:induction false} RecordedWorker(known: set<string>, rows: Rows, startedBy: StartedBy, me: Worker)
    requires WorkerOk(known, rows, startedBy, me) && me.Dispatching? && me.queue != [] && !me.phase.Ready?
    requires Accepted(rows, me.queue[0])
    ensures var after := RecordRow(rows, me.queue[0], TargetOf(me.phase));
      && WorkerOk(known, after, startedBy, Finished(me, TargetOf(me.phase)))
      && WorkerOk(known, after, startedBy, me.(phase := Failing(FailedRetryable)))
      && WorkerOk(known, after, startedBy, Idle)
  {
    var after := RecordRow(rows, me.queue[0], TargetOf(me.phase));
    forall k | 0 < k < |me.queue|
      ensures HeldOk(known, after, startedBy, me.queue[k], Ready)
    {
      assert HeldOk(known, rows, startedBy, me.queue[k], PhaseAt(me, k));
      assert me.queue[k].id != me.queue[0].id;
    }
    assert HeldOk(known, rows, startedBy, me.queue[0], PhaseAt(me, 0));
    assert HeldOk(known, after, startedBy, me.queue[0], Failing(FailedRetryable));
    hide HeldOk, RecordRow;
    var next, failing := Finished(me, TargetOf(me.phase)), me.(phase := Failing(FailedRetryable));
    assert forall k :: 0 <= k < |next.queue| ==> next.queue[k] == me.queue[k + 1] && PhaseAt(next, k) == Ready;
    assert forall k :: 0 <= k < |failing.queue| ==>
      HeldOk(known, after, startedBy, failing.queue[k], PhaseAt(failing, k));
  }

  // ----- a workflow start -----

  lemma {:induction false} StartElsewhere(
      known: set<string>, s: System, ticket: Ticket, other: Worker)
    requires RowsOk(known, s) && WorkerOk(known, s.rows, s.startedBy, other)
    requires ticket.id in s.rows && s.rows[ticket.id].token == ticket.token && s.rows[ticket.id].key !in s.startedBy
    requires other.Dispatching? ==> forall k :: 0 <= k < |other.queue| ==> other.queue[k] != ticket
    ensures WorkerOk(known, s.rows, s.startedBy[s.rows[ticket.id].key := ticket], other)
  {
    hide RowOk;
    if other.Dispatching? {
      forall k | 0 <= k < |other.queue|
        ensures HeldOk(known, s.rows, s.startedBy[s.rows[ticket.id].key := ticket], other.queue[k], PhaseAt(other, k))
      {
        assert HeldOk(known, s.rows, s.startedBy, other.queue[k], PhaseAt(other, k));
        var t := other.queue[k];
        assert t.id == ticket.id ==> t.token != ticket.token;
        assert t.id != ticket.id ==> s.rows[t.id].key != s.rows[ticket.id].key;
      }
    }
  }

  lemma {:induction false} StartRowsOk(known: set<string>, s: System, ticket: Ticket)
    requires RowsOk(known, s) && ticket.id in s.rows
    requires s.rows[ticket.id].key !in s.startedBy && s.rows[ticket.id].templateId in known
    requires s.rows[ticket.id].token == ticket.token && s.rows[ticket.id].state == Starting
    ensures RowsOk(known, s.(startedBy := s.startedBy[s.rows[ticket.id].key := ticket]))
  {
    var t := s.(startedBy := s.startedBy[s.rows[ticket.id].key := ticket]);
    forall id | id in t.rows
      ensures RowOk(known, t.startedBy, id, t.rows[id])
    {
      assert RowOk(known, s.startedBy, id, s.rows[id]);
      assert id != ticket.id ==> s.rows[id].key != s.rows[ticket.id].key;
    }
    hide RowOk;
  }

  /** The worker whose start has just reached the service for the first time. */
  lemma {:induction false} StartedWorker(known: set<string>, s: System, me: Worker)
    requires RowsOk(known, s) && WorkerOk(known, s.rows, s.startedBy, me) && me.Dispatching? && me.queue != []
    requires me.phase.Ready?
    requires me.queue[0].id in s.rows && s.rows[me.queue[0].id].key !in s.startedBy
    ensures var after := s.startedBy[s.rows[me.queue[0].id].key := me.queue[0]];
      && WorkerOk(known, s.rows, after, me.(phase := StartOk))
      && WorkerOk(known, s.rows, after, me.(phase := Failing(FailedRetryable)))
  {
    hide RowOk;
    var ticket := me.queue[0];
    var after := s.startedBy[s.rows[ticket.id].key := ticket];
    assert HeldOk(known, s.rows, s.startedBy, ticket, PhaseAt(me, 0));
    forall k | 0 < k < |me.queue|
      ensures HeldOk(known, s.rows, after, me.queue[k], Ready)
    {
      assert HeldOk(known, s.rows, s.startedBy, me.queue[k], PhaseAt(me, k));
      assert me.queue[k].id != ticket.id;
      assert s.rows[me.queue[k].id].key != s.rows[ticket.id].key;
    }
    assert HeldOk(known, s.rows, after, ticket, StartOk)
      && HeldOk(known, s.rows, after, ticket, Failing(FailedRetryable));
    hide HeldOk;
    var ok, failing := me.(phase := StartOk), me.(phase := Failing(FailedRetryable));
    assert forall k :: 0 <= k < |ok.queue| ==> HeldOk(known, s.rows, after, ok.queue[k], PhaseAt(ok, k));
    assert forall k :: 0 <= k < |failing.queue| ==> HeldOk(known, s.rows, after, failing.queue[k], PhaseAt(failing, k));
  }

  lemma {:induction false} StartOkInv(known: set<string>, s: System, w: nat, reached: bool, answered: bool)
    requires Inv(known, s) && Enabled(known, s, Start(w, reached, answered))
    ensures Inv(known, AfterStart(s, w, reached, answered))
  {
    hide RowsOk, HistoryOk, WorkerOk, RowOk, HeldOk;
    var me, ticket := s.workers[w], s.workers[w].queue[0];
    var key := s.rows[ticket.id].key;
    ReadyHead(known, s, me);
    if reached && key !in s.startedBy {
      var t := s.(startedBy := s.startedBy[key := ticket]);
      StartRowsOk(known, s, ticket);
      StartHistory(s, t);
      forall v | 0 <= v < |s.workers| && v != w
        ensures WorkerOk(known, t.rows, t.startedBy, s.workers[v])
      {
        assert Apart(s.workers[w], s.workers[v]);
        StartElsewhere(known, s, ticket, s.workers[v]);
      }
      StartedWorker(known, s, me);
      if answered {
        Replaced(known, s, t, w, me.(phase := StartOk));
      } else {
        Replaced(known, s, t, w, me.(phase := Failing(FailedRetryable)));
      }
    } else if reached && answered {
      Replaced(known, s, s, w, me.(phase := AlreadyStarted));
    } else {
      Replaced(known, s, s, w, me.(phase := Failing(FailedRetryable)));
    }
  }

  lemma {:induction false} StartHistory(s: System, t: System)
    requires HistoryOk(s) && t.rows == s.rows && t.handed == s.handed && t.recorded == s.recorded
    requires t.returned == s.returned
    ensures HistoryOk(t)
  {
  }

  lemma {:induction false} ReadyHead(known: set<string>, s: System, me: Worker)
    requires WorkerOk(known, s.rows, s.startedBy, me) && me.Dispatching? && me.queue != [] && me.phase.Ready?
    requires me.queue[0].id in s.rows
    ensures var row := s.rows[me.queue[0].id];
      && row.state == Starting && row.token == me.queue[0].token
      && WorkerOk(known, s.rows, s.startedBy, me.(phase := Failing(FailedRetryable)))
      && (row.templateId !in known ==> WorkerOk(known, s.rows, s.startedBy, me.(phase := Failing(FailedTerminal))))
      && (row.key in s.startedBy ==> WorkerOk(known, s.rows, s.startedBy, me.(phase := AlreadyStarted)))
  {
    assert HeldOk(known, s.rows, s.startedBy, me.queue[0], PhaseAt(me, 0));
    Rephased(known, s.rows, s.startedBy, me, Failing(FailedRetryable));
    Rephased(known, s.rows, s.startedBy, me, Failing(FailedTerminal));
    Rephased(known, s.rows, s.startedBy, me, AlreadyStarted);
  }

  // ----- committing a claim -----

  lemma {:induction false} CommitElsewhere(
      known: set<string>, rows: Rows, startedBy: StartedBy, me: Worker, other: Worker)
    requires me.Scanning? && WorkerOk(known, rows, startedBy, me) && WorkerOk(known, rows, startedBy, other)
    requires Apart(me, other)
    ensures WorkerOk(known, CommitRows(rows, me.claims), startedBy, other)
  {
    var after := CommitRows(rows, me.claims);
    if other.Dispatching? {
      forall k | 0 <= k < |other.queue|
        ensures HeldOk(known, after, startedBy, other.queue[k], PhaseAt(other, k))
      {
        assert HeldOk(known, rows, startedBy, other.queue[k], PhaseAt(other, k));
        if Claims(me.claims, other.queue[k].id) {
          assert Claimable(rows[other.queue[k].id]);
        }
      }
    } else if other.Scanning? {
      forall k | 0 <= k < |other.claims|
        ensures after[other.claims[k].id] == rows[other.claims[k].id]
      {
        assert !Claims(me.claims, other.claims[k].id);
      }
    }
  }

  lemma {:induction false} CommitRowsOk(known: set<string>, s: System, claims: seq<Ticket>)
    requires RowsOk(known, s)
    requires forall id :: id in s.rows && Claims(claims, id) ==> Claimable(s.rows[id])
    ensures RowsOk(known, s.(rows := CommitRows(s.rows, claims)))
  {
    var t := s.(rows := CommitRows(s.rows, claims));
    forall id | id in t.rows
      ensures RowOk(known, t.startedBy, id, t.rows[id])
    {
      assert RowOk(known, s.startedBy, id, s.rows[id]);
    }
    hide RowOk, Claims;
    assert forall id :: id in t.rows ==> t.rows[id].key == s.rows[id].key;
  }

  /** New tickets are newer than all that were handed out before. */
  lemma {:induction false} CommitHistory(known: set<string>, s: System, me: Worker)
    requires HistoryOk(s) && me.Scanning? && WorkerOk(known, s.rows, s.startedBy, me)
    ensures HistoryOk(s.(rows := CommitRows(s.rows, me.claims), handed := s.handed + TicketsFor(me.claims)))
  {
    var queue := TicketsFor(me.claims);
    var after, handed := CommitRows(s.rows, me.claims), s.handed + queue;
    CommitTokens(known, s.rows, s.startedBy, me);
    hide CommitRows, WorkerOk, Claims;
    forall k | 0 <= k < |s.handed|
      ensures s.handed[k].id in after && s.handed[k].token <= after[s.handed[k].id].token
      ensures Claimable(after[s.handed[k].id]) ==> s.handed[k].token < after[s.handed[k].id].token
    {
    }
    forall k, l | 0 <= k < |s.handed| && 0 <= l < |queue|
      ensures s.handed[k] != queue[l]
    {
      assert queue[l].id in s.rows;
    }
    forall k, l | 0 <= k < l < |handed|
      ensures handed[k] != handed[l]
    {
      if l < |s.handed| {
        assert handed[k] == s.handed[k];
      } else if k >= |s.handed| {
        assert handed[k] == queue[k - |s.handed|] && handed[l] == queue[l - |s.handed|];
      }
    }
    assert forall k :: 0 <= k < |queue| ==>
      after[queue[k].id].token == queue[k].token && !Claimable(after[queue[k].id]);
  }

  lemma {:induction false} CommitTokens(known: set<string>, rows: Rows, startedBy: StartedBy, me: Worker)
    requires me.Scanning? && WorkerOk(known, rows, startedBy, me)
    ensures var after, queue := CommitRows(rows, me.claims), TicketsFor(me.claims);
      && after.Keys == rows.Keys
      && (forall id :: id in rows ==>
            after[id] == rows[id]
            || (Claimable(rows[id]) && after[id].token == rows[id].token + 1 && after[id].state == Starting))
      && (forall id :: id in rows ==> after[id].key == rows[id].key && after[id].templateId == rows[id].templateId)
      && (forall k :: 0 <= k < |queue| ==>
            queue[k].id in rows && Claimable(rows[queue[k].id]) && queue[k].token == rows[queue[k].id].token + 1
            && after[queue[k].id].state == Starting && after[queue[k].id].token == queue[k].token)
      && (forall k, l :: 0 <= k < l < |queue| ==> queue[k].id != queue[l].id && queue[k] != queue[l])
  {
    var after, queue := CommitRows(rows, me.claims), TicketsFor(me.claims);
    forall k | 0 <= k < |queue|
      ensures queue[k].id in rows && Claimable(rows[queue[k].id]) && queue[k].token == rows[queue[k].id].token + 1
      ensures after[queue[k].id].state == Starting && after[queue[k].id].token == queue[k].token
    {
      assert me.claims[k].id == queue[k].id;
      assert Claims(me.claims, queue[k].id);
    }
  }

  lemma {:induction false} CommittedWorker(known: set<string>, s: System, me: Worker)
    requires RowsOk(known, s) && me.Scanning? && WorkerOk(known, s.rows, s.startedBy, me)
    ensures var queue := TicketsFor(me.claims);
      WorkerOk(known, CommitRows(s.rows, me.claims), s.startedBy,
               Dispatching(queue, Ready, Counts(|queue|, 0, 0, 0, 0), []))
  {
    CommitTokens(known, s.rows, s.startedBy, me);
    hide CommitRows, TicketsFor;
    var after, queue := CommitRows(s.rows, me.claims), TicketsFor(me.claims);
    var next := Dispatching(queue, Ready, Counts(|queue|, 0, 0, 0, 0), []);
    forall k | 0 <= k < |queue|
      ensures HeldOk(known, after, s.startedBy, queue[k], PhaseAt(next, k))
    {
      assert RowOk(known, s.startedBy, queue[k].id, s.rows[queue[k].id]);
    }
  }

  lemma {:induction false} CommitApart(known: set<string>, s: System, w: nat, v: nat)
    requires WorkersOk(known, s) && w < |s.workers| && v < |s.workers| && v != w && s.workers[w].Scanning?
    ensures var queue := TicketsFor(s.workers[w].claims);
      var next := Dispatching(queue, Ready, Counts(|queue|, 0, 0, 0, 0), []);
      Apart(next, s.workers[v]) && Apart(s.workers[v], next)
  {
    var me, other := s.workers[w], s.workers[v];
    CommitTokens(known, s.rows, s.startedBy, me);
    var queue := TicketsFor(me.claims);
    assert WorkerOk(known, s.rows, s.startedBy, other);
    hide TicketsFor, CommitRows;
    if other.Dispatching? {
      forall k, l | 0 <= k < |queue| && 0 <= l < |other.queue|
        ensures queue[k] != other.queue[l]
      {
        assert HeldOk(known, s.rows, s.startedBy, other.queue[l], PhaseAt(other, l));
      }
    }
  }

  lemma {:induction false} CommitOk(known: set<string>, s: System, w: nat)
    requires Inv(known, s) && Enabled(known, s, Commit(w))
    ensures Inv(known, AfterCommit(s, w))
  {
    var me := s.workers[w];
    var queue := TicketsFor(me.claims);
    var next := Dispatching(queue, Ready, Counts(|queue|, 0, 0, 0, 0), []);
    var t := s.(rows := CommitRows(s.rows, me.claims), handed := s.handed + queue);
    assert WorkerOk(known, s.rows, s.startedBy, me);
    forall id | id in s.rows && Claims(me.claims, id)
      ensures Claimable(s.rows[id])
    {
    }
    hide RowsOk, HistoryOk, WorkerOk, RowOk, HeldOk, CommitRows, TicketsFor, Claims, Apart;
    CommitRowsOk(known, s, me.claims);
    RowsOnly(known, s.(rows := CommitRows(s.rows, me.claims)), t);
    CommitHistory(known, s, me);
    CommittedWorker(known, s, me);
    forall v | 0 <= v < |s.workers| && v != w
      ensures WorkerOk(known, t.rows, t.startedBy, s.workers[v]) && Apart(next, s.workers[v])
      ensures Apart(s.workers[v], next)
    {
      CommitElsewhere(known, s.rows, s.startedBy, me, s.workers[v]);
      CommitApart(known, s, w, v);
    }
    RowsOnly(known, t, AfterCommit(s, w));
    StartHistory(t, AfterCommit(s, w));
  }

  // ----- new intents -----

  lemma {:induction false} EnqueueOk(known: set<string>, s: System, id: string, row: Row)
    requires Inv(known, s) && Enabled(known, s, Enqueue(id, row))
    ensures Inv(known, s.(rows := s.rows[id := row]))
  {
    var t := s.(rows := s.rows[id := row]);
    assert row.key !in s.startedBy;
    assert RowsOk(known, t) by {
      hide WorkersOk, HistoryOk;
    }
    assert HistoryOk(t) by {
      hide WorkersOk, RowsOk;
    }
    hide RowsOk, HistoryOk, RowOk, Apart;
    forall v | 0 <= v < |s.workers|
      ensures WorkerOk(known, t.rows, t.startedBy, t.workers[v])
    {
      assert WorkerOk(known, s.rows, s.startedBy, s.workers[v]);
      EnqueueElsewhere(known, s.rows, s.startedBy, id, row, s.workers[v]);
    }
  }

  lemma {:induction false} EnqueueElsewhere(
      known: set<string>, rows: Rows, startedBy: StartedBy, id: string, row: Row, other: Worker)
    requires id !in rows && WorkerOk(known, rows, startedBy, other)
    ensures WorkerOk(known, rows[id := row], startedBy, other)
  {
    if other.Dispatching? {
      forall k | 0 <= k < |other.queue|
        ensures HeldOk(known, rows[id := row], startedBy, other.queue[k], PhaseAt(other, k))
      {
        assert HeldOk(known, rows, startedBy, other.queue[k], PhaseAt(other, k));
      }
    }
  }

  lemma {:induction false} ReturnHistory(known: set<string>, s: System, w: nat)
    requires HistoryOk(s) && WorkersOk(known, s) && Enabled(known, s, Return(w))
    ensures HistoryOk(s.(returned := s.returned + [Pass(s.workers[w].done, s.workers[w].counts)]))
  {
    assert WorkerOk(known, s.rows, s.startedBy, s.workers[w]);
    hide Apart, HeldOk;
  }

  /** Every enabled step keeps the invariant. */
  lemma {:induction false} StepKeepsInv(known: set<string>, s: System, e: Event)
    requires Inv(known, s) && Enabled(known, s, e)
    ensures Inv(known, Apply(known, s, e))
  {
    hide RowsOk, HistoryOk, WorkerOk, RowOk, HeldOk, Apart, AfterClaimRow, AfterCommit, AfterStart, AfterRecord, Locked;
    match e
    case Enqueue(id, row) => EnqueueOk(known, s, id, row);
    case Snapshot(w, candidates) =>
      EmptyHands(known, s.rows, s.startedBy, candidates);
      Replaced(known, s, s, w, Scanning(candidates, []));
    case ClaimRow(w) =>
      ClaimRowOk(known, s, w);
      var t := AfterClaimRow(s, w);
      RowsOnly(known, s, t);
      StartHistory(s, t);
    case Commit(w) => CommitOk(known, s, w);
    case Crash(w) =>
      EmptyHands(known, s.rows, s.startedBy, []);
      Replaced(known, s, s, w, Idle);
    case ResolveUnknown(w) =>
      ReadyHead(known, s, s.workers[w]);
      Replaced(known, s, s, w, s.workers[w].(phase := Failing(FailedTerminal)));
    case Start(w, reached, answered) => StartOkInv(known, s, w, reached, answered);
    case Record(w, reached, answered) => RecordOk(known, s, w, reached, answered);
    case Return(w) =>
      EmptyHands(known, s.rows, s.startedBy, []);
      ReturnHistory(known, s, w);
      var t := s.(returned := s.returned + [Pass(s.workers[w].done, s.workers[w].counts)]);
      RowsOnly(known, s, t);
      Replaced(known, s, t, w, Idle);
  }

  lemma {:induction false} EmptyHands(known: set<string>, rows: Rows, startedBy: StartedBy, candidates: seq<Ticket>)
    ensures WorkerOk(known, rows, startedBy, Idle) && WorkerOk(known, rows, startedBy, Scanning(candidates, []))
  {
  }
}
