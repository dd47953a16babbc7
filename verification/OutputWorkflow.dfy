/** Idempotent triggering of output workflows. */
module OutputWorkflow {
  import opened Prelude
  import opened Sorting
  import opened StableJson

  datatype Authorization = SourceKind | DeliveryKind

  /** The trigger context; `carried` stands for the parts no fingerprint looks at. */
  datatype Context = Context(
    assetId: string, kind: Authorization, deliveryScopeId: Option<string>, idempotencyKey: string,
    outputWorkflowId: string, outputParameters: Option<seq<Member>>, versionId: string, carried: string)

  datatype RunState = Pending | Running | Complete | Failed

  datatype RunRecord = RunRecord(
    expiresAt: Option<nat>, outputWorkflowId: string, runId: string, state: RunState, url: Option<string>)

  datatype TriggerError = IdempotencyConflict(key: string) | UnknownWorkflow(id: string) | HandlerThrew

  /** A handler returns a record or throws. */
  type Handler = (Context, string) -> Option<RunRecord>

  function KindText(kind: Authorization): string {
    match kind
    case SourceKind => "source"
    case DeliveryKind => "delivery"
  }

  /** Absent and empty scopes are both left out. */
  function ScopeMembers(scope: Option<string>): seq<Member> {
    if scope.Some? && scope.value != "" then [Member(NameOf(DeliveryScopeId), Text(scope.value))] else []
  }

  function ParametersValue(c: Context): Json {
    match c.outputParameters
    case Some(members) => Object(members)
    case None => Null
  }

  datatype Field = AssetId | AuthorizationKind | DeliveryScopeId | OutputParameters | OutputWorkflowId | VersionId

  function NameOf(f: Field): string {
    match f
    case AssetId => "assetId"
    case AuthorizationKind => "authorizationKind"
    case DeliveryScopeId => "deliveryScopeId"
    case OutputParameters => "outputParameters"
    case OutputWorkflowId => "outputWorkflowId"
    case VersionId => "versionId"
  }

  function FingerprintValue(c: Context): Json {
    Object([Member(NameOf(AssetId), Text(c.assetId)), Member(NameOf(AuthorizationKind), Text(KindText(c.kind)))]
           + ScopeMembers(c.deliveryScopeId)
           + [Member(NameOf(OutputParameters), ParametersValue(c)),
              Member(NameOf(OutputWorkflowId), Text(c.outputWorkflowId)),
              Member(NameOf(VersionId), Text(c.versionId))])
  }

  function Fingerprint(before: KeyOrder, c: Context): string {
    Print(before, FingerprintValue(c))
  }

  // ----- when two requests count as the same -----

  function ScopeOf(c: Context): Option<string> {
    Present(c.deliveryScopeId)
  }

  ghost predicate SameRequest(c: Context, d: Context) {
    && c.assetId == d.assetId && c.kind == d.kind && ScopeOf(c) == ScopeOf(d)
    && c.outputWorkflowId == d.outputWorkflowId && c.versionId == d.versionId
    && SameParameters(c.outputParameters, d.outputParameters)
  }

  /** Parameters count up to key order and undefined entries; none are not the same as empty ones. */
  ghost predicate SameParameters(p: Option<seq<Member>>, q: Option<seq<Member>>) {
    match (p, q)
    case (None, None) => true
    case (Some(members), Some(others)) => Mean(Object(members)) == Mean(Object(others))
    case _ => false
  }

  lemma {:induction false} ParametersMean(c: Context, d: Context)
    ensures Mean(ParametersValue(c)) == Mean(ParametersValue(d))
       <==> SameParameters(c.outputParameters, d.outputParameters)
  {
    ObjectsAreObjects(c);
    ObjectsAreObjects(d);
  }

  lemma {:induction false} ObjectsAreObjects(c: Context)
    ensures Mean(ParametersValue(c)).MNull? <==> c.outputParameters.None?
  {
  }

  ghost predicate GoodContext(c: Context) {
    WellFormed(ParametersValue(c))
  }

  lemma {:induction false} NamesDiffer(f: Field, g: Field)
    requires f != g
    ensures NameOf(f) != NameOf(g)
  {
    var x, y := NameOf(f), NameOf(g);
    if |x| == |y| {
      assert x[0] != y[0] || x[|x| - 1] != y[|y| - 1];
    }
  }

  lemma {:induction false} KindTextsDiffer(k: Authorization, l: Authorization)
    requires KindText(k) == KindText(l)
    ensures k == l
  {
    assert |KindText(SourceKind)| != |KindText(DeliveryKind)|;
  }

  /** The field that each member of the fingerprinted object carries. */
  function FieldsOf(c: Context): seq<Field> {
    if ScopeOf(c).Some? then
      [AssetId, AuthorizationKind, DeliveryScopeId, OutputParameters, OutputWorkflowId, VersionId]
    else [AssetId, AuthorizationKind, OutputParameters, OutputWorkflowId, VersionId]
  }

  function FieldValue(c: Context, f: Field): Json
    requires f.DeliveryScopeId? ==> ScopeOf(c).Some?
  {
    match f
    case AssetId => Text(c.assetId)
    case AuthorizationKind => Text(KindText(c.kind))
    case DeliveryScopeId => Text(ScopeOf(c).value)
    case OutputParameters => ParametersValue(c)
    case OutputWorkflowId => Text(c.outputWorkflowId)
    case VersionId => Text(c.versionId)
  }

  lemma {:induction false} MembersAt(c: Context)
    ensures FingerprintValue(c).Object? && |FingerprintValue(c).members| == |FieldsOf(c)|
    ensures forall i :: 0 <= i < |FieldsOf(c)| ==>
      FingerprintValue(c).members[i] == Member(NameOf(FieldsOf(c)[i]), FieldValue(c, FieldsOf(c)[i]))
    ensures forall i, j :: 0 <= i < j < |FieldsOf(c)| ==> FieldsOf(c)[i] != FieldsOf(c)[j]
  {
    hide NameOf, KindText;
  }

  lemma {:induction false} FingerprintWellFormed(c: Context)
    requires GoodContext(c)
    ensures WellFormed(FingerprintValue(c))
  {
    hide NameOf, KindText, FingerprintValue;
    MembersAt(c);
    var members, fields := FingerprintValue(c).members, FieldsOf(c);
    forall i, j | 0 <= i < j < |members|
      ensures members[i].key != members[j].key
    {
      NamesDiffer(fields[i], fields[j]);
    }
    forall i | 0 <= i < |members|
      ensures WellFormed(members[i].value)
    {
      if fields[i].OutputParameters? {
        assert members[i].value == ParametersValue(c);
      } else {
        assert members[i].value.Text?;
      }
    }
  }

  ghost predicate HasField(c: Context, f: Field) {
    f.DeliveryScopeId? ==> ScopeOf(c).Some?
  }

  function FingerprintMembers(c: Context): map<string, Meaning> {
    match Mean(FingerprintValue(c))
    case MObject(members) => members
    case _ => map[]
  }

  lemma {:induction false} FingerprintMembersFold(c: Context)
    ensures Mean(FingerprintValue(c)) == MObject(FingerprintMembers(c))
    ensures var v := FingerprintValue(c);
      v.Object? && FingerprintMembers(c) == MeanMembers(v, v.members)
  {
    hide FingerprintValue;
    MembersAt(c);
  }

  lemma {:induction false} FieldMeaning(c: Context, f: Field)
    requires GoodContext(c)
    ensures NameOf(f) in FingerprintMembers(c) <==> HasField(c, f)
    ensures HasField(c, f) ==> FingerprintMembers(c)[NameOf(f)] == Mean(FieldValue(c, f))
  {
    hide Mean, MeanMembers, NameOf, FingerprintValue, FieldsOf, FieldValue, WellFormed, FingerprintMembers;
    FingerprintMembersFold(c);
    FingerprintKeys(c);
    if HasField(c, f) {
      var i := FieldIndex(c, f);
      FieldEntry(c, i);
    } else if NameOf(f) in FingerprintMembers(c) {
      var g: Field :| HasField(c, g) && NameOf(g) == NameOf(f);
      NamesDiffer(f, g);
    }
  }

  lemma {:induction false} FieldIndex(c: Context, f: Field) returns (i: nat)
    requires HasField(c, f)
    ensures i < |FieldsOf(c)| && FieldsOf(c)[i] == f
  {
    var k := if ScopeOf(c).Some? then 1 else 0;
    i := match f
      case AssetId => 0
      case AuthorizationKind => 1
      case DeliveryScopeId => 2
      case OutputParameters => 2 + k
      case OutputWorkflowId => 3 + k
      case VersionId => 4 + k;
  }

  lemma {:induction false} FieldEntry(c: Context, i: nat)
    requires GoodContext(c) && i < |FieldsOf(c)| && HasField(c, FieldsOf(c)[i])
    ensures var f := FieldsOf(c)[i];
      NameOf(f) in FingerprintMembers(c) && FingerprintMembers(c)[NameOf(f)] == Mean(FieldValue(c, f))
  {
    hide Mean, MeanMembers, NameOf, FingerprintValue, FieldsOf, FingerprintMembers;
    var v := FingerprintValue(c);
    FingerprintMembersFold(c);
    MembersAt(c);
    FingerprintWellFormed(c);
    assert DistinctKeys(v.members);
    assert !v.members[i].value.Undefined?;
    MeanMembersValue(v, v.members, i);
  }

  /** The fingerprinted object has no keys but those of its fields. */
  lemma {:induction false} FingerprintKeys(c: Context)
    ensures forall k :: k in FingerprintMembers(c) ==> exists f :: HasField(c, f) && NameOf(f) == k
  {
    hide Mean, MeanMembers, NameOf, FingerprintValue, FingerprintMembers, FieldValue;
    FingerprintMembersFold(c);
    MembersAt(c);
    var v := FingerprintValue(c);
    MeanMembersKeys(v, v.members);
    forall k | k in FingerprintMembers(c)
      ensures exists f :: HasField(c, f) && NameOf(f) == k
    {
      assert HasKey(v.members, k);
      var m :| m in v.members && m.key == k && !m.value.Undefined?;
      var i :| 0 <= i < |v.members| && v.members[i] == m;
      assert HasField(c, FieldsOf(c)[i]);
    }
  }

  /** Field by field, two requests have the same fingerprinted object. */
  ghost predicate SameField(c: Context, d: Context, f: Field) {
    && (HasField(c, f) <==> HasField(d, f))
    && (HasField(c, f) && HasField(d, f) ==> Mean(FieldValue(c, f)) == Mean(FieldValue(d, f)))
  }

  lemma {:induction false} SameFieldsSameMembers(c: Context, d: Context)
    requires GoodContext(c) && GoodContext(d)
    requires forall f :: SameField(c, d, f)
    ensures FingerprintMembers(c) == FingerprintMembers(d)
  {
    hide Mean, NameOf, FingerprintMembers, FieldValue, HasField, GoodContext;
    FingerprintKeys(c);
    FingerprintKeys(d);
    forall k | k in FingerprintMembers(c)
      ensures k in FingerprintMembers(d) && FingerprintMembers(c)[k] == FingerprintMembers(d)[k]
    {
      var f :| HasField(c, f) && NameOf(f) == k;
      assert SameField(c, d, f);
      FieldMeaning(c, f);
      FieldMeaning(d, f);
    }
    forall k | k in FingerprintMembers(d)
      ensures k in FingerprintMembers(c)
    {
      var f :| HasField(d, f) && NameOf(f) == k;
      assert SameField(c, d, f);
      FieldMeaning(c, f);
    }
  }

  lemma {:induction false} SameMembersSameField(c: Context, d: Context, f: Field)
    requires GoodContext(c) && GoodContext(d) && FingerprintMembers(c) == FingerprintMembers(d)
    ensures SameField(c, d, f)
  {
    hide Mean, NameOf, FingerprintMembers, FieldValue, HasField, GoodContext;
    FieldMeaning(c, f);
    FieldMeaning(d, f);
  }

  lemma {:induction false} FieldsAreTheRequest(c: Context, d: Context)
    ensures (forall f :: SameField(c, d, f)) <==> SameRequest(c, d)
  {
    hide ParametersValue, KindText, SameParameters;
    ParametersMean(c, d);
    if forall f :: SameField(c, d, f) {
      assert SameField(c, d, AssetId) && SameField(c, d, AuthorizationKind) && SameField(c, d, DeliveryScopeId);
      assert SameField(c, d, OutputParameters) && SameField(c, d, OutputWorkflowId) && SameField(c, d, VersionId);
      KindTextsDiffer(c.kind, d.kind);
    }
  }

  /** Fingerprints are equal exactly for the same request: parameters count up to key order and undefined entries. */
  lemma {:induction false} FingerprintMeaning(before: KeyOrder, c: Context, d: Context)
    requires TotalOrder(before) && GoodContext(c) && GoodContext(d)
    ensures Fingerprint(before, c) == Fingerprint(before, d) <==> SameRequest(c, d)
  {
    hide FingerprintValue, TotalOrder, WellFormed, Mean, GoodContext, SameRequest, SameField, FingerprintMembers, Print;
    FingerprintWellFormed(c);
    FingerprintWellFormed(d);
    PrintIsCanonical(before, FingerprintValue(c), FingerprintValue(d));
    FingerprintMembersFold(c);
    FingerprintMembersFold(d);
    FieldsAreTheRequest(c, d);
    if FingerprintMembers(c) == FingerprintMembers(d) {
      forall f
        ensures SameField(c, d, f)
      {
        SameMembersSameField(c, d, f);
      }
    }
    if SameRequest(c, d) {
      SameFieldsSameMembers(c, d);
    }
  }

  // ----- the store -----

  datatype StoredRun = StoredRun(fingerprint: string, record: RunRecord)

  type Runs = map<string, StoredRun>

  /** Cloning drops an empty URL. */
  function Clone(r: RunRecord): RunRecord {
    r.(url := Present(r.url))
  }

  function Trigger(before: KeyOrder, handlers: map<string, Handler>, runs: Runs, c: Context, runId: string)
    : (Runs, Result<RunRecord, TriggerError>)
  {
    var fingerprint := Fingerprint(before, c);
    if c.idempotencyKey in runs then
      if runs[c.idempotencyKey].fingerprint != fingerprint then (runs, Err(IdempotencyConflict(c.idempotencyKey)))
      else (runs, Ok(Clone(runs[c.idempotencyKey].record)))
    else if c.outputWorkflowId !in handlers then (runs, Err(UnknownWorkflow(c.outputWorkflowId)))
    else
      match handlers[c.outputWorkflowId](c, runId)
      case None => (runs, Err(HandlerThrew))
      case Some(record) => (runs[c.idempotencyKey := StoredRun(fingerprint, Clone(record))], Ok(Clone(record)))
  }

  class InMemoryOutputWorkflowStore {
    const before: KeyOrder
    const handlers: map<string, Handler>
    var runsByIdempotencyKey: Runs

    constructor (before: KeyOrder, handlers: map<string, Handler>)
      ensures this.before == before && this.handlers == handlers && runsByIdempotencyKey == map[]
    {
      this.before := before;
      this.handlers := handlers;
      runsByIdempotencyKey := map[];
    }

    method TriggerOutputWorkflow(context: Context, runId: string) returns (result: Result<RunRecord, TriggerError>)
      modifies this
      ensures (runsByIdempotencyKey, result) == Trigger(before, handlers, old(runsByIdempotencyKey), context, runId)
    {
      var fingerprint := Fingerprint(before, context);
      if context.idempotencyKey in runsByIdempotencyKey {
        var existing := runsByIdempotencyKey[context.idempotencyKey];
        if existing.fingerprint != fingerprint {
          return Err(IdempotencyConflict(context.idempotencyKey));
        }
        return Ok(Clone(existing.record));
      }
      if context.outputWorkflowId !in handlers {
        return Err(UnknownWorkflow(context.outputWorkflowId));
      }
      var handler := handlers[context.outputWorkflowId];
      var record := handler(context, runId);
      if record.None? {
        return Err(HandlerThrew);
      }
      runsByIdempotencyKey :=
        runsByIdempotencyKey[context.idempotencyKey := StoredRun(fingerprint, Clone(record.value))];
      return Ok(Clone(record.value));
    }
  }

  // ----- runs of triggers -----

  datatype Call = Call(context: Context, runId: string)

  function RunsAfter(before: KeyOrder, handlers: map<string, Handler>, calls: seq<Call>): Runs
    decreases |calls|
  {
    if calls == [] then map[]
    else
      var last := calls[|calls| - 1];
      Trigger(before, handlers, RunsAfter(before, handlers, calls[..|calls| - 1]), last.context, last.runId).0
  }

  function Reply(
      before: KeyOrder, handlers: map<string, Handler>, calls: seq<Call>, i: nat): Result<RunRecord, TriggerError>
    requires i < |calls|
  {
    Trigger(before, handlers, RunsAfter(before, handlers, calls[..i]), calls[i].context, calls[i].runId).1
  }

  /** Call `i` goes on to run a handler instead of replaying or refusing. */
  predicate RunsHandler(before: KeyOrder, handlers: map<string, Handler>, calls: seq<Call>, i: nat)
    requires i < |calls|
  {
    var c := calls[i].context;
    c.idempotencyKey !in RunsAfter(before, handlers, calls[..i]) && c.outputWorkflowId in handlers
  }

  /** Call `i` is the first with its key to have succeeded. */
  ghost predicate Founds(before: KeyOrder, handlers: map<string, Handler>, calls: seq<Call>, i: nat)
    requires i < |calls|
  {
    RunsHandler(before, handlers, calls, i) && Reply(before, handlers, calls, i).Ok?
  }

  lemma {:induction false} RecordsStay(
      before: KeyOrder, handlers: map<string, Handler>, calls: seq<Call>, key: string, i: nat)
    requires i <= |calls| && key in RunsAfter(before, handlers, calls[..i])
    ensures key in RunsAfter(before, handlers, calls)
    ensures RunsAfter(before, handlers, calls)[key] == RunsAfter(before, handlers, calls[..i])[key]
    decreases |calls|
  {
    hide Fingerprint;
    if i == |calls| {
      assert calls[..i] == calls;
    } else {
      var front := calls[..|calls| - 1];
      assert front[..i] == calls[..i];
      RecordsStay(before, handlers, front, key, i);
    }
  }

  /**
   * Over any run of triggers, once a key has succeeded its handler never runs again; a later
   * trigger with the key gets the same record if it asks for the same thing, and a conflict
   * exactly if it does not.
   */
  lemma {:induction false} ReplayOrConflict(
      before: KeyOrder, handlers: map<string, Handler>, calls: seq<Call>, i: nat, j: nat)
    requires TotalOrder(before) && i < j < |calls| && Founds(before, handlers, calls, i)
    requires calls[i].context.idempotencyKey == calls[j].context.idempotencyKey
    requires GoodContext(calls[i].context) && GoodContext(calls[j].context)
    ensures !RunsHandler(before, handlers, calls, j)
    ensures Reply(before, handlers, calls, j)
      == if SameRequest(calls[i].context, calls[j].context) then Reply(before, handlers, calls, i)
         else Err(IdempotencyConflict(calls[j].context.idempotencyKey))
  {
    hide Fingerprint, SameRequest, TotalOrder, GoodContext;
    var c, key := calls[i].context, calls[i].context.idempotencyKey;
    assert calls[..i + 1][..i] == calls[..i];
    var after := RunsAfter(before, handlers, calls[..i + 1]);
    assert key in after && after[key].fingerprint == Fingerprint(before, c);
    assert calls[..j][..i + 1] == calls[..i + 1];
    RecordsStay(before, handlers, calls[..j], key, i + 1);
    FingerprintMeaning(before, c, calls[j].context);
  }

  /** Before a key has succeeded, a trigger with it is never refused as a conflict. */
  lemma {:induction false} NoConflictBeforeSuccess(
      before: KeyOrder, handlers: map<string, Handler>, calls: seq<Call>, j: nat)
    requires j < |calls| && Reply(before, handlers, calls, j).Err?
    requires Reply(before, handlers, calls, j).error.IdempotencyConflict?
    ensures exists i ::
      0 <= i < j && calls[i].context.idempotencyKey == calls[j].context.idempotencyKey
        && Founds(before, handlers, calls, i)
  {
    hide Fingerprint;
    var i := Founder(before, handlers, calls[..j], calls[j].context.idempotencyKey);
    assert calls[..j][..i] == calls[..i];
  }

  lemma {:induction false} Founder(before: KeyOrder, handlers: map<string, Handler>, calls: seq<Call>, key: string)
    returns (i: nat)
    requires key in RunsAfter(before, handlers, calls)
    ensures i < |calls| && calls[i].context.idempotencyKey == key && Founds(before, handlers, calls, i)
    decreases |calls|
  {
    hide Fingerprint;
    var front := calls[..|calls| - 1];
    if key in RunsAfter(before, handlers, front) {
      i := Founder(before, handlers, front, key);
      assert front[..i] == calls[..i];
    } else {
      i := |calls| - 1;
    }
  }

  lemma {:induction false} FounderBefore(
      before: KeyOrder, handlers: map<string, Handler>, calls: seq<Call>, j: nat, key: string)
    returns (i: nat)
    requires j <= |calls| && key in RunsAfter(before, handlers, calls[..j])
    ensures i < j && calls[i].context.idempotencyKey == key && Reply(before, handlers, calls, i).Ok?
  {
    hide Fingerprint;
    i := Founder(before, handlers, calls[..j], key);
    assert calls[..j][..i] == calls[..i];
  }

  /**
   * As long as no trigger under its key has succeeded, a trigger is answered by its own handler: with the
   * record it returned, an empty URL left out, or with the reason why there is none.
   */
  lemma {:induction false} FirstAnswer(
      before: KeyOrder, handlers: map<string, Handler>, calls: seq<Call>, j: nat)
    requires j < |calls|
    requires forall i :: 0 <= i < j && calls[i].context.idempotencyKey == calls[j].context.idempotencyKey ==>
      Reply(before, handlers, calls, i).Err?
    ensures var c, reply := calls[j].context, Reply(before, handlers, calls, j);
      if c.outputWorkflowId !in handlers then reply == Err(UnknownWorkflow(c.outputWorkflowId))
      else
        match handlers[c.outputWorkflowId](c, calls[j].runId)
        case None => reply == Err(HandlerThrew)
        case Some(record) =>
          && reply.Ok? && reply.value.expiresAt == record.expiresAt && reply.value.runId == record.runId
          && reply.value.outputWorkflowId == record.outputWorkflowId && reply.value.state == record.state
          && reply.value.url == if record.url == Some("") then None else record.url
  {
    hide Fingerprint;
    var key := calls[j].context.idempotencyKey;
    if key in RunsAfter(before, handlers, calls[..j]) {
      var i := FounderBefore(before, handlers, calls, j, key);
      assert false;
    }
  }
}
