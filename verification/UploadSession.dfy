/** The in-memory upload-session store: issuing sessions, and completing them around a suspended canonicalisation. */
module UploadSession {
  import opened Prelude

  datatype Checksum = Checksum(algorithm: string, value: string)

  datatype VersionState =
    | SessionCreated | Uploaded | Canonicalizing | Canonical | Processing
    | FailedValidation | FailedRetryable | Quarantined

  datatype SessionState = Open | BytesUploaded | Expired | Terminated | Invalid

  /** Idempotency keys carry the caller's scope; the two operations keep apart. */
  datatype Key = Key(scope: string, key: string)

  datatype IssueInput = IssueInput(
    assetId: Option<string>, assetOwner: string, scope: string, checksum: Checksum, contentType: string,
    expiresAt: Time, filename: string, idempotencyKey: string, requestHash: string, objectKey: string,
    namespaceId: string, tenantId: Option<string>, byteLength: int)

  /** The ids the generator would answer next, by prefix. */
  datatype Ids = Ids(asset: string, version: string, session: string)

  datatype Asset = Asset(id: string, owner: string, namespaceId: string, tenantId: Option<string>)

  datatype Issued = Issued(
    assetId: string, assetOwner: string, checksum: Checksum, contentType: string, expiresAt: Time, filename: string,
    objectKey: string, namespaceId: string, tenantId: Option<string>, sessionId: string, versionId: string,
    versionNumber: nat, byteLength: int)

  datatype DispatchSummary = DispatchSummary(dispatchId: string, pending: bool, workflowKey: string)

  /** Snapshots and the evidence kept of them are carried as texts. */
  type Snapshot = string

  type Evidence = string

  /** How a snapshot becomes evidence and evidence a snapshot again. */
  datatype Conversions = Conversions(toEvidence: Snapshot -> Evidence, toSnapshot: Evidence -> Snapshot)

  datatype Version = Version(
    assetId: string, assetOwner: string, checksum: Checksum, filename: string, objectKey: string, namespaceId: string,
    tenantId: Option<string>, id: string, number: nat, contentType: string, state: VersionState, byteLength: int,
    evidence: Option<Evidence>, dispatch: Option<DispatchSummary>)

  datatype Completion = Completion(
    assetId: string, canonicalSource: Snapshot, sessionId: string, versionId: string, versionState: VersionState,
    dispatch: DispatchSummary)

  datatype Session = Session(
    assetId: string, checksum: Checksum, contentType: string, expiresAt: Time, filename: string, objectKey: string,
    namespaceId: string, tenantId: Option<string>, id: string, versionId: string, state: SessionState,
    completionHash: Option<string>, completion: Option<Completion>)

  datatype IssueRecord = IssueRecord(requestHash: string, result: Issued)

  datatype CompletionRecord = CompletionRecord(requestHash: string, result: Completion)

  datatype Store = Store(
    assets: map<string, Asset>, versions: map<string, Version>, versionsByAsset: map<string, seq<string>>,
    sessions: map<string, Session>, issueRecords: map<Key, IssueRecord>, completionRecords: map<Key, CompletionRecord>)

  const EMPTY := Store(map[], map[], map[], map[], map[], map[])

  // ----- issuing -----

  datatype IssueReply =
    | IssuedAs(result: Issued, isDuplicate: bool)
    | IssueConflict(key: string)
    | AssetNotFound(id: string)

  function ResolveAsset(s: Store, input: IssueInput, ids: Ids): Option<Asset> {
    match Present(input.assetId)
    case Some(id) => if id in s.assets then Some(s.assets[id]) else None
    case None => Some(Asset(ids.asset, input.assetOwner, input.namespaceId, Present(input.tenantId)))
  }

  function VersionsOf(s: Store, assetId: string): seq<string> {
    if assetId in s.versionsByAsset then s.versionsByAsset[assetId] else []
  }

  function NewVersion(input: IssueInput, asset: Asset, ids: Ids, number: nat): Version {
    Version(asset.id, asset.owner, input.checksum, input.filename, input.objectKey, asset.namespaceId,
            Present(asset.tenantId),
            ids.version, number, input.contentType, SessionCreated, input.byteLength, None, None)
  }

  function NewSession(input: IssueInput, asset: Asset, ids: Ids): Session {
    Session(asset.id, input.checksum, input.contentType, input.expiresAt, input.filename, input.objectKey,
            asset.namespaceId,
            Present(asset.tenantId), ids.session, ids.version, Open, None, None)
  }

  function NewResult(input: IssueInput, asset: Asset, ids: Ids, number: nat): Issued {
    Issued(asset.id, asset.owner, input.checksum, input.contentType, input.expiresAt, input.filename, input.objectKey,
           asset.namespaceId, Present(asset.tenantId), ids.session, ids.version, number, input.byteLength)
  }

  function Issue(s: Store, input: IssueInput, ids: Ids): (Store, IssueReply) {
    var key := Key(input.scope, input.idempotencyKey);
    if key in s.issueRecords then
      if s.issueRecords[key].requestHash != input.requestHash then (s, IssueConflict(input.idempotencyKey))
      else (s, IssuedAs(s.issueRecords[key].result, true))
    else
      match ResolveAsset(s, input, ids)
      case None => (s, AssetNotFound(input.assetId.GetOr("")))
      case Some(asset) =>
        var known := VersionsOf(s, asset.id);
        var result := NewResult(input, asset, ids, |known| + 1);
        (Store(if Present(input.assetId).Some? then s.assets else s.assets[asset.id := asset],
               s.versions[ids.version := NewVersion(input, asset, ids, |known| + 1)],
               s.versionsByAsset[asset.id := known + [ids.version]],
               s.sessions[ids.session := NewSession(input, asset, ids)],
               s.issueRecords[key := IssueRecord(input.requestHash, result)],
               s.completionRecords),
         IssuedAs(result, false))
  }

  // ----- completing -----

  datatype Staged = Staged(
    objectKey: string, byteLength: int, checksum: Checksum, descriptorChecksum: Option<Checksum>, descriptor: string)

  datatype CompleteInput = CompleteInput(
    scope: string, idempotencyKey: string, requestHash: string, staged: Staged, sessionId: string,
    workflowTemplate: Option<string>)

  datatype Problem = ValidationFailed | ChecksumMismatch

  datatype AnyState = OfSession(s: SessionState) | OfVersion(v: VersionState)

  datatype Reply =
    | Completed(result: Completion, isDuplicate: bool)
    | NotFound(id: string)
    | MissingVersion(id: string)
    | Conflict(key: string)
    | SessionExpired(id: string)
    | InvalidTransition(id: string, from: AnyState)
    | Rejected(id: string, problem: Problem)
    | CanonicalizationFailed(id: string)

  /** Completing either answers at once or waits for the canonicalisation of a version. */
  datatype Begun = Answered(reply: Reply) | Suspended

  const DEFAULT_TEMPLATE := "asset-derivation-v1"

  function WorkflowKey(v: Version, template: string): string {
    v.namespaceId + ":" + v.assetId + ":" + v.id + ":" + template
  }

  function Rebuild(c: Conversions, sessionId: string, v: Version): Option<Completion> {
    if (v.state != Canonical && v.state != Processing) || v.evidence.None? || v.dispatch.None? then None
    else Some(Completion(v.assetId, c.toSnapshot(v.evidence.value), sessionId, v.id, v.state, v.dispatch.value))
  }

  function Check(session: Session, v: Version, staged: Staged): Option<Problem> {
    if staged.objectKey != session.objectKey then Some(ValidationFailed)
    else if staged.byteLength != v.byteLength then Some(ValidationFailed)
    else if staged.checksum != v.checksum || staged.descriptorChecksum != Some(v.checksum) then Some(ChecksumMismatch)
    else None
  }

  predicate Retryable(state: VersionState) {
    state == SessionCreated || state == Uploaded || state == FailedRetryable
  }

  function CompletionKey(input: CompleteInput): Key {
    Key(input.scope, input.idempotencyKey)
  }

  function PutSession(s: Store, sessionId: string, session: Session): Store {
    s.(sessions := s.sessions[sessionId := session])
  }

  /** Both the session and its version. */
  function PutBoth(s: Store, sessionId: string, session: Session, v: Version): Store {
    s.(sessions := s.sessions[sessionId := session], versions := s.versions[session.versionId := v])
  }

  function PutRecord(s: Store, input: CompleteInput, result: Completion): Store {
    s.(completionRecords := s.completionRecords[CompletionKey(input) := CompletionRecord(input.requestHash, result)])
  }

  /** A completion of a session that has no completion result yet. */
  function BeginOpen(c: Conversions, s: Store, input: CompleteInput, session: Session, v: Version): (Store, Begun) {
    if session.state == Terminated || session.state == Invalid then
      (s, Answered(InvalidTransition(input.sessionId, OfSession(session.state))))
    else
      var replay := Rebuild(c, input.sessionId, v);
      if !Retryable(v.state) && replay.None? then (s, Answered(InvalidTransition(input.sessionId, OfVersion(v.state))))
      else
        match Check(session, v, input.staged)
        case Some(problem) =>
          (PutBoth(s, input.sessionId, session.(state := Invalid), v.(state := FailedValidation)),
           Answered(Rejected(input.sessionId, problem)))
        case None =>
          if replay.Some? then
            var replayed :=
              session.(completionHash := Some(session.completionHash.GetOr(input.requestHash)), completion := replay);
            (PutRecord(PutSession(s, input.sessionId, replayed), input, replay.value),
             Answered(Completed(replay.value, true)))
          else (PutBoth(s, input.sessionId, session.(state := BytesUploaded), v.(state := Canonicalizing)), Suspended)
  }

  /** The part of a completion up to the point where it waits. */
  function Begin(c: Conversions, s: Store, input: CompleteInput, now: Time): (Store, Begun) {
    if input.sessionId !in s.sessions then (s, Answered(NotFound(input.sessionId)))
    else
      var session := s.sessions[input.sessionId];
      if session.versionId !in s.versions then (s, Answered(MissingVersion(input.sessionId)))
      else if CompletionKey(input) in s.completionRecords then
        var record := s.completionRecords[CompletionKey(input)];
        if record.requestHash != input.requestHash then (s, Answered(Conflict(input.idempotencyKey)))
        else (s, Answered(Completed(record.result, true)))
      else if now > session.expiresAt then
        (PutSession(s, input.sessionId, session.(state := Expired)), Answered(SessionExpired(input.sessionId)))
      else if session.completion.Some? then
        if session.completionHash != Some(input.requestHash) then
          (s, Answered(InvalidTransition(input.sessionId, OfVersion(s.versions[session.versionId].state))))
        else (PutRecord(s, input, session.completion.value), Answered(Completed(session.completion.value, true)))
      else BeginOpen(c, s, input, session, s.versions[session.versionId])
  }

  /** What the canonicalisation came to: a snapshot, and the dispatch id generated for it, or an exception. */
  datatype Outcome = Snapshotted(snapshot: Snapshot, dispatchId: string) | Threw

  predicate Knows(s: Store, sessionId: string) {
    sessionId in s.sessions && s.sessions[sessionId].versionId in s.versions
  }

  function CanonicalVersion(c: Conversions, v: Version, input: CompleteInput, outcome: Outcome): Version
    requires outcome.Snapshotted?
  {
    v.(evidence := Some(c.toEvidence(outcome.snapshot)), state := Canonical,
       dispatch := Some(DispatchSummary(
         outcome.dispatchId, true, WorkflowKey(v, input.workflowTemplate.GetOr(DEFAULT_TEMPLATE)))))
  }

  /** The part of a completion after the wait. */
  function Finish(c: Conversions, s: Store, input: CompleteInput, outcome: Outcome): (Store, Reply)
    requires Knows(s, input.sessionId)
  {
    var session := s.sessions[input.sessionId];
    var v := s.versions[session.versionId];
    match outcome
    case Threw =>
      (s.(versions := s.versions[session.versionId := v.(state := FailedRetryable)]),
       CanonicalizationFailed(input.sessionId))
    case Snapshotted(snapshot, dispatchId) =>
      var canonical := CanonicalVersion(c, v, input, outcome);
      var result := Completion(
        v.assetId, c.toSnapshot(canonical.evidence.value), input.sessionId, v.id, Canonical, canonical.dispatch.value);
      var finished := session.(completionHash := Some(input.requestHash), completion := Some(result));
      (PutRecord(PutBoth(s, input.sessionId, finished, canonical), input, result), Completed(result, false))
  }

  class InMemoryUploadSessionStore {
    const conversions: Conversions
    var assets: map<string, Asset>
    var versionsById: map<string, Version>
    var versionsByAssetId: map<string, seq<string>>
    var uploadSessions: map<string, Session>
    var issueRecords: map<Key, IssueRecord>
    var completionRecords: map<Key, CompletionRecord>

    function Contents(): Store
      reads this
    {
      Store(assets, versionsById, versionsByAssetId, uploadSessions, issueRecords, completionRecords)
    }

    constructor (conversions: Conversions)
      ensures this.conversions == conversions && Contents() == EMPTY
    {
      this.conversions := conversions;
      assets, versionsById, versionsByAssetId := map[], map[], map[];
      uploadSessions, issueRecords, completionRecords := map[], map[], map[];
    }

    method ResolveOrCreateAsset(input: IssueInput, ids: Ids) returns (asset: Option<Asset>)
      modifies this`assets
      ensures asset == ResolveAsset(old(Contents()), input, ids)
      ensures assets == if Present(input.assetId).None? then old(assets)[asset.value.id := asset.value] else old(assets)
    {
      var wanted := Present(input.assetId);
      if wanted.Some? {
        if wanted.value !in assets {
          return None;
        }
        return Some(assets[wanted.value]);
      }
      var created := Asset(ids.asset, input.assetOwner, input.namespaceId, Present(input.tenantId));
      assets := assets[created.id := created];
      return Some(created);
    }

    method IssueUploadSession(input: IssueInput, ids: Ids) returns (reply: IssueReply)
      modifies this
      ensures (Contents(), reply) == Issue(old(Contents()), input, ids)
    {
      var key := Key(input.scope, input.idempotencyKey);
      if key in issueRecords {
        var existing := issueRecords[key];
        if existing.requestHash != input.requestHash {
          return IssueConflict(input.idempotencyKey);
        }
        return IssuedAs(existing.result, true);
      }
      var resolved := ResolveOrCreateAsset(input, ids);
      if resolved.None? {
        return AssetNotFound(input.assetId.GetOr(""));
      }
      var asset := resolved.value;
      var existingVersionIds := if asset.id in versionsByAssetId then versionsByAssetId[asset.id] else [];
      var number := |existingVersionIds| + 1;
      var result := NewResult(input, asset, ids, number);
      versionsById := versionsById[ids.version := NewVersion(input, asset, ids, number)];
      versionsByAssetId := versionsByAssetId[asset.id := existingVersionIds + [ids.version]];
      uploadSessions := uploadSessions[ids.session := NewSession(input, asset, ids)];
      issueRecords := issueRecords[key := IssueRecord(input.requestHash, result)];
      return IssuedAs(result, false);
    }

    /** Completing up to the wait for canonicalisation. */
    method BeginCompletion(input: CompleteInput, now: Time) returns (begun: Begun)
      modifies this
      ensures (Contents(), begun) == Begin(conversions, old(Contents()), input, now)
    {
      if input.sessionId !in uploadSessions {
        return Answered(NotFound(input.sessionId));
      }
      var session := uploadSessions[input.sessionId];
      if session.versionId !in versionsById {
        return Answered(MissingVersion(input.sessionId));
      }
      var version := versionsById[session.versionId];
      var key := Key(input.scope, input.idempotencyKey);
      if key in completionRecords {
        var existing := completionRecords[key];
        if existing.requestHash != input.requestHash {
          return Answered(Conflict(input.idempotencyKey));
        }
        return Answered(Completed(existing.result, true));
      }
      if now > session.expiresAt {
        uploadSessions := uploadSessions[input.sessionId := session.(state := Expired)];
        return Answered(SessionExpired(input.sessionId));
      }
      if session.completion.Some? {
        if session.completionHash != Some(input.requestHash) {
          return Answered(InvalidTransition(input.sessionId, OfVersion(version.state)));
        }
        completionRecords := completionRecords[key := CompletionRecord(input.requestHash, session.completion.value)];
        return Answered(Completed(session.completion.value, true));
      }
      if session.state == Terminated {
        return Answered(InvalidTransition(input.sessionId, OfSession(session.state)));
      }
      if session.state == Invalid {
        return Answered(InvalidTransition(input.sessionId, OfSession(session.state)));
      }
      var replay := Rebuild(conversions, input.sessionId, version);
      if version.state != SessionCreated && version.state != Uploaded && version.state != FailedRetryable
        && replay.None? {
        return Answered(InvalidTransition(input.sessionId, OfVersion(version.state)));
      }
      var problem := Check(session, version, input.staged);
      if problem.Some? {
        uploadSessions := uploadSessions[input.sessionId := session.(state := Invalid)];
        versionsById := versionsById[session.versionId := version.(state := FailedValidation)];
        return Answered(Rejected(input.sessionId, problem.value));
      }
      if replay.Some? {
        session :=
          session.(completionHash := Some(session.completionHash.GetOr(input.requestHash)), completion := replay);
        uploadSessions := uploadSessions[input.sessionId := session];
        completionRecords := completionRecords[key := CompletionRecord(input.requestHash, replay.value)];
        return Answered(Completed(replay.value, true));
      }
      uploadSessions := uploadSessions[input.sessionId := session.(state := BytesUploaded)];
      version := version.(state := Uploaded);
      version := version.(state := Canonicalizing);
      versionsById := versionsById[session.versionId := version];
      return Suspended;
    }

    /** Completing from the end of the wait: the call still has its session and version in hand. */
    method FinishCompletion(input: CompleteInput, outcome: Outcome) returns (reply: Reply)
      requires Knows(Contents(), input.sessionId)
      modifies this
      ensures (Contents(), reply) == Finish(conversions, old(Contents()), input, outcome)
    {
      var session := uploadSessions[input.sessionId];
      var version := versionsById[session.versionId];
      match outcome
      case Threw =>
        versionsById := versionsById[session.versionId := version.(state := FailedRetryable)];
        return CanonicalizationFailed(input.sessionId);
      case Snapshotted(snapshot, dispatchId) =>
        var template := input.workflowTemplate.GetOr(DEFAULT_TEMPLATE);
        var dispatch := DispatchSummary(dispatchId, true, WorkflowKey(version, template));
        version :=
          version.(evidence := Some(conversions.toEvidence(snapshot)), state := Canonical, dispatch := Some(dispatch));
        var result :=
          Completion(version.assetId, conversions.toSnapshot(version.evidence.value), input.sessionId, version.id,
                     Canonical, dispatch);
        session := session.(completionHash := Some(input.requestHash), completion := Some(result));
        versionsById := versionsById[session.versionId := version];
        uploadSessions := uploadSessions[input.sessionId := session];
        completionRecords :=
          completionRecords[Key(input.scope, input.idempotencyKey) := CompletionRecord(input.requestHash, result)];
        return Completed(result, false);
    }
  }
}
