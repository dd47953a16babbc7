/**
 * Concurrent idempotent writes against the registry database: look the key up, write everything in
 * one transaction whose record insert is unique, and look again when the insert collides.
 */
module IdempotentWrites {
  import opened Prelude

  /** The operation part of an idempotency key. */
  datatype Operation =
    | CreateOperation
    | DeliveryOperation(assetId: string, versionId: string, deliveryScopeId: string)
    | SourceOperation(assetId: string, versionId: string)

  datatype Key = Key(scope: string, operation: Operation, idempotencyKey: string)

  /** `contents` stands for the checksum, content type, expiry, file name, object key and byte length. */
  datatype Request =
    | CreateUpload(scope: string, idempotencyKey: string, hash: string, namespaceId: string, tenantId: Option<string>,
                   existing: Option<string>, owner: string, contents: string)
    | AuthorizeDelivery(scope: string, idempotencyKey: string, hash: string, assetId: string, versionId: string,
                        deliveryScopeId: string, oneTime: bool, now: Time)
    | AuthorizeSource(scope: string, idempotencyKey: string, hash: string, assetId: string, versionId: string,
                      disposition: Option<string>, oneTime: bool, now: Time)

  datatype AssetRow = AssetRow(owner: string, namespaceId: string, tenantId: Option<string>)

  datatype VersionRow = VersionRow(assetId: string, number: nat, contents: string)

  /** An authorisation as it is answered and as it is stored for replay. */
  datatype Authorization = Authorization(
    assetId: string, versionId: string, deliveryScopeId: Option<string>, expiresAt: Time, oneTime: bool,
    tenantId: Option<string>, url: string)

  datatype Response =
    | Reference(assetId: string, versionId: string, sessionId: string)
    | Payload(authorization: Authorization)

  datatype Record = Record(hash: string, response: Response)

  /** `sessions` maps a session to its version; `audits` are the authorisations that were written. */
  datatype Database = Database(
    namespaces: set<string>, tenants: set<(string, string)>, assets: map<string, AssetRow>,
    versions: map<string, VersionRow>,
    sessions: map<string, string>, grants: map<string, string>, audits: seq<Authorization>, records: map<Key, Record>)

  datatype Result =
    | Issued(assetId: string, owner: string, namespaceId: string, tenantId: Option<string>, contents: string,
             sessionId: string, versionId: string, number: nat)
    | Authorized(authorization: Authorization)

  datatype Failure = KeyConflict | AssetNotFound | NotReady | Rethrown | Unresolved | Lost

  /** What the transaction will write besides the record. */
  datatype Draft =
    | UploadDraft(asset: Option<string>, tenantId: Option<string>, number: nat)
    | GrantDraft(grantId: Option<string>, authorization: Authorization)

  datatype Phase =
    | Waiting
    | Missed
    | Planned(draft: Draft)
    | Collided
    | Replaying(response: Response)
    | Returned(result: Result, isDuplicate: bool)
    | Failed(failure: Failure)

  datatype Call = Call(request: Request, phase: Phase)

  datatype Ids = Ids(asset: string, version: string, session: string)

  /** `commits` is the history of transactions that went through: whose, for which key, answering what. */
  datatype Commit = Commit(writer: nat, key: Key, response: Response)

  datatype System = System(db: Database, calls: seq<Call>, commits: seq<Commit>)

  /** What the rest of the registry says about the version to be read, and the link to it. */
  datatype Catalog = Catalog(allowed: bool, url: string, tenantId: Option<string>, grantId: string)

  datatype Event =
    | Lookup(i: nat)
    | Plan(i: nat, latest: nat, catalog: Catalog)
    | Write(i: nat, ids: Ids, answered: bool)
    | LookAgain(i: nat)
    | Load(i: nat)
    | Break(i: nat)

  // ----- requests -----

  function OperationOf(r: Request): Operation {
    match r
    case CreateUpload(_, _, _, _, _, _, _, _) => CreateOperation
    case AuthorizeDelivery(_, _, _, assetId, versionId, deliveryScopeId, _, _) =>
      DeliveryOperation(assetId, versionId, deliveryScopeId)
    case AuthorizeSource(_, _, _, assetId, versionId, _, _, _) => SourceOperation(assetId, versionId)
  }

  function KeyOf(r: Request): Key {
    Key(r.scope, OperationOf(r), r.idempotencyKey)
  }

  const LINK_LIFETIME: Time := 15 * 60_000

  function SourceProxy(r: Request, grantId: string): string
    requires r.AuthorizeSource?
  {
    "/v1/assets/" + r.assetId + "/versions/" + r.versionId + "/source/proxy?grantId=" + grantId
    + match Present(r.disposition)
      case Some(d) => "&disposition=" + d
      case None => ""
  }

  function DownloadLink(token: string): string {
    "/download-links/" + token
  }

  function GrantFor(r: Request, catalog: Catalog): Draft
    requires !r.CreateUpload?
  {
    match r
    case AuthorizeDelivery(_, _, _, assetId, versionId, deliveryScopeId, oneTime, now) =>
      GrantDraft(if oneTime then Some(catalog.grantId) else None,
                 Authorization(assetId, versionId, Some(deliveryScopeId), now + LINK_LIFETIME, oneTime, None,
                               if oneTime then DownloadLink(catalog.grantId) else catalog.url))
    case AuthorizeSource(_, _, _, assetId, versionId, _, oneTime, now) =>
      GrantDraft(Some(catalog.grantId),
                 Authorization(assetId, versionId, None, now + LINK_LIFETIME, oneTime, catalog.tenantId,
                               if oneTime then DownloadLink(catalog.grantId) else SourceProxy(r, catalog.grantId)))
  }

  /** A tenant the namespace does not have counts as none. */
  function ResolveTenant(db: Database, r: Request): Option<string>
    requires r.CreateUpload?
  {
    var wanted := Present(r.tenantId);
    if wanted.Some? && (r.namespaceId, wanted.value) in db.tenants then wanted else None
  }

  predicate OwnAsset(db: Database, r: Request, tenantId: Option<string>)
    requires r.CreateUpload? && r.existing.Some?
  {
    r.existing.value in db.assets && db.assets[r.existing.value] == AssetRow(r.owner, r.namespaceId, tenantId)
  }

  predicate TakenNumber(db: Database, assetId: string, number: nat) {
    exists v :: v in db.versions && db.versions[v].assetId == assetId && db.versions[v].number == number
  }

  /** `latest` is the greatest version number of the asset, zero if there is none. */
  ghost predicate IsLatest(db: Database, assetId: string, latest: nat) {
    && (latest == 0 || TakenNumber(db, assetId, latest))
    && forall v :: v in db.versions && db.versions[v].assetId == assetId ==> db.versions[v].number <= latest
  }

  // ----- steps -----

  ghost predicate Enabled(s: System, e: Event) {
    match e
    case Lookup(i) => i < |s.calls| && s.calls[i].phase.Waiting?
    case Plan(i, latest, catalog) =>
      && i < |s.calls| && s.calls[i].phase.Missed?
      && (s.calls[i].request.CreateUpload? && s.calls[i].request.existing.Some? ==>
            IsLatest(s.db, s.calls[i].request.existing.value, latest))
    case Write(i, ids, _) =>
      && i < |s.calls| && s.calls[i].phase.Planned?
      && ids.asset !in s.db.assets && ids.version !in s.db.versions && ids.session !in s.db.sessions
    case LookAgain(i) => i < |s.calls| && s.calls[i].phase.Collided?
    case Load(i) => i < |s.calls| && s.calls[i].phase.Replaying?
    case Break(i) => i < |s.calls| && !s.calls[i].phase.Returned? && !s.calls[i].phase.Failed?
  }

  function With(s: System, i: nat, phase: Phase): System
    requires i < |s.calls|
  {
    s.(calls := s.calls[i := s.calls[i].(phase := phase)])
  }

  /** A lookup replays, refuses another request under the same key, or finds nothing. */
  function Found(db: Database, r: Request, missing: Phase): Phase {
    if KeyOf(r) !in db.records then missing
    else if db.records[KeyOf(r)].hash != r.hash then Failed(KeyConflict)
    else Replaying(db.records[KeyOf(r)].response)
  }

  function PlanOf(db: Database, r: Request, latest: nat, catalog: Catalog): Phase {
    if !r.CreateUpload? then if catalog.allowed then Planned(GrantFor(r, catalog)) else Failed(NotReady)
    else if r.namespaceId !in db.namespaces then Failed(AssetNotFound)
    else
      var tenantId := ResolveTenant(db, r);
      if r.existing.None? then Planned(UploadDraft(None, tenantId, 1))
      else if OwnAsset(db, r, tenantId) then Planned(UploadDraft(r.existing, tenantId, latest + 1))
      else Failed(AssetNotFound)
  }

  /** A unique index refuses the transaction: on the record's key, on the version number, or on the grant. */
  predicate Collides(db: Database, r: Request, draft: Draft) {
    || KeyOf(r) in db.records
    || (draft.UploadDraft? && draft.asset.Some? && TakenNumber(db, draft.asset.value, draft.number))
    || (draft.GrantDraft? && r.AuthorizeSource? && draft.grantId.Some? && draft.grantId.value in db.grants)
  }

  function ResponseOf(draft: Draft, ids: Ids): Response {
    match draft
    case UploadDraft(asset, _, _) => Reference(asset.GetOr(ids.asset), ids.version, ids.session)
    case GrantDraft(_, authorization) => Payload(authorization)
  }

  /** All rows of one transaction. */
  function Written(db: Database, r: Request, draft: Draft, ids: Ids): Database {
    var record := Record(r.hash, ResponseOf(draft, ids));
    match draft
    case UploadDraft(asset, tenantId, number) =>
      if !r.CreateUpload? then db
      else
        var assetId := asset.GetOr(ids.asset);
        db.(assets := if asset.None? then db.assets[ids.asset := AssetRow(r.owner, r.namespaceId, tenantId)]
                      else db.assets,
            versions := db.versions[ids.version := VersionRow(assetId, number, r.contents)],
            sessions := db.sessions[ids.session := ids.version],
            records := db.records[KeyOf(r) := record])
    case GrantDraft(grantId, authorization) =>
      db.(grants := if !r.AuthorizeSource? || grantId.None? then db.grants
                    else db.grants[grantId.value := SourceProxy(r, grantId.value)],
          audits := db.audits + [authorization],
          records := db.records[KeyOf(r) := record])
  }

  /** The answer the writer gives from what it has in hand. */
  function Fresh(r: Request, draft: Draft, ids: Ids): Result {
    match draft
    case UploadDraft(asset, tenantId, number) =>
      if !r.CreateUpload? then Issued("", "", "", None, "", "", "", 0)
      else Issued(asset.GetOr(ids.asset), r.owner, r.namespaceId, tenantId, r.contents, ids.session, ids.version,
                  number)
    case GrantDraft(_, authorization) => Authorized(authorization)
  }

  /** A stored authorisation is read back only if its texts are not empty. */
  predicate Readable(a: Authorization) {
    a.assetId != "" && a.versionId != "" && a.url != "" && a.deliveryScopeId != Some("")
  }

  /** The answer a replay gives from the rows. */
  function Replay(db: Database, response: Response): Option<Result> {
    match response
    case Payload(authorization) => if Readable(authorization) then Some(Authorized(authorization)) else None
    case Reference(assetId, versionId, sessionId) =>
      if sessionId !in db.sessions || db.sessions[sessionId] != versionId || versionId !in db.versions
         || db.versions[versionId].assetId != assetId || assetId !in db.assets
      then None
      else
        var asset, version := db.assets[assetId], db.versions[versionId];
        Some(Issued(assetId, asset.owner, asset.namespaceId, asset.tenantId, version.contents, sessionId, versionId,
                    version.number))
  }

  function Loaded(db: Database, response: Response): Phase {
    match Replay(db, response)
    case Some(result) => Returned(result, true)
    case None => Failed(Unresolved)
  }

  function AfterWrite(s: System, i: nat, ids: Ids, answered: bool): System
    requires i < |s.calls| && s.calls[i].phase.Planned?
  {
    var r, draft := s.calls[i].request, s.calls[i].phase.draft;
    if Collides(s.db, r, draft) then With(s, i, Collided)
    else
      With(s, i, if answered then Returned(Fresh(r, draft, ids), false) else Failed(Lost))
        .(db := Written(s.db, r, draft, ids), commits := s.commits + [Commit(i, KeyOf(r), ResponseOf(draft, ids))])
  }

  function Apply(s: System, e: Event): System
    requires Enabled(s, e)
  {
    match e
    case Lookup(i) => With(s, i, Found(s.db, s.calls[i].request, Missed))
    case Plan(i, latest, catalog) => With(s, i, PlanOf(s.db, s.calls[i].request, latest, catalog))
    case Write(i, ids, answered) => AfterWrite(s, i, ids, answered)
    case LookAgain(i) => With(s, i, Found(s.db, s.calls[i].request, Failed(Rethrown)))
    case Load(i) => With(s, i, Loaded(s.db, s.calls[i].phase.response))
    case Break(i) => With(s, i, Failed(Lost))
  }

  // ----- what every state keeps -----

  /** A reference leads to its rows; an authorisation is among the audits. */
  ghost predicate Resolves(db: Database, response: Response) {
    match response
    case Reference(_, _, _) => Replay(db, response).Some?
    case Payload(authorization) => authorization in db.audits
  }

  /** The version numbers of an asset run from one without gaps or repeats. */
  ghost predicate NumbersOk(db: Database) {
    && (forall v :: v in db.versions ==> db.versions[v].assetId in db.assets && 1 <= db.versions[v].number)
    && (forall v, k :: v in db.versions && 1 <= k <= db.versions[v].number ==>
        TakenNumber(db, db.versions[v].assetId, k))
    && (forall v, w :: v in db.versions && w in db.versions && v != w ==>
          db.versions[v].assetId != db.versions[w].assetId || db.versions[v].number != db.versions[w].number)
  }

  ghost predicate RowsOk(db: Database) {
    NumbersOk(db) && forall key :: key in db.records ==> Resolves(db, db.records[key].response)
  }

  /** The answer of a caller that wrote says back what it asked for. */
  predicate SaysBack(r: Request, result: Result) {
    match result
    case Issued(assetId, owner, namespaceId, _, contents, _, _, _) =>
      && r.CreateUpload? && owner == r.owner && namespaceId == r.namespaceId && contents == r.contents
      && (r.existing.Some? ==> assetId == r.existing.value)
    case Authorized(a) =>
      && !r.CreateUpload? && a.assetId == r.assetId && a.versionId == r.versionId
      && a.expiresAt == r.now + LINK_LIFETIME && a.oneTime == r.oneTime
      && (r.AuthorizeDelivery? ==> a.deliveryScopeId == Some(r.deliveryScopeId))
  }

  /** What a draft may rely on when it comes to be written. */
  ghost predicate DraftOk(db: Database, r: Request, draft: Draft) {
    match draft
    case GrantDraft(_, authorization) => SaysBack(r, Authorized(authorization))
    case UploadDraft(asset, tenantId, number) =>
      && r.CreateUpload? && asset == r.existing
      && (asset.None? ==> number == 1)
      && (asset.Some? ==>
          asset.value in db.assets && db.assets[asset.value] == AssetRow(r.owner, r.namespaceId, tenantId)
                          && number >= 1 && (number == 1 || TakenNumber(db, asset.value, number - 1)))
  }

  ghost predicate CallOk(db: Database, call: Call) {
    match call.phase
    case Planned(draft) => DraftOk(db, call.request, draft)
    case Replaying(response) =>
      KeyOf(call.request) in db.records && db.records[KeyOf(call.request)] == Record(call.request.hash, response)
    case Returned(result, isDuplicate) =>
      && KeyOf(call.request) in db.records && db.records[KeyOf(call.request)].hash == call.request.hash
      && Answers(db, db.records[KeyOf(call.request)].response, result)
      && (!isDuplicate ==> SaysBack(call.request, result))
    case _ => true
  }

  /** The answer is what the response stands for. */
  ghost predicate Answers(db: Database, response: Response, result: Result) {
    match response
    case Reference(_, _, _) => Replay(db, response) == Some(result)
    case Payload(authorization) => result == Authorized(authorization)
  }

  ghost predicate CommitOk(s: System, c: Commit) {
    && c.writer < |s.calls| && KeyOf(s.calls[c.writer].request) == c.key && c.key in s.db.records
    && s.db.records[c.key] == Record(s.calls[c.writer].request.hash, c.response)
    && Wrote(s.calls[c.writer].phase)
  }

  /** The phase of a caller whose transaction went through. */
  predicate Wrote(phase: Phase) {
    phase == Failed(Lost) || (phase.Returned? && !phase.isDuplicate)
  }

  /** One transaction went through for each record, and only its caller answers without being a duplicate. */
  ghost predicate CommitsOk(s: System) {
    && (forall k :: 0 <= k < |s.commits| ==> CommitOk(s, s.commits[k]))
    && OneCommitPerKey(s.commits) && RecordsCommitted(s) && WritersCommitted(s)
  }

  ghost predicate OneCommitPerKey(commits: seq<Commit>) {
    forall k, l :: 0 <= k < l < |commits| ==> commits[k].key != commits[l].key
  }

  ghost predicate RecordsCommitted(s: System) {
    forall key :: key in s.db.records ==> CommittedKey(s.commits, key)
  }

  ghost predicate WritersCommitted(s: System) {
    forall i :: 0 <= i < |s.calls| && s.calls[i].phase.Returned? && !s.calls[i].phase.isDuplicate ==>
      CommittedBy(s.commits, i)
  }

  ghost predicate CommittedKey(commits: seq<Commit>, key: Key) {
    exists k :: 0 <= k < |commits| && commits[k].key == key
  }

  ghost predicate CommittedBy(commits: seq<Commit>, i: nat) {
    exists k :: 0 <= k < |commits| && commits[k].writer == i
  }

  /** Every session and version was written by the transaction of some record. */
  ghost predicate OnlyCommitted(s: System) {
    && (forall id :: id in s.db.sessions ==> MadeSession(s.commits, id))
    && (forall id :: id in s.db.versions ==> MadeVersion(s.commits, id))
    && (forall id :: id in s.db.assets ==> MadeAsset(s.commits, id))
    && s.db.audits == Payloads(s.commits)
  }

  /** The authorisations answered by the transactions that went through, in order. */
  function Payloads(commits: seq<Commit>): seq<Authorization>
    decreases |commits|
  {
    if commits == [] then []
    else
      var last := commits[|commits| - 1].response;
      Payloads(commits[..|commits| - 1]) + if last.Payload? then [last.authorization] else []
  }

  ghost predicate MadeAsset(commits: seq<Commit>, id: string) {
    exists k :: 0 <= k < |commits| && commits[k].response.Reference? && commits[k].response.assetId == id
  }

  ghost predicate MadeSession(commits: seq<Commit>, id: string) {
    exists k :: 0 <= k < |commits| && commits[k].response.Reference? && commits[k].response.sessionId == id
  }

  ghost predicate MadeVersion(commits: seq<Commit>, id: string) {
    exists k :: 0 <= k < |commits| && commits[k].response.Reference? && commits[k].response.versionId == id
  }

  ghost predicate CallsOk(s: System) {
    forall i :: 0 <= i < |s.calls| ==> CallOk(s.db, s.calls[i])
  }

  ghost predicate Inv(s: System) {
    RowsOk(s.db) && CallsOk(s) && CommitsOk(s) && OnlyCommitted(s)
  }

  // ----- steps that write nothing -----

  lemma {:induction false} PhaseOnly(s: System, i: nat, phase: Phase)
    requires Inv(s) && i < |s.calls| && CallOk(s.db, s.calls[i].(phase := phase))
    requires !s.calls[i].phase.Returned? && !s.calls[i].phase.Failed?
    requires phase.Returned? ==> phase.isDuplicate
    ensures Inv(With(s, i, phase))
  {
    hide *;
    InvParts(s);
    PhaseCommits(s, i, phase);
    PhaseCalls(s, i, phase);
    PhaseRows(s, i, phase);
    InvWhole(With(s, i, phase));
  }

  lemma {:induction false} InvParts(s: System)
    requires Inv(s)
    ensures RowsOk(s.db) && CallsOk(s) && CommitsOk(s) && OnlyCommitted(s)
  {
  }

  lemma {:induction false} InvWhole(s: System)
    requires RowsOk(s.db) && CallsOk(s) && CommitsOk(s) && OnlyCommitted(s)
    ensures Inv(s)
  {
  }

  lemma {:induction false} PhaseCalls(s: System, i: nat, phase: Phase)
    requires CallsOk(s) && i < |s.calls| && CallOk(s.db, s.calls[i].(phase := phase))
    ensures CallsOk(With(s, i, phase))
  {
    hide CallOk;
  }

  lemma {:induction false} PhaseRows(s: System, i: nat, phase: Phase)
    requires RowsOk(s.db) && OnlyCommitted(s) && i < |s.calls|
    ensures RowsOk(With(s, i, phase).db) && OnlyCommitted(With(s, i, phase))
  {
    hide RowsOk, MadeSession, MadeVersion, MadeAsset;
  }

  lemma {:induction false} PhaseCommits(s: System, i: nat, phase: Phase)
    requires CommitsOk(s) && i < |s.calls| && !s.calls[i].phase.Returned? && !s.calls[i].phase.Failed?
    requires phase.Returned? ==> phase.isDuplicate
    ensures CommitsOk(With(s, i, phase))
  {
    hide CommittedKey, CommittedBy, KeyOf;
    forall k | 0 <= k < |s.commits|
      ensures CommitOk(With(s, i, phase), s.commits[k])
    {
      assert CommitOk(s, s.commits[k]);
    }
  }

  lemma {:induction false} PlanOk(db: Database, r: Request, latest: nat, catalog: Catalog)
    requires r.CreateUpload? && r.existing.Some? ==> IsLatest(db, r.existing.value, latest)
    ensures var phase := PlanOf(db, r, latest, catalog); CallOk(db, Call(r, phase)) && !phase.Returned?
  {
    hide TakenNumber;
  }

  lemma {:induction false} LoadOk(db: Database, r: Request, response: Response)
    requires RowsOk(db) && CallOk(db, Call(r, Replaying(response)))
    ensures var phase := Loaded(db, response); CallOk(db, Call(r, phase)) && (phase.Returned? ==> phase.isDuplicate)
  {
    hide RowsOk;
  }

  // ----- writing -----

  /** Rows that were there stay there. */
  ghost predicate Extends(db: Database, after: Database) {
    && (forall a :: a in db.assets ==> a in after.assets && after.assets[a] == db.assets[a])
    && (forall v :: v in db.versions ==> v in after.versions && after.versions[v] == db.versions[v])
    && (forall id :: id in db.sessions ==> id in after.sessions && after.sessions[id] == db.sessions[id])
    && (forall key :: key in db.records ==> key in after.records && after.records[key] == db.records[key])
    && db.audits <= after.audits
  }

  lemma {:induction false} WriteExtends(db: Database, r: Request, draft: Draft, ids: Ids)
    requires ids.asset !in db.assets && ids.version !in db.versions && ids.session !in db.sessions
    requires KeyOf(r) !in db.records
    ensures Extends(db, Written(db, r, draft, ids))
  {
    hide KeyOf;
  }

  lemma {:induction false} TakenStays(db: Database, after: Database, assetId: string, number: nat)
    requires Extends(db, after) && TakenNumber(db, assetId, number)
    ensures TakenNumber(after, assetId, number)
  {
    var v :| v in db.versions && db.versions[v].assetId == assetId && db.versions[v].number == number;
    assert v in after.versions;
  }

  lemma {:induction false} ResolvesStays(db: Database, after: Database, response: Response)
    requires Extends(db, after) && Resolves(db, response)
    ensures Resolves(after, response)
    ensures forall result :: Answers(db, response, result) ==> Answers(after, response, result)
  {
  }

  lemma {:induction false} CallStays(db: Database, after: Database, call: Call)
    requires Extends(db, after) && RowsOk(db) && CallOk(db, call)
    ensures CallOk(after, call)
  {
    match call.phase
    case Planned(draft) =>
      if draft.UploadDraft? && draft.asset.Some? && draft.number > 1 {
        TakenStays(db, after, draft.asset.value, draft.number - 1);
      }
      hide TakenNumber, RowsOk;
    case Returned(result, _) =>
      ResolvesStays(db, after, db.records[KeyOf(call.request)].response);
      hide RowsOk, Answers, Resolves;
    case _ =>
      hide RowsOk;
  }

  lemma {:induction false} WrittenRowsOk(db: Database, r: Request, draft: Draft, ids: Ids)
    requires RowsOk(db) && DraftOk(db, r, draft) && !Collides(db, r, draft)
    requires ids.asset !in db.assets && ids.version !in db.versions && ids.session !in db.sessions
    ensures RowsOk(Written(db, r, draft, ids))
  {
    var after := Written(db, r, draft, ids);
    WriteExtends(db, r, draft, ids);
    WrittenResolves(db, r, draft, ids);
    forall key | key in after.records
      ensures Resolves(after, after.records[key].response)
    {
      if key in db.records {
        ResolvesStays(db, after, db.records[key].response);
      }
    }
    hide Resolves, KeyOf, Fresh, Extends;
    if draft.UploadDraft? {
      WrittenNumbers(db, r, draft, ids);
    } else {
      NumbersStay(db, after);
    }
  }

  lemma {:induction false} NumbersStay(db: Database, after: Database)
    requires NumbersOk(db) && after.versions == db.versions && after.assets == db.assets
    ensures NumbersOk(after)
  {
    forall v, k | v in after.versions && 1 <= k <= after.versions[v].number
      ensures TakenNumber(after, after.versions[v].assetId, k)
    {
      assert TakenNumber(db, db.versions[v].assetId, k);
    }
  }

  lemma {:induction false} WrittenNumbers(db: Database, r: Request, draft: Draft, ids: Ids)
    requires NumbersOk(db) && DraftOk(db, r, draft) && !Collides(db, r, draft) && draft.UploadDraft?
    requires ids.asset !in db.assets && ids.version !in db.versions && ids.session !in db.sessions
    ensures NumbersOk(Written(db, r, draft, ids))
  {
    var after := Written(db, r, draft, ids);
    var assetId := draft.asset.GetOr(ids.asset);
    WriteExtends(db, r, draft, ids);
    assert after.versions == db.versions[ids.version := VersionRow(assetId, draft.number, r.contents)];
    NumberIsNew(db, r, draft, ids);
    hide Written, Collides, KeyOf;
    assert TakenNumber(after, assetId, draft.number) by {
      assert ids.version in after.versions;
    }
    forall v, k | v in after.versions && 1 <= k <= after.versions[v].number
      ensures TakenNumber(after, after.versions[v].assetId, k)
    {
      BelowTaken(db, after, r, draft, ids, v, k);
    }
    hide TakenNumber, Extends;
  }

  /** Below the number just written, every number was taken before. */
  lemma {:induction false} BelowTaken(
      db: Database, after: Database, r: Request, draft: Draft, ids: Ids, v: string, k: nat)
    requires NumbersOk(db) && DraftOk(db, r, draft) && draft.UploadDraft? && Extends(db, after)
    requires ids.version !in db.versions
    requires after.versions
      == db.versions[ids.version := VersionRow(draft.asset.GetOr(ids.asset), draft.number, r.contents)]
    requires TakenNumber(after, draft.asset.GetOr(ids.asset), draft.number)
    requires v in after.versions && 1 <= k <= after.versions[v].number
    ensures TakenNumber(after, after.versions[v].assetId, k)
  {
    if v in db.versions {
      assert after.versions[v] == db.versions[v];
      TakenStays(db, after, db.versions[v].assetId, k);
    } else if k < draft.number {
      var a := draft.asset.value;
      var w :| w in db.versions && db.versions[w].assetId == a && db.versions[w].number == draft.number - 1;
      assert TakenNumber(db, db.versions[w].assetId, k);
      TakenStays(db, after, a, k);
    }
  }

  lemma {:induction false} NumberIsNew(db: Database, r: Request, draft: Draft, ids: Ids)
    requires NumbersOk(db) && DraftOk(db, r, draft) && !Collides(db, r, draft) && draft.UploadDraft?
    requires ids.asset !in db.assets
    ensures forall v :: v in db.versions && db.versions[v].assetId == draft.asset.GetOr(ids.asset) ==>
      db.versions[v].number != draft.number
  {
    forall v | v in db.versions && db.versions[v].assetId == draft.asset.GetOr(ids.asset)
      ensures db.versions[v].number != draft.number
    {
      assert draft.asset.Some?;
      assert !TakenNumber(db, draft.asset.value, draft.number);
    }
  }

  /** What has just been written is what the writer answers, and what a replay would. */
  lemma {:induction false} WrittenResolves(db: Database, r: Request, draft: Draft, ids: Ids)
    requires DraftOk(db, r, draft) && ids.asset !in db.assets && ids.version !in db.versions
    requires ids.session !in db.sessions
    ensures var after := Written(db, r, draft, ids);
      && KeyOf(r) in after.records && after.records[KeyOf(r)] == Record(r.hash, ResponseOf(draft, ids))
      && (forall key :: key in after.records && key != KeyOf(r) ==>
          key in db.records && after.records[key] == db.records[key])
      && Resolves(after, ResponseOf(draft, ids)) && Answers(after, ResponseOf(draft, ids), Fresh(r, draft, ids))
      && SaysBack(r, Fresh(r, draft, ids))
  {
    hide TakenNumber, KeyOf;
  }

  lemma {:induction false} WriteKeepsInv(s: System, i: nat, ids: Ids, answered: bool)
    requires Inv(s) && Enabled(s, Write(i, ids, answered))
    ensures Inv(AfterWrite(s, i, ids, answered))
  {
    hide *;
    InvParts(s);
    WriteUnfold(s, i, ids, answered);
    var r, draft := s.calls[i].request, s.calls[i].phase.draft;
    if Collides(s.db, r, draft) {
      PhaseOnly(s, i, Collided);
    } else {
      var t := AfterWrite(s, i, ids, answered);
      var phase := if answered then Returned(Fresh(r, draft, ids), false) else Failed(Lost);
      WroteEither(Fresh(r, draft, ids));
      WrittenRowsOk(s.db, r, draft, ids);
      WrittenCommits(s, i, ids, phase);
      WrittenOnly(s, i, ids, phase);
      WrittenCalls(s, i, ids, phase);
      InvWhole(t);
    }
  }

  lemma {:induction false} WroteEither(result: Result)
    ensures Wrote(Failed(Lost)) && Wrote(Returned(result, false))
  {
  }

  lemma {:induction false} WriteUnfold(s: System, i: nat, ids: Ids, answered: bool)
    requires CallsOk(s) && Enabled(s, Write(i, ids, answered))
    ensures i < |s.calls| && s.calls[i].phase.Planned?
    ensures ids.asset !in s.db.assets && ids.version !in s.db.versions && ids.session !in s.db.sessions
    ensures var r, draft, t := s.calls[i].request, s.calls[i].phase.draft, AfterWrite(s, i, ids, answered);
      && DraftOk(s.db, r, draft) && CallOk(s.db, s.calls[i].(phase := Collided))
      && if Collides(s.db, r, draft) then t == With(s, i, Collided)
         else
           t == With(s, i, if answered then Returned(Fresh(r, draft, ids), false) else Failed(Lost))
                  .(db := Written(s.db, r, draft, ids),
                    commits := s.commits + [Commit(i, KeyOf(r), ResponseOf(draft, ids))])
  {
    assert CallOk(s.db, s.calls[i]);
    hide CallsOk, DraftOk, Collides, Written, Fresh, ResponseOf, KeyOf, IsLatest;
  }

  lemma {:induction false} WrittenCalls(s: System, i: nat, ids: Ids, phase: Phase)
    requires RowsOk(s.db) && CallsOk(s) && i < |s.calls| && s.calls[i].phase.Planned?
    requires var r, draft := s.calls[i].request, s.calls[i].phase.draft;
      && DraftOk(s.db, r, draft) && !Collides(s.db, r, draft)
      && ids.asset !in s.db.assets && ids.version !in s.db.versions && ids.session !in s.db.sessions
      && (phase == Failed(Lost) || phase == Returned(Fresh(r, draft, ids), false))
    ensures var r, draft := s.calls[i].request, s.calls[i].phase.draft;
      CallsOk(With(s, i, phase).(db := Written(s.db, r, draft, ids),
                                 commits := s.commits + [Commit(i, KeyOf(r), ResponseOf(draft, ids))]))
  {
    var r, draft := s.calls[i].request, s.calls[i].phase.draft;
    var after := Written(s.db, r, draft, ids);
    WriteExtends(s.db, r, draft, ids);
    WrittenResolves(s.db, r, draft, ids);
    hide RowsOk, Written, Collides, DraftOk, Extends, Fresh, ResponseOf, KeyOf, Resolves, Answers, SaysBack;
    assert CallOk(after, s.calls[i].(phase := phase));
    hide CallOk;
    forall j | 0 <= j < |s.calls|
      ensures CallOk(after, s.calls[j])
    {
      CallStays(s.db, after, s.calls[j]);
    }
  }

  lemma {:induction false} WrittenCommits(s: System, i: nat, ids: Ids, phase: Phase)
    requires CommitsOk(s) && i < |s.calls| && s.calls[i].phase.Planned?
    requires var r, draft := s.calls[i].request, s.calls[i].phase.draft;
      && DraftOk(s.db, r, draft) && !Collides(s.db, r, draft)
      && ids.asset !in s.db.assets && ids.version !in s.db.versions && ids.session !in s.db.sessions
    requires Wrote(phase)
    ensures var r, draft := s.calls[i].request, s.calls[i].phase.draft;
      CommitsOk(With(s, i, phase).(db := Written(s.db, r, draft, ids),
                                   commits := s.commits + [Commit(i, KeyOf(r), ResponseOf(draft, ids))]))
  {
    var r, draft := s.calls[i].request, s.calls[i].phase.draft;
    WriteExtends(s.db, r, draft, ids);
    WrittenResolves(s.db, r, draft, ids);
    assert KeyOf(r) !in s.db.records;
    hide Written, DraftOk, KeyOf, ResponseOf, Resolves, Answers, Fresh, Collides, SaysBack, CommitsOk;
    var record := Record(r.hash, ResponseOf(draft, ids));
    assert Written(s.db, r, draft, ids).records == s.db.records[KeyOf(r) := record];
    OneMoreCommit(s, i, phase, Written(s.db, r, draft, ids), record);
  }

  /** Adding the one record of a caller that had not written keeps records and commits in step. */
  lemma {:induction false} OneMoreCommit(s: System, i: nat, phase: Phase, after: Database, record: Record)
    requires CommitsOk(s) && i < |s.calls| && s.calls[i].phase.Planned? && Wrote(phase)
    requires KeyOf(s.calls[i].request) !in s.db.records && record.hash == s.calls[i].request.hash
    requires after.records == s.db.records[KeyOf(s.calls[i].request) := record]
    ensures CommitsOk(With(s, i, phase).(
      db := after, commits := s.commits + [Commit(i, KeyOf(s.calls[i].request), record.response)]))
  {
    var c := Commit(i, KeyOf(s.calls[i].request), record.response);
    var t := With(s, i, phase).(db := after, commits := s.commits + [c]);
    MoreCommits(s.commits, c);
    hide KeyOf, CommittedKey, CommittedBy;
    assert CommitOk(t, c);
    OldCommits(s, t, i, c.key);
    hide CommitOk;
    assert OneCommitPerKey(t.commits) by {
      hide RecordsCommitted, WritersCommitted, Wrote;
    }
    assert RecordsCommitted(t) by {
      hide OneCommitPerKey, WritersCommitted, Wrote;
    }
    hide RecordsCommitted, OneCommitPerKey;
  }

  lemma {:induction false} OldCommits(s: System, t: System, i: nat, key: Key)
    requires CommitsOk(s) && i < |s.calls| && s.calls[i].phase.Planned? && key !in s.db.records
    requires key in t.db.records && t.db.records == s.db.records[key := t.db.records[key]]
    requires |t.calls| == |s.calls| && forall j :: 0 <= j < |s.calls| && j != i ==> t.calls[j] == s.calls[j]
    ensures forall k :: 0 <= k < |s.commits| ==> CommitOk(t, s.commits[k]) && s.commits[k].key != key
  {
    hide KeyOf, OneCommitPerKey, RecordsCommitted, WritersCommitted;
    forall k | 0 <= k < |s.commits|
      ensures CommitOk(t, s.commits[k]) && s.commits[k].key != key
    {
      assert CommitOk(s, s.commits[k]);
    }
  }

  lemma {:induction false} MoreCommits(commits: seq<Commit>, c: Commit)
    ensures CommittedKey(commits + [c], c.key) && CommittedBy(commits + [c], c.writer)
    ensures forall key :: CommittedKey(commits, key) ==> CommittedKey(commits + [c], key)
    ensures forall i: nat :: CommittedBy(commits, i) ==> CommittedBy(commits + [c], i)
    ensures forall id :: MadeSession(commits, id) ==> MadeSession(commits + [c], id)
    ensures forall id :: MadeVersion(commits, id) ==> MadeVersion(commits + [c], id)
    ensures forall id :: MadeAsset(commits, id) ==> MadeAsset(commits + [c], id)
  {
    var more := commits + [c];
    assert more[|commits|] == c;
    assert forall k :: 0 <= k < |commits| ==> more[k] == commits[k];
  }

  lemma {:induction false} WrittenOnly(s: System, i: nat, ids: Ids, phase: Phase)
    requires OnlyCommitted(s) && i < |s.calls| && s.calls[i].phase.Planned?
    requires DraftOk(s.db, s.calls[i].request, s.calls[i].phase.draft)
    ensures var r, draft := s.calls[i].request, s.calls[i].phase.draft;
      OnlyCommitted(With(s, i, phase).(db := Written(s.db, r, draft, ids),
                                       commits := s.commits + [Commit(i, KeyOf(r), ResponseOf(draft, ids))]))
  {
    var r, draft := s.calls[i].request, s.calls[i].phase.draft;
    var c := Commit(i, KeyOf(r), ResponseOf(draft, ids));
    MoreCommits(s.commits, c);
    var more := s.commits + [c];
    assert more[|s.commits|] == c && more[..|s.commits|] == s.commits;
    hide KeyOf, TakenNumber;
    if draft.UploadDraft? {
      assert MadeSession(more, ids.session) && MadeVersion(more, ids.version);
      assert MadeAsset(more, draft.asset.GetOr(ids.asset));
    }
    hide MadeSession, MadeVersion, MadeAsset;
  }

  /** Every enabled step keeps the invariant. */
  lemma {:induction false} StepKeepsInv(s: System, e: Event)
    requires Inv(s) && Enabled(s, e)
    ensures Inv(Apply(s, e))
  {
    hide Inv, CallOk, Found, PlanOf, AfterWrite, Replay, IsLatest;
    match e
    case Lookup(i) =>
      FoundOk(s.db, s.calls[i].request, Missed);
      PhaseOnly(s, i, Found(s.db, s.calls[i].request, Missed));
    case Plan(i, latest, catalog) =>
      PlanOk(s.db, s.calls[i].request, latest, catalog);
      PhaseOnly(s, i, PlanOf(s.db, s.calls[i].request, latest, catalog));
    case Write(i, ids, answered) =>
      WriteKeepsInv(s, i, ids, answered);
    case LookAgain(i) =>
      FoundOk(s.db, s.calls[i].request, Failed(Rethrown));
      PhaseOnly(s, i, Found(s.db, s.calls[i].request, Failed(Rethrown)));
    case Load(i) =>
      ReplayingOk(s, i);
      LoadOk(s.db, s.calls[i].request, s.calls[i].phase.response);
      PhaseOnly(s, i, Loaded(s.db, s.calls[i].phase.response));
    case Break(i) =>
      BrokenOk(s.db, s.calls[i].request);
      PhaseOnly(s, i, Failed(Lost));
  }

  lemma {:induction false} FoundOk(db: Database, r: Request, missing: Phase)
    requires missing.Missed? || missing.Failed?
    ensures var phase := Found(db, r, missing); CallOk(db, Call(r, phase)) && !phase.Returned?
  {
    hide KeyOf;
  }

  lemma {:induction false} ReplayingOk(s: System, i: nat)
    requires Inv(s) && i < |s.calls|
    ensures RowsOk(s.db) && CallOk(s.db, s.calls[i])
  {
    hide RowsOk, CallOk, CommitsOk, OnlyCommitted;
  }

  lemma {:induction false} BrokenOk(db: Database, r: Request)
    ensures CallOk(db, Call(r, Failed(Lost)))
  {
  }

  // ----- runs -----

  /** A registry without assets, versions, sessions or records yet, and any number of callers about to look up. */
  ghost predicate Initial(s: System) {
    && s.db.assets == map[] && s.db.versions == map[] && s.db.sessions == map[] && s.db.records == map[]
    && s.db.audits == [] && s.commits == []
    && forall i :: 0 <= i < |s.calls| ==> s.calls[i].phase.Waiting?
  }

  ghost function After(s: System, events: seq<Event>): System
    requires Legal(s, events)
    decreases |events|, 2
  {
    if events == [] then s else Apply(After(s, events[..|events| - 1]), events[|events| - 1])
  }

  /** Each event is enabled where it happens. */
  ghost predicate Legal(s: System, events: seq<Event>)
    decreases |events|, 1
  {
    events == []
    || (Legal(s, events[..|events| - 1]) && Enabled(After(s, events[..|events| - 1]), events[|events| - 1]))
  }

  lemma {:induction false} InitialInv(s: System)
    requires Initial(s)
    ensures Inv(s)
  {
  }

  lemma {:induction false} ReachableInv(s: System, events: seq<Event>)
    requires Initial(s) && Legal(s, events)
    ensures Inv(After(s, events))
    decreases |events|
  {
    hide Inv, Initial, Enabled, Apply;
    if events == [] {
      InitialInv(s);
    } else {
      ReachableInv(s, events[..|events| - 1]);
      StepKeepsInv(After(s, events[..|events| - 1]), events[|events| - 1]);
    }
  }

  /**
   * At most one set of rows is committed for a key, every asset, session and version belongs to
   * one, and the audits are the authorisations of the commits, one each.
   */
  lemma {:induction false} OneSetPerKey(s: System, events: seq<Event>)
    requires Initial(s) && Legal(s, events)
    ensures var t := After(s, events);
      && (forall k, l :: 0 <= k < l < |t.commits| ==> t.commits[k].key != t.commits[l].key)
      && (forall id :: id in t.db.sessions ==> MadeSession(t.commits, id))
      && (forall id :: id in t.db.versions ==> MadeVersion(t.commits, id))
      && (forall id :: id in t.db.assets ==> MadeAsset(t.commits, id))
      && t.db.audits == Payloads(t.commits) && NumbersOk(t.db)
  {
    ReachableInv(s, events);
    hide After, Legal, Initial, CallsOk, MadeSession, MadeVersion, MadeAsset, NumbersOk;
  }

  /**
   * Callers that return under one key asked for the same thing and get the same answer; only one is not
   * a duplicate.
   */
  lemma {:induction false} ReturnsAgree(s: System, events: seq<Event>, i: nat, j: nat)
    requires Initial(s) && Legal(s, events) && i < |After(s, events).calls| && j < |After(s, events).calls| && i != j
    requires var c := After(s, events).calls;
      c[i].phase.Returned? && c[j].phase.Returned? && KeyOf(c[i].request) == KeyOf(c[j].request)
    ensures var c := After(s, events).calls;
      && c[i].phase.result == c[j].phase.result && c[i].request.hash == c[j].request.hash
      && (c[i].phase.isDuplicate || c[j].phase.isDuplicate)
  {
    hide *;
    var t := After(s, events);
    ReachableInv(s, events);
    InvParts(t);
    ReturnedAnswer(t, i);
    ReturnedAnswer(t, j);
    SameAnswer(t.db, t.db.records[KeyOf(t.calls[i].request)].response, t.calls[i].phase.result,
               t.calls[j].phase.result);
    if !t.calls[i].phase.isDuplicate && !t.calls[j].phase.isDuplicate {
      WritersDiffer(t, i, j);
    }
  }

  lemma {:induction false} ReturnedAnswer(s: System, i: nat)
    requires CallsOk(s) && i < |s.calls| && s.calls[i].phase.Returned?
    ensures var key := KeyOf(s.calls[i].request);
      && key in s.db.records && s.db.records[key].hash == s.calls[i].request.hash
      && Answers(s.db, s.db.records[key].response, s.calls[i].phase.result)
  {
    assert CallOk(s.db, s.calls[i]);
    hide KeyOf, Answers, SaysBack;
  }

  lemma {:induction false} SameAnswer(db: Database, response: Response, x: Result, y: Result)
    requires Answers(db, response, x) && Answers(db, response, y)
    ensures x == y
  {
  }

  lemma {:induction false} DistinctKeys(s: System, k: nat, l: nat)
    requires CommitsOk(s) && k < |s.commits| && l < |s.commits| && k != l
    ensures s.commits[k].key != s.commits[l].key
  {
    hide CommitOk, CommittedKey, CommittedBy;
  }

  lemma {:induction false} WritersDiffer(s: System, i: nat, j: nat)
    requires CommitsOk(s) && i < |s.calls| && j < |s.calls| && i != j
    requires s.calls[i].phase.Returned? && !s.calls[i].phase.isDuplicate
    requires s.calls[j].phase.Returned? && !s.calls[j].phase.isDuplicate
    ensures KeyOf(s.calls[i].request) != KeyOf(s.calls[j].request)
  {
    hide KeyOf;
    assert CommittedBy(s.commits, i) && CommittedBy(s.commits, j);
    var k :| 0 <= k < |s.commits| && s.commits[k].writer == i;
    var l :| 0 <= l < |s.commits| && s.commits[l].writer == j;
    assert CommitOk(s, s.commits[k]) && CommitOk(s, s.commits[l]);
    hide CommitsOk, CommitOk, CommittedBy, Wrote;
    DistinctKeys(s, k, l);
  }

  /**
   * Once a key has its record, exactly one commit is for that key, so exactly one caller wrote it.
   * Either that caller returned with an answer that is no duplicate, or its answer was lost on the
   * way back.
   */
  lemma {:induction false} OneWriter(s: System, events: seq<Event>, key: Key) returns (k: nat)
    requires Initial(s) && Legal(s, events) && key in After(s, events).db.records
    ensures var t := After(s, events);
      && k < |t.commits| && t.commits[k].key == key && t.db.records[key].response == t.commits[k].response
      && (forall l :: 0 <= l < |t.commits| && t.commits[l].key == key ==> l == k)
      && var i := t.commits[k].writer;
      && i < |t.calls| && KeyOf(t.calls[i].request) == key && t.db.records[key].hash == t.calls[i].request.hash
      && Wrote(t.calls[i].phase)
  {
    ReachableInv(s, events);
    var t := After(s, events);
    hide After, Legal, Initial, CallsOk, RowsOk, OnlyCommitted, KeyOf;
    assert CommittedKey(t.commits, key);
    k :| 0 <= k < |t.commits| && t.commits[k].key == key;
    assert CommitOk(t, t.commits[k]);
  }

  /** A caller under a key that has a record for another request never returns, and a lookup of it is refused. */
  lemma {:induction false} OtherRequestConflicts(s: System, events: seq<Event>, i: nat)
    requires Initial(s) && Legal(s, events) && i < |After(s, events).calls|
    requires var t := After(s, events);
      KeyOf(t.calls[i].request) in t.db.records
        && t.db.records[KeyOf(t.calls[i].request)].hash != t.calls[i].request.hash
    ensures var t := After(s, events);
      && !t.calls[i].phase.Returned? && !t.calls[i].phase.Replaying?
      && (t.calls[i].phase.Waiting? ==> Apply(t, Lookup(i)).calls[i].phase == Failed(KeyConflict))
      && (t.calls[i].phase.Collided? ==> Apply(t, LookAgain(i)).calls[i].phase == Failed(KeyConflict))
      && (t.calls[i].phase.Planned? ==> Collides(t.db, t.calls[i].request, t.calls[i].phase.draft))
  {
    ReachableInv(s, events);
    var t := After(s, events);
    assert CallOk(t.db, t.calls[i]);
    hide After, Legal, Initial, CallsOk, RowsOk, OnlyCommitted, CommitsOk, KeyOf;
  }

  /** The one caller that wrote is answered with what it asked for. */
  lemma {:induction false} WriterIsSaidBack(s: System, events: seq<Event>, i: nat)
    requires Initial(s) && Legal(s, events) && i < |After(s, events).calls|
    requires After(s, events).calls[i].phase.Returned? && !After(s, events).calls[i].phase.isDuplicate
    ensures SaysBack(After(s, events).calls[i].request, After(s, events).calls[i].phase.result)
  {
    ReachableInv(s, events);
    var t := After(s, events);
    assert CallOk(t.db, t.calls[i]);
    hide After, Legal, Initial, CallsOk, RowsOk, OnlyCommitted, CommitsOk, KeyOf, SaysBack;
  }

  /** What is replayed from the rows is what the writer was told. */
  lemma {:induction false} ReplayIsTheAnswer(s: System, events: seq<Event>, i: nat)
    requires Initial(s) && Legal(s, events) && i < |After(s, events).calls| && After(s, events).calls[i].phase.Returned?
    ensures var t := After(s, events);
      var key := KeyOf(t.calls[i].request);
      key in t.db.records
      && (t.db.records[key].response.Reference? || Readable(t.db.records[key].response.authorization) ==>
            Replay(t.db, t.db.records[key].response) == Some(t.calls[i].phase.result))
  {
    ReachableInv(s, events);
    var t := After(s, events);
    assert CallOk(t.db, t.calls[i]);
    hide After, Legal, Initial, CallsOk, RowsOk, OnlyCommitted, CommitsOk, KeyOf;
  }
}
