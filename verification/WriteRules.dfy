/** Which idempotent writes are let through, what they say, and why others are refused. */
module WriteRules {
  import opened Prelude
  import opened IdempotentWrites
  import opened Rethrows

  /** The tenant a create is for, if its namespace has it. */
  function Tenant(db: Database, r: Request): Option<string>
    requires r.CreateUpload?
  {
    if r.tenantId.Some? && r.tenantId.value != "" && (r.namespaceId, r.tenantId.value) in db.tenants then r.tenantId
    else None
  }

  /**
   * A create needs its namespace and, to add a version, an asset of that owner, namespace and tenant; an
   * authorisation needs a version that may be read.
   */
  ghost predicate Allowed(db: Database, r: Request, catalog: Catalog) {
    if r.CreateUpload? then
      && r.namespaceId in db.namespaces
      && (r.existing.Some? ==>
            && r.existing.value in db.assets
            && db.assets[r.existing.value].owner == r.owner
            && db.assets[r.existing.value].namespaceId == r.namespaceId
            && db.assets[r.existing.value].tenantId == Tenant(db, r))
    else catalog.allowed
  }

  function ProxyPath(r: Request, grantId: string): string
    requires r.AuthorizeSource?
  {
    "/v1/assets/" + r.assetId + "/versions/" + r.versionId + "/source/proxy?grantId=" + grantId
    + if r.disposition.Some? && r.disposition.value != "" then "&disposition=" + r.disposition.value else ""
  }

  /** Fifteen minutes, and a one-time link or the address itself. */
  ghost predicate IsAuthorization(r: Request, catalog: Catalog, a: Authorization)
    requires !r.CreateUpload?
  {
    && a.assetId == r.assetId && a.versionId == r.versionId && a.oneTime == r.oneTime && a.expiresAt == r.now + 900_000
    && (r.AuthorizeDelivery? ==>
          && a.deliveryScopeId == Some(r.deliveryScopeId) && a.tenantId.None?
          && a.url == if r.oneTime then "/download-links/" + catalog.grantId else catalog.url)
    && (r.AuthorizeSource? ==>
          && a.deliveryScopeId.None? && a.tenantId == catalog.tenantId
          && a.url == if r.oneTime then "/download-links/" + catalog.grantId else ProxyPath(r, catalog.grantId))
  }

  /** What an allowed request goes on to write. */
  ghost predicate IsDraft(db: Database, r: Request, latest: nat, catalog: Catalog, draft: Draft) {
    if r.CreateUpload? then
      draft == UploadDraft(r.existing, Tenant(db, r), if r.existing.None? then 1 else latest + 1)
    else
      && draft.GrantDraft? && IsAuthorization(r, catalog, draft.authorization)
      && draft.grantId == if r.AuthorizeSource? || r.oneTime then Some(catalog.grantId) else None
  }

  /** Planning goes on exactly with what is allowed. */
  lemma {:induction false} PlansExactly(s: System, e: Event)
    requires Enabled(s, e) && e.Plan?
    ensures var r, phase := s.calls[e.i].request, Apply(s, e).calls[e.i].phase;
      if Allowed(s.db, r, e.catalog) then phase.Planned? && IsDraft(s.db, r, e.latest, e.catalog, phase.draft)
      else phase == Failed(if r.CreateUpload? then AssetNotFound else NotReady)
  {
    hide IsLatest;
    var r := s.calls[e.i].request;
    if r.CreateUpload? && r.existing.Some? && r.existing.value in s.db.assets {
      var row := s.db.assets[r.existing.value];
      assert row == AssetRow(row.owner, row.namespaceId, row.tenantId);
    }
  }

  /** Only a write returns something that is no duplicate, and only planning refuses for these reasons. */
  lemma {:induction false} WhichStep(s: System, e: Event)
    requires Enabled(s, e)
    ensures var phase := Apply(s, e).calls[e.i].phase;
      && (phase.Returned? && !phase.isDuplicate ==>
            e.Write? && s.calls[e.i].phase.Planned?
            && phase.result == Fresh(s.calls[e.i].request, s.calls[e.i].phase.draft, e.ids)
            && Apply(s, e).db == Written(s.db, s.calls[e.i].request, s.calls[e.i].phase.draft, e.ids))
      && (phase == Failed(AssetNotFound) || phase == Failed(NotReady) ==> e.Plan?)
  {
    hide KeyOf, IsLatest, Collides, Written, Fresh, ResponseOf, Replay, GrantFor, OwnAsset, ResolveTenant;
  }

  lemma {:induction false} FreshSays(db: Database, r: Request, latest: nat, catalog: Catalog, draft: Draft, ids: Ids)
    requires IsDraft(db, r, latest, catalog, draft)
    ensures var result := Fresh(r, draft, ids);
      && (!r.CreateUpload? ==> result.Authorized? && IsAuthorization(r, catalog, result.authorization))
      && (r.CreateUpload? ==>
            result == Issued(if r.existing.Some? then r.existing.value else ids.asset, r.owner, r.namespaceId,
                             Tenant(db, r), r.contents, ids.session, ids.version,
                             if r.existing.None? then 1 else latest + 1))
    ensures r.AuthorizeSource? && draft.grantId.Some? ==>
      var after := Written(db, r, draft, ids);
      catalog.grantId in after.grants && after.grants[catalog.grantId] == ProxyPath(r, catalog.grantId)
  {
  }

  /**
   * Over every run, what a caller was answered that is no duplicate was planned when it was allowed, and
   * says what the request and the registry said then.
   */
  lemma {:induction false} AnswersWereAllowed(s: System, events: seq<Event>, i: nat) returns (p: nat, w: nat)
    requires Initial(s) && Legal(s, events) && i < |s.calls|
    requires |After(s, events).calls| == |s.calls|
    requires var phase := After(s, events).calls[i].phase; phase.Returned? && !phase.isDuplicate
    ensures p < w < |events| && events[p].Plan? && events[w].Write? && events[p].i == events[w].i == i
    ensures var r, catalog, result := s.calls[i].request, events[p].catalog, After(s, events).calls[i].phase.result;
      && Allowed(Before(s, events, p).db, r, catalog)
      && (!r.CreateUpload? ==> result.Authorized? && IsAuthorization(r, catalog, result.authorization))
      && (r.CreateUpload? ==>
            result == Issued(if r.existing.Some? then r.existing.value else events[w].ids.asset, r.owner, r.namespaceId,
                             Tenant(Before(s, events, p).db, r), r.contents, events[w].ids.session,
                             events[w].ids.version, if r.existing.None? then 1 else events[p].latest + 1))
  {
    assert s.calls[i].phase.Waiting?;
    hide Enabled, Apply, Legal, Before, Initial, Allowed, IsAuthorization, IsDraft, Tenant, Fresh, Written;
    BeforeEnds(s, events);
    w := LastEvent(s, events, |events|, i);
    BeforeNext(s, events, w);
    SameRequests(s, events, w, i);
    WhichStep(Before(s, events, w), events[w]);
    p := LastEvent(s, events, w, i);
    BeforeNext(s, events, p);
    SameRequests(s, events, p, i);
    PlanStep(Before(s, events, p), events[p]);
    PlansExactly(Before(s, events, p), events[p]);
    FreshSays(Before(s, events, p).db, s.calls[i].request, events[p].latest, events[p].catalog,
              Before(s, events, w).calls[i].phase.draft, events[w].ids);
  }

  function RefusalOf(r: Request): Phase {
    Failed(if r.CreateUpload? then AssetNotFound else NotReady)
  }

  /** The caller planned at `p`, and was not allowed then. */
  ghost predicate NotAllowedAt(s: System, events: seq<Event>, i: nat, p: nat)
    requires Legal(s, events) && i < |s.calls|
  {
    && p < |events| && events[p].Plan? && events[p].i == i
    && !Allowed(Before(s, events, p).db, s.calls[i].request, events[p].catalog)
  }

  lemma {:induction false} RefusedHow(s: System, events: seq<Event>, i: nat) returns (p: nat)
    requires Initial(s) && Legal(s, events) && i < |s.calls| && |After(s, events).calls| == |s.calls|
    requires After(s, events).calls[i].phase == RefusalOf(s.calls[i].request)
    ensures NotAllowedAt(s, events, i, p)
  {
    assert s.calls[i].phase.Waiting?;
    hide Enabled, Apply, Legal, Before, Initial, Allowed, IsDraft;
    BeforeEnds(s, events);
    p := LastEvent(s, events, |events|, i);
    BeforeNext(s, events, p);
    SameRequests(s, events, p, i);
    WhichStep(Before(s, events, p), events[p]);
    PlansExactly(Before(s, events, p), events[p]);
  }

  lemma {:induction false} NotAllowedEnds(s: System, events: seq<Event>, i: nat, p: nat)
    requires Legal(s, events) && i < |s.calls| && NotAllowedAt(s, events, i, p)
    ensures |After(s, events).calls| == |s.calls|
    ensures After(s, events).calls[i].phase == RefusalOf(s.calls[i].request)
  {
    hide Enabled, Apply, Legal, Before, Allowed, IsDraft;
    BeforeEnds(s, events);
    BeforeNext(s, events, p);
    SameRequests(s, events, p, i);
    SameRequests(s, events, p + 1, i);
    PlansExactly(Before(s, events, p), events[p]);
    FailedStays(s, events, p + 1, |events|, i);
  }

  /** Over every run, a caller ends refused for what it asked exactly if it was not allowed when it planned. */
  lemma {:induction false} RefusedExactly(s: System, events: seq<Event>, i: nat)
    requires Initial(s) && Legal(s, events) && i < |s.calls|
    ensures |After(s, events).calls| == |s.calls|
    ensures After(s, events).calls[i].phase == RefusalOf(s.calls[i].request)
       <==> exists p :: NotAllowedAt(s, events, i, p)
  {
    hide *;
    BeforeEnds(s, events);
    SameRequests(s, events, |events|, i);
    if After(s, events).calls[i].phase == RefusalOf(s.calls[i].request) {
      var p := RefusedHow(s, events, i);
    }
    if p :| NotAllowedAt(s, events, i, p) {
      NotAllowedEnds(s, events, i, p);
    }
  }

  /** A stored authorisation with an empty text cannot be read back. */
  ghost predicate HasEmptyText(a: Authorization) {
    a.assetId == "" || a.versionId == "" || a.url == "" || a.deliveryScopeId == Some("")
  }

  lemma {:induction false} LoadSays(db: Database, response: Response)
    requires Resolves(db, response)
    ensures var phase := Loaded(db, response);
      match response
      case Payload(a) => phase == if HasEmptyText(a) then Failed(Unresolved) else Returned(Authorized(a), true)
      case Reference(assetId, versionId, sessionId) =>
        && phase.Returned? && phase.isDuplicate && phase.result.Issued? && phase.result.assetId == assetId
        && phase.result.versionId == versionId && phase.result.sessionId == sessionId
  {
  }

  lemma {:induction false} ReplayingResolves(s: System, events: seq<Event>, i: nat)
    requires Initial(s) && Legal(s, events) && i < |After(s, events).calls|
    requires After(s, events).calls[i].phase.Replaying?
    ensures Resolves(After(s, events).db, After(s, events).calls[i].phase.response)
  {
    hide After, Legal, Initial, OnlyCommitted, CommitsOk, KeyOf, Resolves, NumbersOk;
    ReachableInv(s, events);
    assert CallOk(After(s, events).db, After(s, events).calls[i]);
  }

  /** A replay gives back what was stored, as a duplicate, unless an empty text makes it unreadable. */
  lemma {:induction false} ReplaysExactly(s: System, events: seq<Event>, i: nat)
    requires Initial(s) && Legal(s, events) && i < |After(s, events).calls|
    requires After(s, events).calls[i].phase.Replaying?
    ensures var t := After(s, events);
      var response, phase := t.calls[i].phase.response, Apply(t, Load(i)).calls[i].phase;
      match response
      case Payload(a) => phase == if HasEmptyText(a) then Failed(Unresolved) else Returned(Authorized(a), true)
      case Reference(assetId, versionId, sessionId) =>
        && phase.Returned? && phase.isDuplicate && phase.result.Issued? && phase.result.assetId == assetId
        && phase.result.versionId == versionId && phase.result.sessionId == sessionId
  {
    hide After, Legal, Initial, Resolves, Loaded;
    ReplayingResolves(s, events, i);
    LoadSays(After(s, events).db, After(s, events).calls[i].phase.response);
  }

  lemma {:induction false} GrantKept(s: System, e: Event, grantId: string)
    requires Enabled(s, e) && grantId in s.db.grants
    ensures var after := Apply(s, e).db; grantId in after.grants && after.grants[grantId] == s.db.grants[grantId]
  {
    hide KeyOf, IsLatest, Fresh, ResponseOf, Replay, GrantFor, OwnAsset, ResolveTenant, TakenNumber;
  }

  /** Over every run a grant, once written, is never written again. */
  lemma {:induction false} GrantsStay(s: System, events: seq<Event>, k: nat, grantId: string)
    requires Legal(s, events) && k <= |events| && grantId in Before(s, events, k).db.grants
    ensures var after := After(s, events).db;
      grantId in after.grants && after.grants[grantId] == Before(s, events, k).db.grants[grantId]
    decreases |events| - k
  {
    hide *;
    BeforeEnds(s, events);
    if k < |events| {
      BeforeNext(s, events, k);
      GrantKept(Before(s, events, k), events[k], grantId);
      GrantsStay(s, events, k + 1, grantId);
    }
  }
}
