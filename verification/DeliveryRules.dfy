/** Who may read what: which requests are authorised, with which URL and until when, and why others are not. */
module DeliveryRules {
  import opened Prelude
  import opened DownloadLinks

  const FIFTEEN_MINUTES: Time := 900_000

  /** A published version that lists this derivative. */
  ghost predicate Deliverable(catalog: Catalog, key: RequestKey)
    requires key.DeliveryKey?
  {
    && key.version in catalog && catalog[key.version].lifecycle == Published
    && exists d :: d in catalog[key.version].derivatives
                   && d.deliveryScopeId == key.deliveryScopeId && d.variant == key.variant
  }

  /** A version that is neither quarantined nor purged. */
  ghost predicate Readable(catalog: Catalog, key: RequestKey) {
    key.version in catalog && catalog[key.version].lifecycle !in {Quarantined, Purged}
  }

  /** The CDN address of a derivative, signed for fifteen minutes. */
  function DeliveryOf(key: RequestKey, now: Time): Authorization
    requires key.DeliveryKey?
  {
    Authorization(key.version, SignedUrl, Some(key.deliveryScopeId), now + FIFTEEN_MINUTES, false, CdnDerived, None,
                  "https://cdn.cdngine.local/" + key.deliveryScopeId + "/" + key.variant)
  }

  function LinkTo(token: string): string {
    "https://api.cdngine.local/download-links/" + token
  }

  /**
   * The address of a source: the signed export if there is one, else what the version was seeded with,
   * else the proxy; fifteen minutes but for the export, which says its own time.
   */
  ghost predicate IsSource(
      catalog: Catalog, key: RequestKey, now: Time, materialized: Materialized, a: Authorization)
    requires key.SourceKey? && key.version in catalog
  {
    var v := catalog[key.version];
    && a.version == key.version && a.deliveryScopeId.None? && !a.oneTime
    && if materialized.Signed? then
         && a.url == materialized.url && a.expiresAt == materialized.expiresAt && a.mode == SignedUrl
         && a.origin == SourceExport && a.tenantId == Present(v.tenantId)
       else
         && a.expiresAt == now + FIFTEEN_MINUTES
         && (v.source.Some? ==>
               a.url == v.source.value.url && a.mode == v.source.value.mode && a.origin == v.source.value.origin
               && a.tenantId == Present(v.source.value.tenantId))
         && (v.source.None? ==>
               && a.url == "https://api.cdngine.local/v1/assets/" + key.version.assetId + "/versions/"
                           + key.version.versionId + "/source/proxy"
               && a.mode == SignedUrl && a.origin == SourceProxy && a.tenantId.None?)
  }

  /** From `s` to `t` the request was granted: told at once, replayed, or put behind a new link. */
  ghost predicate Granted(s: Store, t: Store, request: Request, base: Authorization, token: string, a: Authorization) {
    if !request.oneTime then t == s && a == base
    else if request.key in s.authorizations then t == s && a == s.authorizations[request.key]
    else
      && a == base.(oneTime := true, url := LinkTo(token))
      && t.links == s.links[token := Link(base.expiresAt, base.url)]
      && t.authorizations == s.authorizations[request.key := a]
  }

  /** A delivery is authorised exactly for what is deliverable; otherwise the error says which part is missing. */
  lemma {:induction false} DeliversExactly(catalog: Catalog, s: Store, request: Request, token: string)
    requires request.key.DeliveryKey?
    ensures var (t, reply) := Deliver(catalog, s, request, token);
      var known := request.key.version in catalog;
      && (reply.Ok? <==> Deliverable(catalog, request.key))
      && (reply.Ok? ==> Granted(s, t, request, DeliveryOf(request.key, request.now), token, reply.value))
      && (reply.Err? ==> t == s)
      && (!known ==> reply == Err(VersionNotFound))
      && (known && catalog[request.key.version].lifecycle != Published ==>
            reply == Err(VersionNotReady(catalog[request.key.version].lifecycle)))
      && (known && catalog[request.key.version].lifecycle == Published && !Deliverable(catalog, request.key) ==>
            reply == Err(VersionNotFound))
  {
    var k := request.key;
    if k.version in catalog {
      var wanted := Derivative(k.deliveryScopeId, k.variant);
      assert wanted in catalog[k.version].derivatives <==>
        exists d ::
          d in catalog[k.version].derivatives && d.deliveryScopeId == k.deliveryScopeId && d.variant == k.variant;
    }
  }

  /** A source request waits exactly if the version may be read, and is then granted unless the export failed. */
  lemma {:induction false} SourcesExactly(catalog: Catalog, s: System, call: nat, request: Request)
    requires request.key.SourceKey? && call !in s.suspended
    ensures Apply(catalog, s, BeginningSource(call, request))
      == if Readable(catalog, request.key) then s.(suspended := s.suspended[call := request]) else s
  {
  }

  /** After the wait, a source is granted at the address the version or its export says, unless the export failed. */
  lemma {:induction false} FinishesExactly(
      catalog: Catalog, s: Store, request: Request, materialized: Materialized, token: string)
    returns (base: Authorization)
    requires request.key.SourceKey? && request.key.version in catalog
    ensures IsSource(catalog, request.key, request.now, materialized, base)
    ensures var (t, reply) := FinishSource(catalog, s, request, materialized, token);
      if materialized.Threw? then t == s && reply == Err(MaterializationThrew)
      else reply.Ok? && Granted(s, t, request, base, token, reply.value)
  {
    base := SourceBase(catalog, request, materialized);
  }

  // ----- every link that was minted -----

  /** The event that minted a delivery link: a one-time request for something deliverable. */
  ghost predicate DeliveryMint(catalog: Catalog, m: Mint, e: Event) {
    && e.Delivering? && e.token == m.token && e.request.key == m.key && e.request.oneTime && m.key.DeliveryKey?
    && Deliverable(catalog, m.key) && m.base == DeliveryOf(m.key, e.request.now)
  }

  /** The two events that minted a source link. */
  ghost predicate SourceMint(catalog: Catalog, m: Mint, b: Event, e: Event) {
    && b.BeginningSource? && e.FinishingSource? && b.call == e.call && e.token == m.token && !e.materialized.Threw?
    && b.request.key == m.key && b.request.oneTime && m.key.SourceKey? && Readable(catalog, m.key)
    && IsSource(catalog, m.key, b.request.now, e.materialized, m.base)
  }

  ghost predicate Caused(catalog: Catalog, events: seq<Event>, m: Mint) {
    || (exists i :: 0 <= i < |events| && DeliveryMint(catalog, m, events[i]))
    || (exists b, i :: 0 <= b < i < |events| && SourceMint(catalog, m, events[b], events[i]))
  }

  ghost predicate Asked(catalog: Catalog, events: seq<Event>, call: nat, request: Request) {
    request.key.SourceKey? && Readable(catalog, request.key)
    && exists b :: 0 <= b < |events| && events[b] == BeginningSource(call, request)
  }

  lemma {:induction false} CausedLater(catalog: Catalog, events: seq<Event>, e: Event, m: Mint)
    requires Caused(catalog, events, m)
    ensures Caused(catalog, events + [e], m)
  {
    hide DeliveryMint, SourceMint;
    var more := events + [e];
    if i :| 0 <= i < |events| && DeliveryMint(catalog, m, events[i]) {
      assert more[i] == events[i];
    } else {
      var b, i :| 0 <= b < i < |events| && SourceMint(catalog, m, events[b], events[i]);
      assert more[b] == events[b] && more[i] == events[i];
    }
  }

  lemma {:induction false} AskedLater(catalog: Catalog, events: seq<Event>, e: Event, call: nat, request: Request)
    requires Asked(catalog, events, call, request)
    ensures Asked(catalog, events + [e], call, request)
  {
    var b :| 0 <= b < |events| && events[b] == BeginningSource(call, request);
    assert (events + [e])[b] == events[b];
  }

  ghost predicate AllAsked(catalog: Catalog, events: seq<Event>, s: System) {
    forall call :: call in s.suspended ==> Asked(catalog, events, call, s.suspended[call])
  }

  ghost predicate AllCaused(catalog: Catalog, events: seq<Event>, s: System) {
    forall k :: 0 <= k < |s.minted| ==> Caused(catalog, events, s.minted[k])
  }

  lemma {:induction false} StepAsks(catalog: Catalog, events: seq<Event>, s: System, e: Event)
    requires AllAsked(catalog, events, s) && Enabled(catalog, s, e)
    ensures AllAsked(catalog, events + [e], Apply(catalog, s, e))
  {
    hide Asked, DeliveryCheck, Readable, Grant, Redeem, DeliveryBase, SourceBase;
    var t := Apply(catalog, s, e);
    forall call | call in t.suspended
      ensures Asked(catalog, events + [e], call, t.suspended[call])
    {
      if e.BeginningSource? && e.call == call {
        AskedNow(catalog, events, s, e);
      } else {
        AskedLater(catalog, events, e, call, s.suspended[call]);
      }
    }
  }

  lemma {:induction false} AskedNow(catalog: Catalog, events: seq<Event>, s: System, e: Event)
    requires e.BeginningSource? && Enabled(catalog, s, e) && e.call in Apply(catalog, s, e).suspended
    ensures Asked(catalog, events + [e], e.call, e.request)
  {
    assert (events + [e])[|events|] == e;
  }

  lemma {:induction false} MintsAtMostOne(s: System, request: Request, base: Authorization, token: string)
    ensures var t := Granting(s, request, base, token);
      t.minted == s.minted || (request.oneTime && t.minted == s.minted + [Mint(token, request.key, base)])
  {
    hide Grant;
  }

  lemma {:induction false} DeliveringCauses(catalog: Catalog, events: seq<Event>, e: Event)
    requires e.Delivering? && e.request.key.DeliveryKey? && e.request.oneTime
    requires DeliveryCheck(catalog, e.request).None?
    ensures Caused(catalog, events + [e], Mint(e.token, e.request.key, DeliveryBase(e.request)))
  {
    DeliversExactly(catalog, START.store, e.request, e.token);
    assert (events + [e])[|events|] == e;
    assert DeliveryMint(catalog, Mint(e.token, e.request.key, DeliveryBase(e.request)), e);
  }

  lemma {:induction false} FinishingCauses(catalog: Catalog, events: seq<Event>, e: Event, request: Request)
    requires e.FinishingSource? && !e.materialized.Threw? && request.oneTime && Asked(catalog, events, e.call, request)
    ensures Caused(catalog, events + [e], Mint(e.token, request.key, SourceBase(catalog, request, e.materialized)))
  {
    var m := Mint(e.token, request.key, SourceBase(catalog, request, e.materialized));
    var b :| 0 <= b < |events| && events[b] == BeginningSource(e.call, request);
    assert (events + [e])[|events|] == e && (events + [e])[b] == events[b];
    assert SourceMint(catalog, m, events[b], e);
  }

  lemma {:induction false} StepCauses(catalog: Catalog, events: seq<Event>, s: System, e: Event)
    requires AllCaused(catalog, events, s) && AllAsked(catalog, events, s) && Enabled(catalog, s, e)
    ensures AllCaused(catalog, events + [e], Apply(catalog, s, e))
  {
    hide Caused, Asked, DeliveryCheck, SourceCheck, Granting, Redeem, DeliveryBase, SourceBase;
    var t := Apply(catalog, s, e);
    forall k | 0 <= k < |s.minted|
      ensures Caused(catalog, events + [e], s.minted[k])
    {
      CausedLater(catalog, events, e, s.minted[k]);
    }
    match e
    case Delivering(request, token) =>
      if DeliveryCheck(catalog, request).None? {
        MintsAtMostOne(s, request, DeliveryBase(request), token);
        if request.oneTime {
          DeliveringCauses(catalog, events, e);
        }
      }
    case FinishingSource(call, materialized, token) =>
      var request := s.suspended[call];
      if !materialized.Threw? {
        MintsAtMostOne(s.(suspended := s.suspended - {call}), request, SourceBase(catalog, request, materialized),
                       token);
        if request.oneTime {
          FinishingCauses(catalog, events, e, request);
        }
      }
    case _ =>
  }

  /**
   * Over every run each minted delivery link is for a published version that lists the derivative, with
   * the CDN URL of its own scope and variant and an expiry fifteen minutes after the request; and each
   * source link is for a version that may be read, with the address of that source.
   */
  lemma {:induction false} EveryLinkIsCaused(catalog: Catalog, events: seq<Event>)
    requires Legal(catalog, events)
    ensures AllAsked(catalog, events, After(catalog, events)) && AllCaused(catalog, events, After(catalog, events))
    decreases |events|
  {
    hide Caused, Asked, Enabled, Apply;
    if events != [] {
      var front, e := events[..|events| - 1], events[|events| - 1];
      EveryLinkIsCaused(catalog, front);
      StepAsks(catalog, front, After(catalog, front), e);
      StepCauses(catalog, front, After(catalog, front), e);
      assert front + [e] == events;
    }
  }
}
