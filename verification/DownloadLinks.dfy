/** One-time download links: minted once for a request, redeemed at most once, and only before they expire. */
module DownloadLinks {
  import opened Prelude

  datatype Lifecycle = Processing | Canonical | Published | FailedRetryable | Quarantined | Purged

  datatype Derivative = Derivative(deliveryScopeId: string, variant: string)

  datatype Origin = CdnDerived | OriginDerived | SourceExport | SourceProxy | LazyReadCache

  datatype Mode = Public | SignedUrl

  /** What a version was seeded with for reading its source directly. */
  datatype SourceSeed = SourceSeed(mode: Mode, origin: Origin, tenantId: Option<string>, url: string)

  datatype Version = Version(
    lifecycle: Lifecycle, tenantId: Option<string>, derivatives: seq<Derivative>, source: Option<SourceSeed>)

  datatype VersionKey = VersionKey(assetId: string, versionId: string)

  type Catalog = map<VersionKey, Version>

  datatype Authorization = Authorization(
    version: VersionKey, mode: Mode, deliveryScopeId: Option<string>, expiresAt: Time, oneTime: bool, origin: Origin,
    tenantId: Option<string>, url: string)

  /** What one-time authorisations are remembered by. */
  datatype RequestKey =
    | DeliveryKey(version: VersionKey, deliveryScopeId: string, variant: string, idempotencyKey: string)
    | SourceKey(version: VersionKey, disposition: Option<string>, idempotencyKey: string)

  datatype Request = Request(key: RequestKey, now: Time, oneTime: bool)

  datatype Link = Link(expiresAt: Time, url: string)

  datatype Store = Store(links: map<string, Link>, authorizations: map<RequestKey, Authorization>)

  datatype Failure =
    | VersionNotFound
    | VersionNotReady(lifecycle: Lifecycle)
    | LinkNotFound(token: string)
    | MaterializationThrew

  type Reply = Result<Authorization, Failure>

  const LINK_LIFETIME: Time := 15 * 60_000

  // ----- what is authorised, before a link is put in front of it -----

  function DeliveryBase(request: Request): Authorization
    requires request.key.DeliveryKey?
  {
    var k := request.key;
    Authorization(k.version, SignedUrl, Some(k.deliveryScopeId), request.now + LINK_LIFETIME, false, CdnDerived, None,
                  "https://cdn.cdngine.local/" + k.deliveryScopeId + "/" + k.variant)
  }

  function DeliveryCheck(catalog: Catalog, request: Request): Option<Failure>
    requires request.key.DeliveryKey?
  {
    var k := request.key;
    if k.version !in catalog then Some(VersionNotFound)
    else if catalog[k.version].lifecycle != Published then Some(VersionNotReady(catalog[k.version].lifecycle))
    else if Derivative(k.deliveryScopeId, k.variant) !in catalog[k.version].derivatives then Some(VersionNotFound)
    else None
  }

  function SourceCheck(catalog: Catalog, request: Request): Option<Failure>
    requires request.key.SourceKey?
  {
    if request.key.version !in catalog then Some(VersionNotFound)
    else
      var lifecycle := catalog[request.key.version].lifecycle;
      if lifecycle == Quarantined || lifecycle == Purged then Some(VersionNotReady(lifecycle)) else None
  }

  /** What materialising the source came to: nothing to do, a signed export, or an exception. */
  datatype Materialized = Skipped | Signed(url: string, expiresAt: Time) | Threw

  function SourceBase(catalog: Catalog, request: Request, materialized: Materialized): Authorization
    requires request.key.SourceKey? && request.key.version in catalog
  {
    var version := request.key.version;
    match materialized
    case Signed(url, expiresAt) =>
      Authorization(version, SignedUrl, None, expiresAt, false, SourceExport, Present(catalog[version].tenantId), url)
    case _ =>
      match catalog[version].source
      case Some(seed) =>
        Authorization(version, seed.mode, None, request.now + LINK_LIFETIME, false, seed.origin, Present(seed.tenantId),
                      seed.url)
      case None =>
        Authorization(version, SignedUrl, None, request.now + LINK_LIFETIME, false, SourceProxy, None,
                      ProxyUrl(version))
  }

  function ProxyUrl(version: VersionKey): string {
    "https://api.cdngine.local/v1/assets/" + version.assetId + "/versions/" + version.versionId + "/source/proxy"
  }

  function LinkUrl(token: string): string {
    "https://api.cdngine.local/download-links/" + token
  }

  // ----- minting and redeeming -----

  /** A one-time request is answered with the link minted first for its key. */
  function Grant(s: Store, request: Request, base: Authorization, token: string): (Store, Authorization) {
    if !request.oneTime then (s, base)
    else if request.key in s.authorizations then (s, s.authorizations[request.key])
    else
      var granted := base.(oneTime := true, url := LinkUrl(token));
      (Store(s.links[token := Link(base.expiresAt, base.url)], s.authorizations[request.key := granted]), granted)
  }

  function Deliver(catalog: Catalog, s: Store, request: Request, token: string): (Store, Reply)
    requires request.key.DeliveryKey?
  {
    match DeliveryCheck(catalog, request)
    case Some(failure) => (s, Err(failure))
    case None =>
      var (t, granted) := Grant(s, request, DeliveryBase(request), token);
      (t, Ok(granted))
  }

  /** After the wait for the materialised source. */
  function FinishSource(
      catalog: Catalog, s: Store, request: Request, materialized: Materialized, token: string): (Store, Reply)
    requires request.key.SourceKey? && request.key.version in catalog
  {
    if materialized.Threw? then (s, Err(MaterializationThrew))
    else
      var (t, granted) := Grant(s, request, SourceBase(catalog, request, materialized), token);
      (t, Ok(granted))
  }

  function Redeem(s: Store, token: string, now: Time): (Store, Result<Link, Failure>) {
    if token !in s.links || s.links[token].expiresAt <= now then (s, Err(LinkNotFound(token)))
    else (s.(links := s.links - {token}), Ok(s.links[token]))
  }

  class InMemoryPublicVersionReadStore {
    const catalog: Catalog
    var downloadLinks: map<string, Link>
    var deliveryAuthorizations: map<RequestKey, Authorization>
    var sourceAuthorizationsByRequest: map<RequestKey, Authorization>

    /** The two authorisation maps never share a key. */
    ghost predicate Valid()
      reads this
    {
      && (forall k :: k in deliveryAuthorizations ==> k.DeliveryKey?)
      && (forall k :: k in sourceAuthorizationsByRequest ==> k.SourceKey?)
    }

    ghost function Contents(): Store
      reads this
    {
      Store(downloadLinks, deliveryAuthorizations + sourceAuthorizationsByRequest)
    }

    constructor (catalog: Catalog)
      ensures Valid() && this.catalog == catalog && Contents() == Store(map[], map[])
    {
      this.catalog := catalog;
      downloadLinks, deliveryAuthorizations, sourceAuthorizationsByRequest := map[], map[], map[];
    }

    method AuthorizeDelivery(request: Request, token: string) returns (reply: Reply)
      requires Valid() && request.key.DeliveryKey?
      modifies this
      ensures Valid() && (Contents(), reply) == Deliver(catalog, old(Contents()), request, token)
    {
      var failure := DeliveryCheck(catalog, request);
      if failure.Some? {
        return Err(failure.value);
      }
      var authorization := DeliveryBase(request);
      if !request.oneTime {
        return Ok(authorization);
      }
      if request.key in deliveryAuthorizations {
        return Ok(deliveryAuthorizations[request.key]);
      }
      var granted := authorization.(oneTime := true, url := LinkUrl(token));
      downloadLinks := downloadLinks[token := Link(authorization.expiresAt, authorization.url)];
      ghost var before := Contents().authorizations;
      deliveryAuthorizations := deliveryAuthorizations[request.key := granted];
      assert Contents().authorizations == before[request.key := granted];
      return Ok(granted);
    }

    /** The part before the wait only checks that the version may be read. */
    method BeginAuthorizeSource(request: Request) returns (failure: Option<Failure>)
      requires request.key.SourceKey?
      ensures failure == SourceCheck(catalog, request)
      ensures failure == Some(VersionNotFound) <==> request.key.version !in catalog
      ensures request.key.version in catalog ==>
        var lifecycle := catalog[request.key.version].lifecycle;
        failure == if lifecycle == Quarantined || lifecycle == Purged then Some(VersionNotReady(lifecycle)) else None
    {
      if request.key.version !in catalog {
        return Some(VersionNotFound);
      }
      var lifecycle := catalog[request.key.version].lifecycle;
      if lifecycle == Quarantined || lifecycle == Purged {
        return Some(VersionNotReady(lifecycle));
      }
      return None;
    }

    method FinishAuthorizeSource(request: Request, materialized: Materialized, token: string) returns (reply: Reply)
      requires Valid() && request.key.SourceKey? && request.key.version in catalog
      modifies this
      ensures Valid() && (Contents(), reply) == FinishSource(catalog, old(Contents()), request, materialized, token)
    {
      if materialized.Threw? {
        return Err(MaterializationThrew);
      }
      var base := SourceBase(catalog, request, materialized);
      if !request.oneTime {
        return Ok(base);
      }
      if request.key in sourceAuthorizationsByRequest {
        return Ok(sourceAuthorizationsByRequest[request.key]);
      }
      var granted := base.(oneTime := true, url := LinkUrl(token));
      downloadLinks := downloadLinks[token := Link(base.expiresAt, base.url)];
      ghost var before := Contents().authorizations;
      sourceAuthorizationsByRequest := sourceAuthorizationsByRequest[request.key := granted];
      assert Contents().authorizations == before[request.key := granted];
      return Ok(granted);
    }

    method ConsumeDownloadLink(token: string, now: Time) returns (result: Result<Link, Failure>)
      requires Valid()
      modifies this
      ensures Valid() && (Contents(), result) == Redeem(old(Contents()), token, now)
    {
      if token !in downloadLinks {
        return Err(LinkNotFound(token));
      }
      var link := downloadLinks[token];
      if link.expiresAt <= now {
        return Err(LinkNotFound(token));
      }
      downloadLinks := downloadLinks - {token};
      return Ok(link);
    }
  }

  // ----- interleavings -----

  /** A link that was minted: for which request key, and what had been authorised. */
  datatype Mint = Mint(token: string, key: RequestKey, base: Authorization)

  datatype Redemption = Redemption(token: string, url: string, at: Time)

  datatype Answer = Answer(key: RequestKey, authorization: Authorization)

  /**
   * `suspended` are source requests waiting for their materialisation; the lists are histories of
   * one-time business.
   */
  datatype System = System(
    store: Store, suspended: map<nat, Request>, minted: seq<Mint>, redeemed: seq<Redemption>, answers: seq<Answer>)

  datatype Event =
    | Delivering(request: Request, token: string)
    | BeginningSource(call: nat, request: Request)
    | FinishingSource(call: nat, materialized: Materialized, token: string)
    | Redeeming(token: string, now: Time)

  const START := System(Store(map[], map[]), map[], [], [], [])

  predicate FreshToken(minted: seq<Mint>, token: string) {
    forall k :: 0 <= k < |minted| ==> minted[k].token != token
  }

  predicate Enabled(catalog: Catalog, s: System, e: Event) {
    match e
    case Delivering(request, token) => request.key.DeliveryKey? && FreshToken(s.minted, token)
    case BeginningSource(call, request) => request.key.SourceKey? && call !in s.suspended
    case FinishingSource(call, materialized, token) =>
      && call in s.suspended && s.suspended[call].key.SourceKey? && s.suspended[call].key.version in catalog
      && FreshToken(s.minted, token)
    case Redeeming(_, _) => true
  }

  /** The bookkeeping of a request that got through to `Grant`. */
  function Granting(s: System, request: Request, base: Authorization, token: string): System {
    var (store, granted) := Grant(s.store, request, base, token);
    if !request.oneTime then s
    else
      s.(store := store, answers := s.answers + [Answer(request.key, granted)],
         minted := if request.key in s.store.authorizations then s.minted
                   else s.minted + [Mint(token, request.key, base)])
  }

  function Apply(catalog: Catalog, s: System, e: Event): System
    requires Enabled(catalog, s, e)
  {
    match e
    case Delivering(request, token) =>
      if DeliveryCheck(catalog, request).Some? then s else Granting(s, request, DeliveryBase(request), token)
    case BeginningSource(call, request) =>
      if SourceCheck(catalog, request).Some? then s else s.(suspended := s.suspended[call := request])
    case FinishingSource(call, materialized, token) =>
      var request, t := s.suspended[call], s.(suspended := s.suspended - {call});
      if materialized.Threw? then t else Granting(t, request, SourceBase(catalog, request, materialized), token)
    case Redeeming(token, now) =>
      var (store, result) := Redeem(s.store, token, now);
      s.(store := store,
         redeemed := if result.Ok? then s.redeemed + [Redemption(token, result.value.url, now)] else s.redeemed)
  }

  /** From `s` to `t` the store did what the operation says, and a one-time reply was noted. */
  ghost predicate Follows(s: System, t: System, request: Request, store: Store, reply: Reply) {
    && t.store == store
    && t.answers == s.answers + if request.oneTime && reply.Ok? then [Answer(request.key, reply.value)] else []
  }

  /** The steps of a run are the operations of the store, in what they store and in what they answer. */
  lemma {:induction false} StepsAreOperations(catalog: Catalog, s: System, e: Event)
    requires Enabled(catalog, s, e)
    ensures var t := Apply(catalog, s, e);
      match e
      case Delivering(request, token) =>
        var (store, reply) := Deliver(catalog, s.store, request, token);
        Follows(s, t, request, store, reply)
      case BeginningSource(call, request) =>
        t.store == s.store && (call in t.suspended <==> SourceCheck(catalog, request).None?)
      case FinishingSource(call, materialized, token) =>
        var (store, reply) := FinishSource(catalog, s.store, s.suspended[call], materialized, token);
        Follows(s, t, s.suspended[call], store, reply)
      case Redeeming(token, now) =>
        var (store, result) := Redeem(s.store, token, now);
        t.store == store && |t.redeemed| == |s.redeemed| + if result.Ok? then 1 else 0
  {
    assert s.answers + [] == s.answers;
  }

  // ----- the invariant -----

  ghost predicate MintsOk(authorizations: map<RequestKey, Authorization>, minted: seq<Mint>) {
    && (forall k, l :: 0 <= k < l < |minted| ==> minted[k].token != minted[l].token && minted[k].key != minted[l].key)
    && (forall k :: 0 <= k < |minted| ==>
          var m := minted[k];
          m.key in authorizations && authorizations[m.key] == m.base.(oneTime := true, url := LinkUrl(m.token)))
    && (forall key :: key in authorizations ==> MintedFor(minted, key))
  }

  ghost predicate MintedFor(minted: seq<Mint>, key: RequestKey) {
    exists k :: 0 <= k < |minted| && minted[k].key == key
  }

  ghost predicate Redeemed(redeemed: seq<Redemption>, token: string) {
    exists k :: 0 <= k < |redeemed| && redeemed[k].token == token
  }

  /** A link is there exactly while it is minted and not redeemed. */
  ghost predicate LinkOk(links: map<string, Link>, redeemed: seq<Redemption>, m: Mint) {
    if m.token in links then links[m.token] == Link(m.base.expiresAt, m.base.url) && !Redeemed(redeemed, m.token)
    else Redeemed(redeemed, m.token)
  }

  ghost predicate LinksOk(links: map<string, Link>, minted: seq<Mint>, redeemed: seq<Redemption>) {
    && (forall k :: 0 <= k < |minted| ==> LinkOk(links, redeemed, minted[k]))
    && (forall token :: token in links ==> !FreshToken(minted, token))
  }

  ghost predicate RedemptionOk(minted: seq<Mint>, r: Redemption) {
    exists k ::
      0 <= k < |minted| && minted[k].token == r.token && minted[k].base.url == r.url && r.at < minted[k].base.expiresAt
  }

  ghost predicate RedemptionsOk(links: map<string, Link>, minted: seq<Mint>, redeemed: seq<Redemption>) {
    && (forall k :: 0 <= k < |redeemed| ==> RedemptionOk(minted, redeemed[k]) && redeemed[k].token !in links)
    && (forall k, l :: 0 <= k < l < |redeemed| ==> redeemed[k].token != redeemed[l].token)
  }

  ghost predicate AnswersOk(authorizations: map<RequestKey, Authorization>, answers: seq<Answer>) {
    forall k :: 0 <= k < |answers| ==>
      answers[k].key in authorizations && authorizations[answers[k].key] == answers[k].authorization
  }

  ghost predicate Inv(s: System) {
    && MintsOk(s.store.authorizations, s.minted) && LinksOk(s.store.links, s.minted, s.redeemed)
    && RedemptionsOk(s.store.links, s.minted, s.redeemed) && AnswersOk(s.store.authorizations, s.answers)
  }

  lemma {:induction false} MoreMints(minted: seq<Mint>, m: Mint)
    ensures MintedFor(minted + [m], m.key)
    ensures forall key :: MintedFor(minted, key) ==> MintedFor(minted + [m], key)
    ensures forall r :: RedemptionOk(minted, r) ==> RedemptionOk(minted + [m], r)
  {
    var more := minted + [m];
    assert more[|minted|] == m;
    assert forall k :: 0 <= k < |minted| ==> more[k] == minted[k];
  }

  lemma {:induction false} NeverRedeemed(s: System, token: string)
    requires Inv(s) && FreshToken(s.minted, token)
    ensures !Redeemed(s.redeemed, token) && token !in s.store.links
  {
    forall k | 0 <= k < |s.redeemed|
      ensures s.redeemed[k].token != token
    {
      assert RedemptionOk(s.minted, s.redeemed[k]);
    }
  }

  lemma {:induction false} GrantingKeepsInv(s: System, request: Request, base: Authorization, token: string)
    requires Inv(s) && FreshToken(s.minted, token)
    ensures Inv(Granting(s, request, base, token))
  {
    hide MintsOk, LinksOk, RedemptionsOk, AnswersOk, FreshToken, LinkUrl;
    var granted := Grant(s.store, request, base, token).1;
    if request.oneTime && request.key !in s.store.authorizations {
      var m := Mint(token, request.key, base);
      NeverRedeemed(s, token);
      NewMint(s.store.authorizations, s.minted, m);
      NewLink(s.store.links, s.minted, s.redeemed, m);
      OldRedemptions(s.store.links, s.minted, s.redeemed, m);
      AnswersStay(s.store.authorizations, s.answers, request.key, granted);
      NewAnswer(s.store.authorizations[request.key := granted], s.answers, request.key);
    } else if request.oneTime {
      NewAnswer(s.store.authorizations, s.answers, request.key);
    }
  }

  lemma {:induction false} NewMint(authorizations: map<RequestKey, Authorization>, minted: seq<Mint>, m: Mint)
    requires MintsOk(authorizations, minted) && FreshToken(minted, m.token) && m.key !in authorizations
    ensures MintsOk(authorizations[m.key := m.base.(oneTime := true, url := LinkUrl(m.token))], minted + [m])
  {
    MoreMints(minted, m);
    hide MintedFor, LinkUrl;
  }

  lemma {:induction false} NewLink(links: map<string, Link>, minted: seq<Mint>, redeemed: seq<Redemption>, m: Mint)
    requires LinksOk(links, minted, redeemed) && FreshToken(minted, m.token) && !Redeemed(redeemed, m.token)
    ensures LinksOk(links[m.token := Link(m.base.expiresAt, m.base.url)], minted + [m], redeemed)
  {
    var after, more := links[m.token := Link(m.base.expiresAt, m.base.url)], minted + [m];
    forall k | 0 <= k < |more|
      ensures LinkOk(after, redeemed, more[k])
    {
      assert k < |minted| ==> more[k] == minted[k] && LinkOk(links, redeemed, minted[k]) && minted[k].token != m.token;
    }
    forall token | token in after
      ensures !FreshToken(more, token)
    {
      if token == m.token {
        assert more[|minted|].token == token;
      } else {
        assert !FreshToken(minted, token);
        var k :| 0 <= k < |minted| && minted[k].token == token;
        assert more[k].token == token;
      }
    }
  }

  lemma {:induction false} OldRedemptions(
      links: map<string, Link>, minted: seq<Mint>, redeemed: seq<Redemption>, m: Mint)
    requires RedemptionsOk(links, minted, redeemed) && !Redeemed(redeemed, m.token)
    ensures RedemptionsOk(links[m.token := Link(m.base.expiresAt, m.base.url)], minted + [m], redeemed)
  {
    MoreMints(minted, m);
    hide RedemptionOk;
  }

  lemma {:induction false} AnswersStay(
      authorizations: map<RequestKey, Authorization>, answers: seq<Answer>, key: RequestKey, granted: Authorization)
    requires AnswersOk(authorizations, answers) && key !in authorizations
    ensures AnswersOk(authorizations[key := granted], answers)
  {
  }

  lemma {:induction false} NewAnswer(
      authorizations: map<RequestKey, Authorization>, answers: seq<Answer>, key: RequestKey)
    requires AnswersOk(authorizations, answers) && key in authorizations
    ensures AnswersOk(authorizations, answers + [Answer(key, authorizations[key])])
  {
  }

  lemma {:induction false} RedeemKeepsInv(s: System, token: string, now: Time)
    requires Inv(s)
    ensures var (store, result) := Redeem(s.store, token, now);
      Inv(s.(store := store,
             redeemed := if result.Ok? then s.redeemed + [Redemption(token, result.value.url, now)] else s.redeemed))
  {
    hide MintsOk, LinksOk, RedemptionsOk, AnswersOk;
    if token in s.store.links && now < s.store.links[token].expiresAt {
      RedeemedLink(s.store.links, s.minted, s.redeemed, token, now);
      RedeemedHistory(s.store.links, s.minted, s.redeemed, token, now);
    }
  }

  lemma {:induction false} RedeemedLink(
      links: map<string, Link>, minted: seq<Mint>, redeemed: seq<Redemption>, token: string, now: Time)
    requires LinksOk(links, minted, redeemed) && token in links
    ensures LinksOk(links - {token}, minted, redeemed + [Redemption(token, links[token].url, now)])
  {
    MoreRedemptions(redeemed, Redemption(token, links[token].url, now));
    hide FreshToken, Redeemed;
    forall k | 0 <= k < |minted|
      ensures LinkOk(links - {token}, redeemed + [Redemption(token, links[token].url, now)], minted[k])
    {
      assert LinkOk(links, redeemed, minted[k]);
    }
  }

  lemma {:induction false} RedeemedHistory(
      links: map<string, Link>, minted: seq<Mint>, redeemed: seq<Redemption>, token: string, now: Time)
    requires LinksOk(links, minted, redeemed) && RedemptionsOk(links, minted, redeemed)
    requires token in links && now < links[token].expiresAt
    ensures RedemptionsOk(links - {token}, minted, redeemed + [Redemption(token, links[token].url, now)])
  {
    assert !FreshToken(minted, token);
    var k :| 0 <= k < |minted| && minted[k].token == token;
    assert LinkOk(links, redeemed, minted[k]);
    assert RedemptionOk(minted, Redemption(token, links[token].url, now));
    hide Redeemed, FreshToken, LinksOk, RedemptionOk;
  }

  lemma {:induction false} MoreRedemptions(redeemed: seq<Redemption>, r: Redemption)
    ensures forall token :: Redeemed(redeemed + [r], token) <==> Redeemed(redeemed, token) || token == r.token
  {
    var more := redeemed + [r];
    assert more[|redeemed|] == r;
    assert forall k :: 0 <= k < |redeemed| ==> more[k] == redeemed[k];
  }

  lemma {:induction false} StepKeepsInv(catalog: Catalog, s: System, e: Event)
    requires Inv(s) && Enabled(catalog, s, e)
    ensures Inv(Apply(catalog, s, e))
  {
    hide MintsOk, LinksOk, RedemptionsOk, AnswersOk, Granting, Redeem, DeliveryBase, SourceBase, FreshToken;
    match e
    case Delivering(request, token) =>
      GrantingKeepsInv(s, request, DeliveryBase(request), token);
    case BeginningSource(call, request) =>
    case FinishingSource(call, materialized, token) =>
      var t := s.(suspended := s.suspended - {call});
      GrantingKeepsInv(t, s.suspended[call], SourceBase(catalog, s.suspended[call], materialized), token);
    case Redeeming(token, now) =>
      RedeemKeepsInv(s, token, now);
  }

  // ----- over every run -----

  function After(catalog: Catalog, events: seq<Event>): System
    requires Legal(catalog, events)
    decreases |events|, 2
  {
    if events == [] then START else Apply(catalog, After(catalog, events[..|events| - 1]), events[|events| - 1])
  }

  /** Each event is enabled where it happens. */
  predicate Legal(catalog: Catalog, events: seq<Event>)
    decreases |events|, 1
  {
    events == []
    || (Legal(catalog, events[..|events| - 1])
        && Enabled(catalog, After(catalog, events[..|events| - 1]), events[|events| - 1]))
  }

  lemma {:induction false} ReachableInv(catalog: Catalog, events: seq<Event>)
    requires Legal(catalog, events)
    ensures Inv(After(catalog, events))
    decreases |events|
  {
    if events != [] {
      hide Inv, Enabled, Apply;
      ReachableInv(catalog, events[..|events| - 1]);
      StepKeepsInv(catalog, After(catalog, events[..|events| - 1]), events[|events| - 1]);
    }
  }

  /** Each request key mints at most one token, and every one-time answer for the key is the link minted for it. */
  lemma {:induction false} OneTokenPerRequest(catalog: Catalog, events: seq<Event>)
    requires Legal(catalog, events)
    ensures var s := After(catalog, events);
      && (forall k, l :: 0 <= k < l < |s.minted| ==>
          s.minted[k].key != s.minted[l].key && s.minted[k].token != s.minted[l].token)
      && (forall k, l :: 0 <= k < |s.answers| && 0 <= l < |s.minted| && s.answers[k].key == s.minted[l].key ==>
            s.answers[k].authorization == s.minted[l].base.(oneTime := true, url := LinkUrl(s.minted[l].token)))
      && (forall k :: 0 <= k < |s.answers| ==> MintedFor(s.minted, s.answers[k].key))
  {
    ReachableInv(catalog, events);
    hide After, Legal, LinksOk, RedemptionsOk, MintedFor, LinkUrl;
  }

  /**
   * Each token redeems at most once and never at or after its expiry, and what it redeems to is the
   * URL that was authorised when it was minted.
   */
  lemma {:induction false} RedeemedOnceInTime(catalog: Catalog, events: seq<Event>, k: nat) returns (m: nat)
    requires Legal(catalog, events) && k < |After(catalog, events).redeemed|
    ensures var s, r := After(catalog, events), After(catalog, events).redeemed[k];
      && m < |s.minted| && s.minted[m].token == r.token && r.url == s.minted[m].base.url
      && r.at < s.minted[m].base.expiresAt
      && forall l :: 0 <= l < |s.redeemed| && l != k ==> s.redeemed[l].token != r.token
  {
    ReachableInv(catalog, events);
    var s := After(catalog, events);
    hide After, Legal, LinksOk, MintsOk, AnswersOk;
    assert RedemptionOk(s.minted, s.redeemed[k]);
    m :| 0 <= m < |s.minted| && s.minted[m].token == s.redeemed[k].token && s.minted[m].base.url == s.redeemed[k].url
      && s.redeemed[k].at < s.minted[m].base.expiresAt;
  }

  /** A minted link that was not redeemed works exactly until it expires; a redeemed one never does. */
  lemma {:induction false} LinkWorksOnce(catalog: Catalog, events: seq<Event>, m: nat, now: Time)
    requires Legal(catalog, events) && m < |After(catalog, events).minted|
    ensures var s := After(catalog, events);
      var mint := s.minted[m];
      Redeem(s.store, mint.token, now).1
      == if !Redeemed(s.redeemed, mint.token) && now < mint.base.expiresAt then
           Ok(Link(mint.base.expiresAt, mint.base.url))
         else Err(LinkNotFound(mint.token))
  {
    ReachableInv(catalog, events);
    var s := After(catalog, events);
    assert LinkOk(s.store.links, s.redeemed, s.minted[m]);
    hide After, Legal, RedemptionsOk, MintsOk, AnswersOk, Redeemed;
  }
}
