/** When an idempotent create ends with the database's own error instead of a session. */
module Rethrows {
  import opened Prelude
  import opened IdempotentWrites

  // ----- looking back along a run -----

  lemma {:induction false} PrefixLegal(s: System, events: seq<Event>, k: nat)
    requires Legal(s, events) && k <= |events|
    ensures Legal(s, events[..k])
    decreases |events|
  {
    hide Enabled, Apply;
    if k < |events| {
      PrefixLegal(s, events[..|events| - 1], k);
      assert events[..|events| - 1][..k] == events[..k];
    } else {
      assert events[..k] == events;
    }
  }

  /** The state before event `k`, or at the end. */
  ghost function Before(s: System, events: seq<Event>, k: nat): System
    requires Legal(s, events) && k <= |events|
  {
    PrefixLegal(s, events, k);
    After(s, events[..k])
  }

  lemma {:induction false} BeforeNext(s: System, events: seq<Event>, k: nat)
    requires Legal(s, events) && k < |events|
    ensures Enabled(Before(s, events, k), events[k])
    ensures Before(s, events, k + 1) == Apply(Before(s, events, k), events[k])
  {
    hide Enabled, Apply;
    PrefixLegal(s, events, k + 1);
    assert events[..k + 1][..k] == events[..k];
  }

  lemma {:induction false} BeforeEnds(s: System, events: seq<Event>)
    requires Legal(s, events)
    ensures Before(s, events, 0) == s && Before(s, events, |events|) == After(s, events)
  {
    assert events[..|events|] == events;
    hide Enabled, Apply, Legal;
    assert events[..0] == [];
  }

  /** Callers come and go by their own events only, and are asked for the same all along. */
  lemma {:induction false} OtherCalls(s: System, e: Event, i: nat)
    requires Enabled(s, e) && i < |s.calls|
    ensures |Apply(s, e).calls| == |s.calls| && Apply(s, e).calls[i].request == s.calls[i].request
    ensures e.i != i ==> Apply(s, e).calls[i] == s.calls[i]
    ensures s.calls[i].phase.Failed? ==> e.i != i
  {
    hide IsLatest, Found, PlanOf, Loaded, Collides, Written, Fresh, ResponseOf;
  }

  lemma {:induction false} SameRequests(s: System, events: seq<Event>, k: nat, i: nat)
    requires Legal(s, events) && k <= |events| && i < |s.calls|
    ensures |Before(s, events, k).calls| == |s.calls| && Before(s, events, k).calls[i].request == s.calls[i].request
    decreases k
  {
    hide Enabled, Apply, Legal, Before;
    if k == 0 {
      BeforeEnds(s, events);
    } else {
      SameRequests(s, events, k - 1, i);
      BeforeNext(s, events, k - 1);
      OtherCalls(Before(s, events, k - 1), events[k - 1], i);
    }
  }

  /** The last event of a caller before position `end` left it in the phase it has there. */
  lemma {:induction false} LastEvent(s: System, events: seq<Event>, end: nat, i: nat) returns (k: nat)
    requires Legal(s, events) && end <= |events| && i < |s.calls|
    requires |Before(s, events, end).calls| == |s.calls| && !Before(s, events, end).calls[i].phase.Waiting?
    requires s.calls[i].phase.Waiting?
    ensures k < end && events[k].i == i && |Before(s, events, k + 1).calls| == |s.calls|
    ensures Before(s, events, k + 1).calls[i] == Before(s, events, end).calls[i]
    decreases end
  {
    hide Enabled, Apply, Legal, Before;
    BeforeEnds(s, events);
    assert end > 0;
    SameRequests(s, events, end - 1, i);
    BeforeNext(s, events, end - 1);
    OtherCalls(Before(s, events, end - 1), events[end - 1], i);
    if events[end - 1].i == i {
      k := end - 1;
    } else {
      k := LastEvent(s, events, end - 1, i);
    }
  }

  /** A failed caller stays failed. */
  lemma {:induction false} FailedStays(s: System, events: seq<Event>, k: nat, end: nat, i: nat)
    requires Legal(s, events) && k <= end <= |events| && i < |s.calls|
    requires |Before(s, events, k).calls| == |s.calls| && Before(s, events, k).calls[i].phase.Failed?
    ensures |Before(s, events, end).calls| == |s.calls|
    ensures Before(s, events, end).calls[i] == Before(s, events, k).calls[i]
    decreases end
  {
    hide Enabled, Apply, Legal, Before;
    if k < end {
      FailedStays(s, events, k, end - 1, i);
      BeforeNext(s, events, end - 1);
      OtherCalls(Before(s, events, end - 1), events[end - 1], i);
    }
  }

  // ----- which event can lead to which phase -----

  ghost predicate NumberTaken(db: Database, draft: Draft) {
    draft.UploadDraft? && draft.asset.Some? && TakenNumber(db, draft.asset.value, draft.number)
  }

  ghost predicate GrantTaken(db: Database, r: Request, draft: Draft) {
    draft.GrantDraft? && r.AuthorizeSource? && draft.grantId.Some? && draft.grantId.value in db.grants
  }

  lemma {:induction false} RethrowStep(s: System, e: Event)
    requires Enabled(s, e) && Apply(s, e).calls[e.i].phase == Failed(Rethrown)
    ensures e.LookAgain? && s.calls[e.i].phase.Collided? && KeyOf(s.calls[e.i].request) !in s.db.records
  {
    hide KeyOf, IsLatest, Collides, Written, Fresh, ResponseOf, Replay;
  }

  lemma {:induction false} CollideStep(s: System, e: Event)
    requires Enabled(s, e) && Apply(s, e).calls[e.i].phase.Collided?
    ensures e.Write? && s.calls[e.i].phase.Planned? && Collides(s.db, s.calls[e.i].request, s.calls[e.i].phase.draft)
  {
    hide KeyOf, IsLatest, Collides, Written, Fresh, ResponseOf, Replay;
  }

  lemma {:induction false} PlanStep(s: System, e: Event)
    requires Enabled(s, e) && Apply(s, e).calls[e.i].phase.Planned?
    ensures e.Plan? && Apply(s, e).calls[e.i].phase == PlanOf(s.db, s.calls[e.i].request, e.latest, e.catalog)
  {
    hide KeyOf, IsLatest, Collides, Written, Fresh, ResponseOf, Replay, PlanOf;
  }

  // ----- exactly when -----

  /**
   * The caller planned at `p`; at `w` its write found the drafted number, or its grant id, taken;
   * and at `l` its key still had no record.
   */
  ghost predicate Rethrow(s: System, events: seq<Event>, i: nat, p: nat, w: nat, l: nat)
    requires Legal(s, events)
  {
    && p < w < l < |events| && events[p].Plan? && events[w].Write? && events[l] == LookAgain(i)
    && events[p].i == events[w].i == i
    && TakenAtWrite(Before(s, events, w), i)
    && i < |Before(s, events, l).calls|
    && KeyOf(Before(s, events, l).calls[i].request) !in Before(s, events, l).db.records
    && i < |Before(s, events, p + 1).calls| && Before(s, events, p + 1).calls[i] == Before(s, events, w).calls[i]
  }

  ghost predicate TakenAtWrite(s: System, i: nat) {
    && i < |s.calls| && s.calls[i].phase.Planned?
    && (NumberTaken(s.db, s.calls[i].phase.draft) || GrantTaken(s.db, s.calls[i].request, s.calls[i].phase.draft))
  }

  /** Along a run rows, records and commits are only added to. */
  lemma {:induction false} RunExtends(s: System, events: seq<Event>, k: nat, end: nat)
    requires Legal(s, events) && k <= end <= |events|
    ensures Extends(Before(s, events, k).db, Before(s, events, end).db)
    ensures Before(s, events, k).commits <= Before(s, events, end).commits
    decreases end
  {
    hide Enabled, Apply, Legal, Before;
    if k < end {
      RunExtends(s, events, k, end - 1);
      BeforeNext(s, events, end - 1);
      StepKeepsRows(Before(s, events, end - 1), events[end - 1]);
    }
  }

  /** Rows, records and commits are only ever added to. */
  lemma {:induction false} StepKeepsRows(s: System, e: Event)
    requires Enabled(s, e)
    ensures Extends(s.db, Apply(s, e).db) && s.commits <= Apply(s, e).commits
  {
    if e.Write? && !Collides(s.db, s.calls[e.i].request, s.calls[e.i].phase.draft) {
      WriteExtends(s.db, s.calls[e.i].request, s.calls[e.i].phase.draft, e.ids);
    }
    hide KeyOf, IsLatest, Collides, Written, Fresh, ResponseOf, Replay, PlanOf, Found;
  }

  lemma {:induction false} RethrownHow(s: System, events: seq<Event>, i: nat) returns (p: nat, w: nat, l: nat)
    requires Initial(s) && Legal(s, events) && i < |s.calls|
    requires |After(s, events).calls| == |s.calls| && After(s, events).calls[i].phase == Failed(Rethrown)
    ensures Rethrow(s, events, i, p, w, l)
  {
    assert s.calls[i].phase.Waiting?;
    hide Enabled, Apply, Legal, Before, Initial, NumberTaken, GrantTaken, KeyOf;
    BeforeEnds(s, events);
    l := LastEvent(s, events, |events|, i);
    BeforeNext(s, events, l);
    SameRequests(s, events, l, i);
    RethrowStep(Before(s, events, l), events[l]);
    w := LastEvent(s, events, l, i);
    BeforeNext(s, events, w);
    SameRequests(s, events, w, i);
    CollideStep(Before(s, events, w), events[w]);
    p := LastEvent(s, events, w, i);
    BeforeNext(s, events, p);
    SameRequests(s, events, p, i);
    PlanStep(Before(s, events, p), events[p]);
    RunExtends(s, events, w, l);
    CollidesHow(Before(s, events, w), i);
  }

  lemma {:induction false} CollidesHow(s: System, i: nat)
    requires i < |s.calls| && s.calls[i].phase.Planned?
    requires Collides(s.db, s.calls[i].request, s.calls[i].phase.draft) && KeyOf(s.calls[i].request) !in s.db.records
    ensures TakenAtWrite(s, i)
  {
    hide KeyOf, TakenNumber;
  }

  /**
   * Over every run: a call ends with the database's own error exactly if its write found its number
   * or grant id taken and its key had no record when it looked again.
   */
  lemma {:induction false} RethrownExactly(s: System, events: seq<Event>, i: nat)
    requires Initial(s) && Legal(s, events) && i < |s.calls|
    ensures |After(s, events).calls| == |s.calls|
    ensures After(s, events).calls[i].phase == Failed(Rethrown) <==> exists p, w, l :: Rethrow(s, events, i, p, w, l)
  {
    hide Enabled, Apply, Legal, Before, Initial, Rethrow;
    BeforeEnds(s, events);
    SameRequests(s, events, |events|, i);
    if After(s, events).calls[i].phase == Failed(Rethrown) {
      var p, w, l := RethrownHow(s, events, i);
    }
    if p, w, l :| Rethrow(s, events, i, p, w, l) {
      RethrowEnds(s, events, i, p, w, l);
    }
  }

  lemma {:induction false} RethrowEnds(s: System, events: seq<Event>, i: nat, p: nat, w: nat, l: nat)
    requires Initial(s) && Legal(s, events) && i < |s.calls| && Rethrow(s, events, i, p, w, l)
    ensures |After(s, events).calls| == |s.calls| && After(s, events).calls[i].phase == Failed(Rethrown)
  {
    hide Before, Legal, TakenAtWrite, KeyOf, IsLatest, Initial;
    BeforeNext(s, events, l);
    SameRequests(s, events, l, i);
    BeforeEnds(s, events);
    FailedStays(s, events, l + 1, |events|, i);
  }

  // ----- why a create is rethrown -----

  /** What each commit wrote was asked for; only the first on an asset may have created it. */
  ghost predicate Asked(s: System) {
    && (forall k :: 0 <= k < |s.commits| ==> AskedFor(s, s.commits[k]))
    && (forall k, l :: 0 <= k < l < |s.commits| && SameAsset(s.commits[k], s.commits[l]) ==>
        NamesAsset(s, s.commits[l]))
  }

  predicate SameAsset(c: Commit, d: Commit) {
    c.response.Reference? && d.response.Reference? && c.response.assetId == d.response.assetId
  }

  ghost predicate AskedFor(s: System, c: Commit) {
    && c.writer < |s.calls|
    && (c.response.Reference? ==>
          s.calls[c.writer].request.CreateUpload? && c.response.versionId in s.db.versions
          && s.db.versions[c.response.versionId].assetId == c.response.assetId && c.response.assetId in s.db.assets)
  }

  /** The create named the asset it added a version to. */
  ghost predicate NamesAsset(s: System, c: Commit) {
    && c.writer < |s.calls| && c.response.Reference? && s.calls[c.writer].request.CreateUpload?
    && s.calls[c.writer].request.existing == Some(c.response.assetId)
  }

  lemma {:induction false} StepKeepsAsked(s: System, e: Event)
    requires Inv(s) && Enabled(s, e) && Asked(s)
    ensures Asked(Apply(s, e))
  {
    hide *;
    var t := Apply(s, e);
    StepKeepsRows(s, e);
    forall i | 0 <= i < |s.calls|
      ensures |t.calls| == |s.calls| && t.calls[i].request == s.calls[i].request
    {
      OtherCalls(s, e, i);
    }
    StepCommits(s, e);
    SameCalls(s, e);
    AskedStays(s, t);
    if t.commits != s.commits {
      NewAsset(s, t);
      OneMoreAsked(t, s.commits, t.commits[|s.commits|]);
    } else {
      assert t.(commits := s.commits) == t;
    }
  }

  lemma {:induction false} SameCalls(s: System, e: Event)
    requires Enabled(s, e)
    ensures |Apply(s, e).calls| == |s.calls|
  {
    OtherCalls(s, e, e.i);
  }

  lemma {:induction false} NewAsset(s: System, t: System)
    requires |t.commits| == |s.commits| + 1 && t.commits[..|s.commits|] == s.commits
    requires forall k :: 0 <= k < |s.commits| && s.commits[k].response.Reference? ==>
      s.commits[k].response.assetId in s.db.assets
    ensures var c := t.commits[|s.commits|];
      && t.commits == s.commits + [c]
      && ((c.response.Reference? ==> c.response.assetId !in s.db.assets) ==>
            forall k :: 0 <= k < |s.commits| ==> !SameAsset(s.commits[k], c))
  {
  }

  /** A step adds at most one commit; its create made the asset anew, or named it. */
  lemma {:induction false} StepCommits(s: System, e: Event)
    requires Inv(s) && Enabled(s, e)
    ensures var t := Apply(s, e);
      t.commits == s.commits
      || (|t.commits| == |s.commits| + 1 && t.commits[..|s.commits|] == s.commits
          && var c := t.commits[|s.commits|];
             AskedFor(t, c) && (NamesAsset(t, c) || (c.response.Reference? ==> c.response.assetId !in s.db.assets)))
  {
    if e.Write? {
      WriteCommits(s, e.i, e.ids, e.answered);
    } else {
      hide Inv, IsLatest, Found, PlanOf, Loaded;
    }
  }

  lemma {:induction false} WriteCommits(s: System, i: nat, ids: Ids, answered: bool)
    requires Inv(s) && Enabled(s, Write(i, ids, answered))
    ensures var t := Apply(s, Write(i, ids, answered));
      t.commits == s.commits
      || (|t.commits| == |s.commits| + 1 && t.commits[..|s.commits|] == s.commits
          && var c := t.commits[|s.commits|];
             AskedFor(t, c) && (NamesAsset(t, c) || (c.response.Reference? ==> c.response.assetId !in s.db.assets)))
  {
    hide Inv, IsLatest, AfterWrite, Collides, Written, Fresh, DraftOk, KeyOf, CallOk, CallsOk, ResponseOf;
    InvParts(s);
    WriteUnfold(s, i, ids, answered);
    var r, draft := s.calls[i].request, s.calls[i].phase.draft;
    if !Collides(s.db, r, draft) {
      WrittenRows(s.db, r, draft, ids);
      hide RowsOk, CommitsOk, OnlyCommitted;
      assert AfterWrite(s, i, ids, answered).commits == s.commits + [Commit(i, KeyOf(r), ResponseOf(draft, ids))];
    }
  }

  lemma {:induction false} WrittenRows(db: Database, r: Request, draft: Draft, ids: Ids)
    requires DraftOk(db, r, draft) && ids.asset !in db.assets
    ensures var after, response := Written(db, r, draft, ids), ResponseOf(draft, ids);
      response.Reference? ==>
        && r.CreateUpload? && response.versionId in after.versions && response.assetId in after.assets
        && after.versions[response.versionId].assetId == response.assetId
        && (r.existing == Some(response.assetId) || response.assetId !in db.assets)
  {
    hide KeyOf, TakenNumber;
  }

  lemma {:induction false} AskedStays(s: System, t: System)
    requires Asked(s) && Extends(s.db, t.db) && |t.calls| == |s.calls|
    requires forall i :: 0 <= i < |s.calls| ==> t.calls[i].request == s.calls[i].request
    ensures Asked(t.(commits := s.commits))
    ensures forall k :: 0 <= k < |s.commits| && s.commits[k].response.Reference? ==>
      s.commits[k].response.assetId in s.db.assets
  {
    var u := t.(commits := s.commits);
    forall k | 0 <= k < |s.commits|
      ensures AskedFor(u, s.commits[k])
      ensures s.commits[k].response.Reference? ==> s.commits[k].response.assetId in s.db.assets
      ensures NamesAsset(s, s.commits[k]) ==> NamesAsset(u, s.commits[k])
    {
      assert AskedFor(s, s.commits[k]);
    }
    hide AskedFor, NamesAsset, Extends;
  }

  lemma {:induction false} OneMoreAsked(t: System, commits: seq<Commit>, c: Commit)
    requires Asked(t.(commits := commits)) && t.commits == commits + [c] && AskedFor(t, c)
    requires NamesAsset(t, c)
      || (forall k :: 0 <= k < |commits| ==> !SameAsset(commits[k], c))
    ensures Asked(t)
  {
    var s := t.(commits := commits);
    forall k | 0 <= k < |commits|
      ensures AskedFor(t, commits[k]) && (NamesAsset(s, commits[k]) ==> NamesAsset(t, commits[k]))
    {
      assert AskedFor(s, commits[k]);
    }
    hide AskedFor, NamesAsset;
  }

  lemma {:induction false} AlwaysAsked(s: System, events: seq<Event>)
    requires Initial(s) && Legal(s, events)
    ensures Asked(After(s, events)) && Inv(After(s, events))
    decreases |events|
  {
    ReachableInv(s, events);
    hide Inv, Enabled, Apply;
    if events == [] {
    } else {
      hide Initial, Asked;
      AlwaysAsked(s, events[..|events| - 1]);
      StepKeepsAsked(After(s, events[..|events| - 1]), events[|events| - 1]);
    }
  }

  lemma {:induction false} InvBefore(s: System, events: seq<Event>, k: nat)
    requires Initial(s) && Legal(s, events) && k <= |events|
    ensures Asked(Before(s, events, k)) && Inv(Before(s, events, k))
  {
    hide Enabled, Apply, Inv, Asked, Initial;
    PrefixLegal(s, events, k);
    AlwaysAsked(s, events[..k]);
  }

  /** A create that is rethrown had named its asset, and drafted the number after the latest one. */
  lemma {:induction false} PlannedNumber(s: System, e: Event, i: nat)
    requires Enabled(s, e) && e.Plan? && e.i == i && s.calls[i].request.CreateUpload?
    requires Apply(s, e).calls[i].phase.Planned? && Apply(s, e).calls[i].phase.draft.UploadDraft?
    ensures var draft := Apply(s, e).calls[i].phase.draft;
      && draft.asset == s.calls[i].request.existing
      && (draft.asset.Some? ==> draft.asset.value in s.db.assets && !TakenNumber(s.db, draft.asset.value, draft.number))
  {
  }

  /** A version whose number was not taken before was not written before. */
  lemma {:induction false} OlderNumbers(before: System, after: System, v: string)
    requires Asked(before) && Extends(before.db, after.db) && before.commits <= after.commits && v in after.db.versions
    requires !TakenNumber(before.db, after.db.versions[v].assetId, after.db.versions[v].number)
    ensures forall k :: 0 <= k < |before.commits| && before.commits[k].response.Reference? ==>
      after.commits[k] == before.commits[k] && before.commits[k].response.versionId != v
  {
    forall k | 0 <= k < |before.commits| && before.commits[k].response.Reference?
      ensures after.commits[k] == before.commits[k] && before.commits[k].response.versionId != v
    {
      assert AskedFor(before, before.commits[k]);
    }
  }

  /** Between `before` and `after` a commit of another create wrote the number. */
  lemma {:induction false} NumberWrittenBetween(before: System, after: System, assetId: string, number: nat)
    returns (k: nat)
    requires Inv(before) && Asked(before) && Inv(after) && Asked(after)
    requires Extends(before.db, after.db) && before.commits <= after.commits
    requires assetId in before.db.assets && !TakenNumber(before.db, assetId, number)
    requires TakenNumber(after.db, assetId, number)
    ensures |before.commits| <= k < |after.commits| && WroteNumber(after, after.commits[k], assetId, number)
  {
    var v :| v in after.db.versions && after.db.versions[v].assetId == assetId && after.db.versions[v].number == number;
    assert MadeVersion(after.commits, v) && MadeAsset(before.commits, assetId);
    hide Inv;
    k :| 0 <= k < |after.commits| && after.commits[k].response.Reference? && after.commits[k].response.versionId == v;
    assert AskedFor(after, after.commits[k]);
    var m :| 0 <= m < |before.commits| && before.commits[m].response.Reference?
      && before.commits[m].response.assetId == assetId;
    assert after.commits[m] == before.commits[m];
    OlderNumbers(before, after, v);
    assert SameAsset(after.commits[m], after.commits[k]);
  }

  /** The commit wrote this version number, for a create that named the asset. */
  ghost predicate WroteNumber(s: System, c: Commit, assetId: string, number: nat) {
    && NamesAsset(s, c) && c.response.assetId == assetId
    && c.response.versionId in s.db.versions && s.db.versions[c.response.versionId].number == number
  }

  /**
   * A create that ends with the database's error had named an existing asset, and between its plan
   * and its write a create of another key, on the same asset, committed the number it had drafted.
   */
  lemma {:induction false} RethrownByRival(s: System, events: seq<Event>, i: nat)
    returns (p: nat, w: nat, l: nat, k: nat)
    requires Initial(s) && Legal(s, events) && i < |s.calls| && s.calls[i].request.CreateUpload?
    requires |After(s, events).calls| == |s.calls| && After(s, events).calls[i].phase == Failed(Rethrown)
    ensures Rethrow(s, events, i, p, w, l) && s.calls[i].request.existing.Some?
    ensures var r, after, draft := s.calls[i].request, Before(s, events, w), Before(s, events, w).calls[i].phase.draft;
      && |Before(s, events, p).commits| <= k < |after.commits| && draft.UploadDraft?
      && WroteNumber(after, after.commits[k], r.existing.value, draft.number) && after.commits[k].key != KeyOf(r)
      && after.commits[k].writer < |s.calls| && after.commits[k].writer != i
      && KeyOf(s.calls[after.commits[k].writer].request) == after.commits[k].key
      && s.calls[after.commits[k].writer].request.CreateUpload?
      && s.calls[after.commits[k].writer].request.existing == r.existing
  {
    p, w, l := RethrownHow(s, events, i);
    hide Enabled, Apply, Legal, Before, Initial, KeyOf, TakenNumber, Asked, Inv, Extends;
    SameRequests(s, events, p, i);
    SameRequests(s, events, w, i);
    SameRequests(s, events, l, i);
    BeforeNext(s, events, p);
    PlannedNumber(Before(s, events, p), events[p], i);
    InvBefore(s, events, p);
    InvBefore(s, events, w);
    RunExtends(s, events, p, w);
    var r, draft := s.calls[i].request, Before(s, events, w).calls[i].phase.draft;
    k := NumberWrittenBetween(Before(s, events, p), Before(s, events, w), r.existing.value, draft.number);
    RunExtends(s, events, w, l);
    RivalKey(s, events, i, w, l, k);
  }

  /** The rival committed under a key that has a record, so not under that of the rethrown caller. */
  lemma {:induction false} RivalKey(s: System, events: seq<Event>, i: nat, w: nat, l: nat, k: nat)
    requires Initial(s) && Legal(s, events) && w <= l <= |events| && i < |s.calls| && k < |Before(s, events, w).commits|
    requires KeyOf(s.calls[i].request) !in Before(s, events, l).db.records
    requires NamesAsset(Before(s, events, w), Before(s, events, w).commits[k])
    ensures var c := Before(s, events, w).commits[k];
      && c.key != KeyOf(s.calls[i].request) && c.writer < |s.calls| && c.writer != i
      && KeyOf(s.calls[c.writer].request) == c.key
      && s.calls[c.writer].request.CreateUpload? && s.calls[c.writer].request.existing == Some(c.response.assetId)
  {
    hide Enabled, Apply, Legal, Before, Initial, KeyOf;
    InvBefore(s, events, w);
    var t := Before(s, events, w);
    InvParts(t);
    assert CommitOk(t, t.commits[k]);
    hide Inv, Asked, CommitsOk, RowsOk, CallsOk, OnlyCommitted;
    SameRequests(s, events, w, 0);
    SameRequests(s, events, w, t.commits[k].writer);
    RunExtends(s, events, w, l);
  }

  /** Without another create on the same asset under another key, a create is never rethrown. */
  lemma {:induction false} NoRivalNoRethrow(s: System, events: seq<Event>, i: nat)
    requires Initial(s) && Legal(s, events) && i < |s.calls| && s.calls[i].request.CreateUpload?
    requires s.calls[i].request.existing.None?
      || forall j :: 0 <= j < |s.calls| && s.calls[j].request.CreateUpload?
                     && s.calls[j].request.existing == s.calls[i].request.existing ==>
           KeyOf(s.calls[j].request) == KeyOf(s.calls[i].request)
    ensures |After(s, events).calls| == |s.calls| && After(s, events).calls[i].phase != Failed(Rethrown)
  {
    hide Enabled, Apply, Legal, Before, Initial, KeyOf;
    BeforeEnds(s, events);
    SameRequests(s, events, |events|, i);
    if After(s, events).calls[i].phase == Failed(Rethrown) {
      var p, w, l, k := RethrownByRival(s, events, i);
    }
  }

  /** An authorisation is only rethrown if it is for a source and its grant id was already given out. */
  lemma {:induction false} AuthorizationNotRethrown(s: System, events: seq<Event>, i: nat)
    requires Initial(s) && Legal(s, events) && i < |s.calls| && !s.calls[i].request.CreateUpload?
    requires s.calls[i].request.AuthorizeDelivery?
      || forall w :: 0 <= w < |events| && events[w].Write? && events[w].i == i ==> FreshGrant(Before(s, events, w), i)
    ensures |After(s, events).calls| == |s.calls| && After(s, events).calls[i].phase != Failed(Rethrown)
  {
    hide Enabled, Apply, Legal, Before, Initial, KeyOf;
    BeforeEnds(s, events);
    SameRequests(s, events, |events|, i);
    if After(s, events).calls[i].phase == Failed(Rethrown) {
      var p, w, l := RethrownHow(s, events, i);
      NoNumber(s, events, i, w);
    }
  }

  ghost predicate FreshGrant(s: System, i: nat) {
    i < |s.calls| && s.calls[i].phase.Planned? ==>
      var draft := s.calls[i].phase.draft;
      draft.GrantDraft? && draft.grantId.Some? ==> draft.grantId.value !in s.db.grants
  }

  lemma {:induction false} NoNumber(s: System, events: seq<Event>, i: nat, w: nat)
    requires Initial(s) && Legal(s, events) && w <= |events| && i < |s.calls| && !s.calls[i].request.CreateUpload?
    requires TakenAtWrite(Before(s, events, w), i)
    ensures var t := Before(s, events, w);
      t.calls[i].request == s.calls[i].request && GrantTaken(t.db, t.calls[i].request, t.calls[i].phase.draft)
  {
    hide Enabled, Apply, Legal, Before, Initial, KeyOf;
    InvBefore(s, events, w);
    SameRequests(s, events, w, i);
    var t := Before(s, events, w);
    InvParts(t);
    assert CallOk(t.db, t.calls[i]);
    hide Inv, Asked, RowsOk, CommitsOk, OnlyCommitted;
  }

  // ----- two runs -----

  lemma {:induction false} Snoc(s: System, events: seq<Event>, e: Event)
    requires Legal(s, events) && Enabled(After(s, events), e)
    ensures Legal(s, events + [e]) && After(s, events + [e]) == Apply(After(s, events), e)
  {
    hide Enabled, Apply;
    var more := events + [e];
    assert more[..|more| - 1] == events && more[|more| - 1] == e;
  }

  function Create(key: string, existing: Option<string>): Request {
    CreateUpload("s", key, "h", "n", None, existing, "o", "c")
  }

  function Made(number: nat, sessionId: string, versionId: string): IdempotentWrites.Result {
    Issued("a", "o", "n", None, "c", sessionId, versionId, number)
  }

  const NOTHING := Catalog(true, "", None, "")

  /**
   * Four callers: one makes asset `a`, one adds a version to it under key `x`, one under `y`, and one
   * under `x` again.
   */
  function Callers(p: Phase, q: Phase, r: Phase, t: Phase): seq<Call> {
    [Call(Create("k", None), p), Call(Create("x", Some("a")), q), Call(Create("y", Some("a")), r),
     Call(Create("x", Some("a")), t)]
  }

  const K := KeyOf(Create("k", None))
  const X := KeyOf(Create("x", Some("a")))
  const Y := KeyOf(Create("y", Some("a")))

  const FIRST := Reference("a", "v1", "u1")
  const SECOND := Reference("a", "v2", "u2")
  const THIRD := Reference("a", "v3", "u3")

  const EMPTY := Database({"n"}, {}, map[], map[], map[], map[], [], map[])

  const ONE := EMPTY.(assets := map["a" := AssetRow("o", "n", None)], versions := map["v1" := VersionRow("a", 1, "c")],
                      sessions := map["u1" := "v1"], records := map[K := Record("h", FIRST)])

  const TWO := ONE.(versions := ONE.versions["v2" := VersionRow("a", 2, "c")], sessions := ONE.sessions["u2" := "v2"],
                    records := ONE.records[Y := Record("h", SECOND)])

  const START := System(EMPTY, Callers(Waiting, Waiting, Waiting, Waiting), [])

  const MAKING := [Lookup(0), Plan(0, 0, NOTHING), Write(0, Ids("a", "v1", "u1"), true)]

  const MADE :=
    System(ONE, Callers(Returned(Made(1, "u1", "v1"), false), Waiting, Waiting, Waiting), [Commit(0, K, FIRST)])

  lemma {:induction false} MakingRuns()
    ensures Initial(START) && Legal(START, MAKING) && After(START, MAKING) == MADE
  {
    var e0, e1, e2 := Lookup(0), Plan(0, 0, NOTHING), Write(0, Ids("a", "v1", "u1"), true);
    assert Legal(START, []) && After(START, []) == START;
    Snoc(START, [], e0);
    Snoc(START, [e0], e1);
    Snoc(START, [e0, e1], e2);
    assert [] + [e0] == [e0] && [e0] + [e1] == [e0, e1] && [e0, e1] + [e2] == MAKING;
  }

  const PLANNING := MAKING + [Lookup(1)] + [Lookup(2)] + [Plan(1, 1, NOTHING)] + [Plan(2, 1, NOTHING)]

  const DRAFT := UploadDraft(Some("a"), None, 2)

  const PLANNED :=
    MADE.(calls := Callers(Returned(Made(1, "u1", "v1"), false), Planned(DRAFT), Planned(DRAFT), Waiting))

  /** Both callers draft number two. */
  lemma {:induction false} PlanningRuns()
    ensures Legal(START, PLANNING) && After(START, PLANNING) == PLANNED
  {
    MakingRuns();
    hide Legal, After, Initial;
    assert IsLatest(ONE, "a", 1) by {
      assert TakenNumber(ONE, "a", 1) by {
        assert "v1" in ONE.versions;
      }
    }
    hide IsLatest;
    Snoc(START, MAKING, Lookup(1));
    Snoc(START, MAKING + [Lookup(1)], Lookup(2));
    Snoc(START, MAKING + [Lookup(1)] + [Lookup(2)], Plan(1, 1, NOTHING));
    Snoc(START, MAKING + [Lookup(1)] + [Lookup(2)] + [Plan(1, 1, NOTHING)], Plan(2, 1, NOTHING));
  }

  const RACING := PLANNING + [Write(2, Ids("b", "v2", "u2"), true)] + [Write(1, Ids("b", "v3", "u3"), true)]

  function Raced(q: Phase, t: Phase): seq<Call> {
    Callers(Returned(Made(1, "u1", "v1"), false), q, Returned(Made(2, "u2", "v2"), false), t)
  }

  const WON := System(TWO, Raced(Planned(DRAFT), Waiting), [Commit(0, K, FIRST), Commit(2, Y, SECOND)])

  const RACED := WON.(calls := Raced(Collided, Waiting))

  lemma {:induction false} WinnerWrites()
    ensures var e := Write(2, Ids("b", "v2", "u2"), true); Enabled(PLANNED, e) && Apply(PLANNED, e) == WON
  {
    assert !TakenNumber(ONE, "a", 2);
    hide TakenNumber;
  }

  lemma {:induction false} LoserCollides()
    ensures var e := Write(1, Ids("b", "v3", "u3"), true); Enabled(WON, e) && Apply(WON, e) == RACED
  {
    assert TakenNumber(TWO, "a", 2) by {
      assert "v2" in TWO.versions;
    }
    hide TakenNumber;
  }

  /** The one under `y` is faster; the other finds the number taken. */
  lemma {:induction false} RacingRuns()
    ensures Initial(START) && Legal(START, RACING) && After(START, RACING) == RACED
  {
    hide Legal, After, Initial, Enabled, Apply;
    MakingRuns();
    PlanningRuns();
    WinnerWrites();
    LoserCollides();
    Snoc(START, PLANNING, Write(2, Ids("b", "v2", "u2"), true));
    Snoc(START, PLANNING + [Write(2, Ids("b", "v2", "u2"), true)], Write(1, Ids("b", "v3", "u3"), true));
  }

  /** Looking again at once, the slower caller finds no record of its own key and is handed the database's error. */
  lemma {:induction false} RivalIsRethrown()
    ensures Initial(START) && Legal(START, RACING + [LookAgain(1)])
    ensures After(START, RACING + [LookAgain(1)]).calls == Raced(Failed(Rethrown), Waiting)
  {
    RacingRuns();
    hide Legal, After, Initial;
    Snoc(START, RACING, LookAgain(1));
  }

  const RETRYING := RACING + [Lookup(3)] + [Plan(3, 2, NOTHING)] + [Write(3, Ids("b", "v3", "u3"), true)]

  const THREE := TWO.(versions := TWO.versions["v3" := VersionRow("a", 3, "c")], sessions := TWO.sessions["u3" := "v3"],
                      records := TWO.records[X := Record("h", THIRD)])

  const RETRIED :=
    System(THREE, Raced(Collided, Returned(Made(3, "u3", "v3"), false)), RACED.commits + [Commit(3, X, THIRD)])

  lemma {:induction false} RetryPlans()
    ensures Enabled(RACED, Lookup(3)) && Enabled(Apply(RACED, Lookup(3)), Plan(3, 2, NOTHING))
    ensures Apply(Apply(RACED, Lookup(3)), Plan(3, 2, NOTHING))
      == RACED.(calls := Raced(Collided, Planned(UploadDraft(Some("a"), None, 3))))
  {
    assert TakenNumber(TWO, "a", 2) by {
      assert "v2" in TWO.versions;
    }
    assert IsLatest(TWO, "a", 2);
    hide IsLatest, TakenNumber;
  }

  lemma {:induction false} RetryWrites()
    ensures var s, e :=
      RACED.(calls := Raced(Collided, Planned(UploadDraft(Some("a"), None, 3)))), Write(3, Ids("b", "v3", "u3"), true);
      Enabled(s, e) && Apply(s, e) == RETRIED
  {
    assert !TakenNumber(TWO, "a", 3);
    hide TakenNumber;
  }

  lemma {:induction false} RetryingRuns()
    ensures Initial(START) && Legal(START, RETRYING) && After(START, RETRYING) == RETRIED
  {
    hide Legal, After, Initial, Enabled, Apply;
    RacingRuns();
    RetryPlans();
    RetryWrites();
    Snoc(START, RACING, Lookup(3));
    Snoc(START, RACING + [Lookup(3)], Plan(3, 2, NOTHING));
    Snoc(START, RACING + [Lookup(3)] + [Plan(3, 2, NOTHING)], Write(3, Ids("b", "v3", "u3"), true));
  }

  lemma {:induction false} LoserReplays()
    ensures Enabled(RETRIED, LookAgain(1)) && Enabled(Apply(RETRIED, LookAgain(1)), Load(1))
    ensures Apply(Apply(RETRIED, LookAgain(1)), Load(1)).calls
      == Raced(Returned(Made(3, "u3", "v3"), true), Returned(Made(3, "u3", "v3"), false))
  {
  }

  /** If meanwhile another caller got through under its key, it replays that caller's session instead. */
  lemma {:induction false} OwnKeyReplays()
    ensures Initial(START) && Legal(START, RETRYING + [LookAgain(1)] + [Load(1)])
    ensures After(START, RETRYING + [LookAgain(1)] + [Load(1)]).calls
      == Raced(Returned(Made(3, "u3", "v3"), true), Returned(Made(3, "u3", "v3"), false))
  {
    hide Legal, After, Initial, Enabled, Apply;
    RetryingRuns();
    LoserReplays();
    Snoc(START, RETRYING, LookAgain(1));
    Snoc(START, RETRYING + [LookAgain(1)], Load(1));
  }
}
