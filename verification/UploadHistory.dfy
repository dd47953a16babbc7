/** Every interleaving of issuing, beginning and finishing completions, and what all of them keep. */
module UploadHistory {
  import opened Prelude
  import opened UploadSession

  /** What one completion call was asked and what it answered. */
  datatype Answer = Answer(asked: CompleteInput, reply: Reply)

  datatype IssueAnswer = IssueAnswer(asked: IssueInput, reply: IssueReply)

  /** `suspended` are the calls waiting for their canonicalisation; the two lists are histories. */
  datatype System = System(
    store: Store, suspended: map<nat, CompleteInput>, answers: seq<Answer>, issues: seq<IssueAnswer>)

  datatype Event =
    | Issuing(request: IssueInput, ids: Ids)
    | Beginning(call: nat, input: CompleteInput, now: Time)
    | Finishing(call: nat, outcome: Outcome)

  const START := System(EMPTY, map[], [], [])

  /** Generated ids are new, and a call finishes once, after it was suspended. */
  predicate Enabled(s: System, e: Event) {
    match e
    case Issuing(_, ids) =>
      ids.asset !in s.store.assets && ids.version !in s.store.versions && ids.session !in s.store.sessions
    case Beginning(call, _, _) => call !in s.suspended
    case Finishing(call, _) => call in s.suspended && Knows(s.store, s.suspended[call].sessionId)
  }

  function Apply(c: Conversions, s: System, e: Event): System
    requires Enabled(s, e)
  {
    match e
    case Issuing(input, ids) =>
      var (store, reply) := Issue(s.store, input, ids);
      s.(store := store, issues := s.issues + [IssueAnswer(input, reply)])
    case Beginning(call, input, now) =>
      var (store, begun) := Begin(c, s.store, input, now);
      if begun.Suspended? then s.(store := store, suspended := s.suspended[call := input])
      else s.(store := store, answers := s.answers + [Answer(input, begun.reply)])
    case Finishing(call, outcome) =>
      var input := s.suspended[call];
      var (store, reply) := Finish(c, s.store, input, outcome);
      s.(store := store, suspended := s.suspended - {call}, answers := s.answers + [Answer(input, reply)])
  }

  // ----- the invariant -----

  /** Sessions have their version, and no two share one. */
  ghost predicate Linked(s: Store) {
    && (forall id :: id in s.sessions ==> Knows(s, id))
    && (forall a, b :: a in s.sessions && b in s.sessions && a != b ==>
        s.sessions[a].versionId != s.sessions[b].versionId)
  }

  /** A version is where its number says it is in the list of its asset. */
  ghost predicate InList(s: Store, id: string)
    requires id in s.versions
  {
    var v := s.versions[id];
    && v.id == id && v.assetId in s.versionsByAsset && 1 <= v.number <= |s.versionsByAsset[v.assetId]|
    && s.versionsByAsset[v.assetId][v.number - 1] == id
  }

  /** The k-th version of an asset has number k. */
  ghost predicate ListOk(s: Store, assetId: string)
    requires assetId in s.versionsByAsset
  {
    && assetId in s.assets
    && forall k :: 0 <= k < |s.versionsByAsset[assetId]| ==>
         var id := s.versionsByAsset[assetId][k];
         id in s.versions && s.versions[id].number == k + 1 && s.versions[id].assetId == assetId
  }

  ghost predicate Numbered(s: Store) {
    && (forall id :: id in s.versions ==> InList(s, id))
    && (forall a :: a in s.versionsByAsset ==> ListOk(s, a))
    && (forall a :: a in s.assets ==> s.assets[a].id == a)
  }

  ghost predicate VersionOk(v: Version) {
    && v.state != Uploaded && v.state != Processing && v.state != Quarantined
    && (v.evidence.Some? <==> v.state == Canonical) && (v.dispatch.Some? <==> v.state == Canonical)
  }

  /** The stored completion result is exactly what the version's evidence rebuilds to. */
  ghost predicate SessionOk(c: Conversions, id: string, session: Session, v: Version) {
    && session.completion == Rebuild(c, id, v)
    && (session.completion.Some? ==> session.completionHash.Some?)
    && session.state != Terminated && (session.state == Invalid ==> v.state == FailedValidation)
  }

  ghost predicate States(c: Conversions, s: Store)
    requires Linked(s)
  {
    VersionsOk(s) && SessionsOk(c, s) && RecordsOk(s)
  }

  ghost predicate VersionsOk(s: Store) {
    forall id :: id in s.versions ==> VersionOk(s.versions[id])
  }

  ghost predicate SessionsOk(c: Conversions, s: Store)
    requires Linked(s)
  {
    forall id :: id in s.sessions ==> SessionOk(c, id, s.sessions[id], VersionAt(s, id))
  }

  ghost predicate RecordsOk(s: Store) {
    forall key :: key in s.completionRecords ==> Recorded(s, s.completionRecords[key].result)
  }

  function VersionAt(s: Store, sessionId: string): Version
    requires Knows(s, sessionId)
  {
    s.versions[s.sessions[sessionId].versionId]
  }

  ghost predicate Recorded(s: Store, r: Completion) {
    r.sessionId in s.sessions && s.sessions[r.sessionId].completion == Some(r)
  }

  /** The versions being canonicalised are those of the suspended calls, one call each. */
  ghost predicate Flight(s: Store, suspended: map<nat, CompleteInput>)
    requires Linked(s)
  {
    && (forall n :: n in suspended ==>
          suspended[n].sessionId in s.sessions && VersionAt(s, suspended[n].sessionId).state == Canonicalizing)
    && (forall m, n :: m in suspended && n in suspended && m != n ==> suspended[m].sessionId != suspended[n].sessionId)
    && (forall id :: id in s.sessions && VersionAt(s, id).state == Canonicalizing ==> Waiting(suspended, id))
  }

  ghost predicate Waiting(suspended: map<nat, CompleteInput>, id: string) {
    exists n :: n in suspended && suspended[n].sessionId == id
  }

  predicate First(a: Answer, id: string) {
    a.reply.Completed? && !a.reply.isDuplicate && a.reply.result.sessionId == id
  }

  ghost predicate AnswerOk(s: Store, a: Answer) {
    a.reply.Completed? ==>
      Recorded(s, a.reply.result) && (!a.reply.isDuplicate ==> a.reply.result.sessionId == a.asked.sessionId)
  }

  /** Every reply naming a session carries its one result; exactly one of them is not a duplicate. */
  ghost predicate AnswersOk(s: Store, answers: seq<Answer>) {
    && (forall k :: 0 <= k < |answers| ==> AnswerOk(s, answers[k]))
    && (forall k, l, id :: 0 <= k < l < |answers| && First(answers[k], id) ==> !First(answers[l], id))
    && (forall id :: id in s.sessions && s.sessions[id].completion.Some? ==> HasFirst(answers, id))
  }

  ghost predicate HasFirst(answers: seq<Answer>, id: string) {
    exists k :: 0 <= k < |answers| && First(answers[k], id)
  }

  ghost predicate IssueOk(s: Store, a: IssueAnswer) {
    a.reply.IssuedAs? ==>
      var key := Key(a.asked.scope, a.asked.idempotencyKey);
      key in s.issueRecords && s.issueRecords[key] == IssueRecord(a.asked.requestHash, a.reply.result)
  }

  predicate FirstIssue(a: IssueAnswer, key: Key) {
    a.reply.IssuedAs? && !a.reply.isDuplicate && Key(a.asked.scope, a.asked.idempotencyKey) == key
  }

  ghost predicate HasFirstIssue(issues: seq<IssueAnswer>, key: Key) {
    exists k :: 0 <= k < |issues| && FirstIssue(issues[k], key)
  }

  /** Every reply to a create key carries the session created first under it; exactly one is not a duplicate. */
  ghost predicate IssuesOk(s: Store, issues: seq<IssueAnswer>) {
    && (forall k :: 0 <= k < |issues| ==> IssueOk(s, issues[k]))
    && (forall k, l, key :: 0 <= k < l < |issues| && FirstIssue(issues[k], key) ==> !FirstIssue(issues[l], key))
    && (forall key :: key in s.issueRecords ==> HasFirstIssue(issues, key))
  }

  ghost predicate Inv(c: Conversions, s: System) {
    && Linked(s.store) && Numbered(s.store) && States(c, s.store) && Flight(s.store, s.suspended)
    && AnswersOk(s.store, s.answers) && IssuesOk(s.store, s.issues)
  }

  // ----- changing one session and its version -----

  /** Only the lifecycle of a version and the completion of a session ever change. */
  predicate SameVersion(v: Version, w: Version) {
    w == v.(state := w.state, evidence := w.evidence, dispatch := w.dispatch)
  }

  predicate SameSession(a: Session, b: Session) {
    b == a.(state := b.state, completionHash := b.completionHash, completion := b.completion)
  }

  ghost predicate SameIdentity(session: Session, next: Session, v: Version, w: Version) {
    SameSession(session, next) && SameVersion(v, w)
  }

  lemma {:induction false} ChangeKeepsLinks(s: Store, id: string, next: Session, w: Version)
    requires Linked(s) && id in s.sessions && SameIdentity(s.sessions[id], next, VersionAt(s, id), w)
    ensures Linked(PutBoth(s, id, next, w))
    ensures var t := PutBoth(s, id, next, w);
      && VersionAt(t, id) == w && t.sessions[id] == next && t.sessions.Keys == s.sessions.Keys
      && (forall other :: other in s.sessions && other != id ==>
            t.sessions[other] == s.sessions[other] && VersionAt(t, other) == VersionAt(s, other))
  {
    assert Knows(s, id);
  }

  lemma {:induction false} ChangeKeepsNumbers(s: Store, id: string, next: Session, w: Version)
    requires Linked(s) && Numbered(s) && id in s.sessions && SameIdentity(s.sessions[id], next, VersionAt(s, id), w)
    ensures Numbered(PutBoth(s, id, next, w))
  {
    var t := PutBoth(s, id, next, w);
    assert Knows(s, id);
    hide Linked, InList, ListOk, Knows, VersionAt;
    forall v | v in t.versions
      ensures InList(t, v)
    {
      ChangeInList(s, id, next, w, v);
    }
    forall a | a in t.versionsByAsset
      ensures ListOk(t, a)
    {
      ChangeListOk(s, id, next, w, a);
    }
  }

  lemma {:induction false} ChangeInList(s: Store, id: string, next: Session, w: Version, v: string)
    requires id in s.sessions && Knows(s, id) && SameIdentity(s.sessions[id], next, VersionAt(s, id), w)
    requires v in s.versions && InList(s, v)
    ensures InList(PutBoth(s, id, next, w), v)
  {
  }

  lemma {:induction false} ChangeListOk(s: Store, id: string, next: Session, w: Version, a: string)
    requires id in s.sessions && Knows(s, id) && SameIdentity(s.sessions[id], next, VersionAt(s, id), w)
    requires a in s.versionsByAsset && ListOk(s, a)
    ensures ListOk(PutBoth(s, id, next, w), a)
  {
  }

  /** The version may become `w`, and what was completed stays completed. */
  lemma {:induction false} ChangeKeepsStates(c: Conversions, s: Store, id: string, next: Session, w: Version)
    requires Linked(s) && States(c, s) && id in s.sessions && IsChange(c, s, id, next, w)
    ensures Linked(PutBoth(s, id, next, w)) && States(c, PutBoth(s, id, next, w))
    ensures forall r :: Recorded(s, r) ==> Recorded(PutBoth(s, id, next, w), r)
  {
    ChangeKeepsLinks(s, id, next, w);
    var t := PutBoth(s, id, next, w);
    hide Linked, SessionOk, VersionOk, VersionAt, SameIdentity;
    forall r | Recorded(s, r)
      ensures Recorded(t, r)
    {
    }
    hide Recorded;
    assert SessionsOk(c, t) by {
      hide VersionsOk, RecordsOk;
      forall other | other in t.sessions
        ensures SessionOk(c, other, t.sessions[other], VersionAt(t, other))
      {
        assert other != id ==> VersionAt(t, other) == VersionAt(s, other);
      }
    }
    hide SessionsOk;
  }

  lemma {:induction false} RecordKeeps(c: Conversions, s: Store, input: CompleteInput, r: Completion)
    requires Linked(s) && Numbered(s) && States(c, s) && Recorded(s, r)
    ensures var t := PutRecord(s, input, r); Linked(t) && Numbered(t) && States(c, t)
  {
    hide *;
    var t := PutRecord(s, input, r);
    RecordFrame(s, input, r);
    SameLinks(s, t);
    SameLists(s, t);
    SameStates(c, s, t, CompletionKey(input), CompletionRecord(input.requestHash, r));
  }

  lemma {:induction false} SameStates(c: Conversions, s: Store, t: Store, key: Key, record: CompletionRecord)
    requires Linked(s) && Linked(t) && States(c, s) && t.sessions == s.sessions && t.versions == s.versions
    requires t.completionRecords == s.completionRecords[key := record] && Recorded(s, record.result)
    ensures States(c, t)
  {
    SameLinks(s, t);
    hide Linked, SessionOk, VersionOk, VersionAt;
  }

  lemma {:induction false} SameLinks(s: Store, t: Store)
    requires Linked(s) && t.sessions == s.sessions && t.versions == s.versions
    ensures Linked(t) && forall id :: id in t.sessions ==> VersionAt(t, id) == VersionAt(s, id)
  {
  }

  lemma {:induction false} SameLists(s: Store, t: Store)
    requires Numbered(s) && t.versions == s.versions && t.versionsByAsset == s.versionsByAsset && t.assets == s.assets
    ensures Numbered(t)
  {
    hide InList, ListOk;
    forall v | v in t.versions
      ensures InList(t, v)
    {
      SameInList(s, t, v);
    }
    forall a | a in t.versionsByAsset
      ensures ListOk(t, a)
    {
      SameListOk(s, t, a);
    }
  }

  lemma {:induction false} SameInList(s: Store, t: Store, id: string)
    requires id in s.versions && InList(s, id) && t.versions == s.versions && t.versionsByAsset == s.versionsByAsset
    ensures InList(t, id)
  {
  }

  lemma {:induction false} SameListOk(s: Store, t: Store, a: string)
    requires a in s.versionsByAsset && ListOk(s, a)
    requires t.versions == s.versions && t.versionsByAsset == s.versionsByAsset && t.assets == s.assets
    ensures ListOk(t, a)
  {
  }

  /** A change of one session and its version that every invariant survives. */
  ghost predicate IsChange(c: Conversions, s: Store, id: string, next: Session, w: Version)
    requires Knows(s, id)
  {
    SameIdentity(s.sessions[id], next, VersionAt(s, id), w) && VersionOk(w) && SessionOk(c, id, next, w)
    && (s.sessions[id].completion.Some? ==> next.completion == s.sessions[id].completion)
  }

  /** An answer given without touching the store. */
  ghost predicate Settles(s: Store, begun: Begun) {
    begun.Answered? && (begun.reply.Completed? ==> begun.reply.isDuplicate && Recorded(s, begun.reply.result))
  }

  /** A version only leaves a retryable state, to be canonicalised or because it failed validation. */
  predicate Moves(begun: Begun, v: Version, w: Version) {
    match begun
    case Suspended => Retryable(v.state) && w.state == Canonicalizing
    case Answered(reply) => !reply.Completed? && (w == v || (Retryable(v.state) && w.state == FailedValidation))
  }

  // ----- beginning -----

  /**
   * What beginning a completion may do to a reachable store. The stored result and the rebuilt
   * one never part, so the replay from evidence alone is never taken.
   */
  lemma {:induction false} BeginCases(c: Conversions, s: Store, input: CompleteInput, now: Time)
    returns (next: Session, w: Version)
    requires Linked(s) && States(c, s)
    ensures var (t, begun), id := Begin(c, s, input, now), input.sessionId;
      || (t == s && Settles(t, begun))
      || (id in s.sessions && s.sessions[id].completion.Some?
          && t == PutRecord(s, input, s.sessions[id].completion.value)
          && Recorded(s, s.sessions[id].completion.value)
          && begun == Answered(Completed(s.sessions[id].completion.value, true)))
      || (id in s.sessions && t == PutBoth(s, id, next, w) && IsChange(c, s, id, next, w)
          && next.completion == s.sessions[id].completion
          && Moves(begun, VersionAt(s, id), w))
  {
    hide *;
    var id := input.sessionId;
    next, w := ArbitrarySession(), ArbitraryVersion();
    if id !in s.sessions {
      BeginUnknown(c, s, input, now);
    } else {
      ItsOk(c, s, id);
      var session, v := s.sessions[id], VersionAt(s, id);
      if CompletionKey(input) in s.completionRecords {
        BeginKnownKey(c, s, input, now);
      } else if now > session.expiresAt {
        next, w := session.(state := Expired), v;
        BeginExpired(c, s, input, now);
      } else if session.completion.Some? {
        CompletionRecorded(c, s, id);
        BeginCompleted(c, s, input, now);
      } else {
        next, w := OpenCases(c, s, input, session, v);
        BeginOpens(c, s, input, now);
      }
    }
  }

  lemma {:induction false} BeginUnknown(c: Conversions, s: Store, input: CompleteInput, now: Time)
    requires input.sessionId !in s.sessions
    ensures var (t, begun) := Begin(c, s, input, now);
      t == s && begun.Answered? && !begun.reply.Completed? && Settles(s, begun)
  {
  }

  /** A completion key that has a record decides everything: a replay of it, or a conflict. */
  lemma {:induction false} BeginKnownKey(c: Conversions, s: Store, input: CompleteInput, now: Time)
    requires Linked(s) && RecordsOk(s) && input.sessionId in s.sessions && CompletionKey(input) in s.completionRecords
    ensures var (t, begun), record := Begin(c, s, input, now), s.completionRecords[CompletionKey(input)];
      && t == s && Settles(s, begun)
      && begun == Answered(if record.requestHash == input.requestHash then Completed(record.result, true)
                           else Conflict(input.idempotencyKey))
  {
    assert Knows(s, input.sessionId);
    assert Recorded(s, s.completionRecords[CompletionKey(input)].result);
    hide Linked, RecordsOk, BeginOpen, CompletionKey, Recorded;
  }

  lemma {:induction false} BeginExpired(c: Conversions, s: Store, input: CompleteInput, now: Time)
    requires Linked(s) && input.sessionId in s.sessions && CompletionKey(input) !in s.completionRecords
    requires now > s.sessions[input.sessionId].expiresAt
    requires SessionOk(c, input.sessionId, s.sessions[input.sessionId], VersionAt(s, input.sessionId))
    requires VersionOk(VersionAt(s, input.sessionId))
    ensures var (t, begun), session, v :=
      Begin(c, s, input, now), s.sessions[input.sessionId], VersionAt(s, input.sessionId);
      var next := session.(state := Expired);
      && t == PutBoth(s, input.sessionId, next, v) && t.completionRecords == s.completionRecords
      && IsChange(c, s, input.sessionId, next, v) && next.completion == session.completion
      && begun == Answered(SessionExpired(input.sessionId)) && Moves(begun, v, v)
  {
    var session := s.sessions[input.sessionId];
    assert Knows(s, input.sessionId);
    assert s.versions == s.versions[session.versionId := VersionAt(s, input.sessionId)];
    hide Linked, BeginOpen, CompletionKey, VersionOk, Rebuild;
  }

  lemma {:induction false} BeginCompleted(c: Conversions, s: Store, input: CompleteInput, now: Time)
    requires Linked(s) && input.sessionId in s.sessions && CompletionKey(input) !in s.completionRecords
    requires now <= s.sessions[input.sessionId].expiresAt && s.sessions[input.sessionId].completion.Some?
    ensures var (t, begun), r := Begin(c, s, input, now), s.sessions[input.sessionId].completion.value;
      || (t == s && begun.Answered? && !begun.reply.Completed? && Settles(s, begun))
      || (t == PutRecord(s, input, r) && begun == Answered(Completed(r, true)))
  {
    assert Knows(s, input.sessionId);
    hide Linked, BeginOpen, CompletionKey, PutRecord;
  }

  lemma {:induction false} BeginOpens(c: Conversions, s: Store, input: CompleteInput, now: Time)
    requires Linked(s) && input.sessionId in s.sessions && CompletionKey(input) !in s.completionRecords
    requires now <= s.sessions[input.sessionId].expiresAt && s.sessions[input.sessionId].completion.None?
    ensures Begin(c, s, input, now)
      == BeginOpen(c, s, input, s.sessions[input.sessionId], VersionAt(s, input.sessionId))
  {
    assert Knows(s, input.sessionId);
    hide Linked, BeginOpen, CompletionKey;
  }

  lemma {:induction false} ItsOk(c: Conversions, s: Store, id: string)
    requires Linked(s) && States(c, s) && id in s.sessions
    ensures RecordsOk(s) && Knows(s, id) && SessionOk(c, id, s.sessions[id], VersionAt(s, id))
    ensures VersionOk(VersionAt(s, id))
  {
  }

  lemma {:induction false} OpenCases(c: Conversions, s: Store, input: CompleteInput, session: Session, v: Version)
    returns (next: Session, w: Version)
    requires input.sessionId in s.sessions && s.sessions[input.sessionId] == session && Knows(s, input.sessionId)
    requires VersionAt(s, input.sessionId) == v && SessionOk(c, input.sessionId, session, v) && VersionOk(v)
    requires session.completion.None?
    ensures var (t, begun) := BeginOpen(c, s, input, session, v);
      || (t == s && begun.Answered? && !begun.reply.Completed? && Settles(s, begun))
      || (t == PutBoth(s, input.sessionId, next, w) && IsChange(c, s, input.sessionId, next, w)
          && next.completion == session.completion && Moves(begun, v, w))
    ensures BeginOpen(c, s, input, session, v).0.completionRecords == s.completionRecords
    ensures var begun := BeginOpen(c, s, input, session, v).1; begun.Answered? ==> !begun.reply.Completed?
  {
    hide Check;
    if Check(session, v, input.staged).Some? {
      next, w := session.(state := Invalid), v.(state := FailedValidation);
    } else {
      next, w := session.(state := BytesUploaded), v.(state := Canonicalizing);
    }
  }

  function ArbitrarySession(): Session {
    Session("", Checksum("", ""), "", 0, "", "", "", None, "", "", Open, None, None)
  }

  function ArbitraryVersion(): Version {
    Version("", "", Checksum("", ""), "", "", "", None, "", 0, "", SessionCreated, 0, None, None)
  }

  lemma {:induction false} CompletionRecorded(c: Conversions, s: Store, id: string)
    requires Linked(s) && States(c, s) && id in s.sessions
    ensures s.sessions[id].completion.Some? ==> Recorded(s, s.sessions[id].completion.value)
  {
    assert SessionOk(c, id, s.sessions[id], VersionAt(s, id));
  }

  ghost predicate SameReplies(s: Store, t: Store) {
    (forall r :: Recorded(s, r) ==> Recorded(t, r))
    && forall id :: id in t.sessions && t.sessions[id].completion.Some? ==>
         id in s.sessions && s.sessions[id].completion.Some?
  }

  lemma {:induction false} AnswersStay(s: Store, t: Store, answers: seq<Answer>)
    requires AnswersOk(s, answers) && SameReplies(s, t)
    ensures AnswersOk(t, answers)
  {
    hide Recorded, First;
    forall id | id in t.sessions && t.sessions[id].completion.Some?
      ensures HasFirst(answers, id)
    {
      assert id in s.sessions;
    }
    forall k | 0 <= k < |answers|
      ensures AnswerOk(t, answers[k])
    {
      assert AnswerOk(s, answers[k]);
    }
  }

  lemma {:induction false} LaterAnswer(s: Store, answers: seq<Answer>, a: Answer)
    requires AnswersOk(s, answers)
    requires a.reply.Completed? ==> a.reply.isDuplicate && Recorded(s, a.reply.result)
    ensures AnswersOk(s, answers + [a])
  {
    hide Recorded;
    var more := answers + [a];
    forall id | id in s.sessions && s.sessions[id].completion.Some?
      ensures HasFirst(more, id)
    {
      FirstStays(answers, a, id);
    }
  }

  lemma {:induction false} FirstStays(answers: seq<Answer>, a: Answer, id: string)
    requires HasFirst(answers, id)
    ensures HasFirst(answers + [a], id)
  {
    var k :| 0 <= k < |answers| && First(answers[k], id);
    assert First((answers + [a])[k], id);
  }

  lemma {:induction false} IssuesStay(s: Store, t: Store, issues: seq<IssueAnswer>)
    requires IssuesOk(s, issues) && t.issueRecords == s.issueRecords
    ensures IssuesOk(t, issues)
  {
  }

  lemma {:induction false} ChangeSameReplies(c: Conversions, s: Store, id: string, next: Session, w: Version)
    requires Linked(s) && id in s.sessions && next.completion == s.sessions[id].completion
    ensures SameReplies(s, PutBoth(s, id, next, w))
  {
  }

  lemma {:induction false} BeginKeepsStore(c: Conversions, s: Store, input: CompleteInput, now: Time)
    requires Linked(s) && Numbered(s) && States(c, s)
    ensures var t := Begin(c, s, input, now).0;
      && Linked(t) && Numbered(t) && States(c, t) && SameReplies(s, t)
      && t.issueRecords == s.issueRecords && t.sessions.Keys == s.sessions.Keys
  {
    hide *;
    var next, w := BeginCases(c, s, input, now);
    var t, id := Begin(c, s, input, now).0, input.sessionId;
    if t == s {
      SameRepliesReflexive(s);
    } else {
      CompletionRecorded(c, s, id);
      KnowsAll(s, id);
      if s.sessions[id].completion.Some? && t == PutRecord(s, input, s.sessions[id].completion.value) {
        RecordKeeps(c, s, input, s.sessions[id].completion.value);
        RecordFrame(s, input, s.sessions[id].completion.value);
      } else {
        ChangeUnfold(c, s, id, next, w);
        ChangeKeepsLinks(s, id, next, w);
        ChangeKeepsNumbers(s, id, next, w);
        ChangeKeepsStates(c, s, id, next, w);
        ChangeSameReplies(c, s, id, next, w);
        ChangeFrame(s, id, next, w);
      }
    }
  }

  lemma {:induction false} SameRepliesReflexive(s: Store)
    ensures SameReplies(s, s)
  {
  }

  lemma {:induction false} ChangeUnfold(c: Conversions, s: Store, id: string, next: Session, w: Version)
    requires Linked(s) && id in s.sessions && Knows(s, id) && IsChange(c, s, id, next, w)
    ensures SameIdentity(s.sessions[id], next, VersionAt(s, id), w) && VersionOk(w) && SessionOk(c, id, next, w)
  {
  }

  lemma {:induction false} KnowsAll(s: Store, id: string)
    requires Linked(s) && id in s.sessions
    ensures Knows(s, id)
  {
  }

  // ----- which calls are waiting -----

  lemma {:induction false} SameFlight(s: Store, t: Store, suspended: map<nat, CompleteInput>)
    requires Linked(s) && Linked(t) && Flight(s, suspended) && t.sessions == s.sessions && t.versions == s.versions
    ensures Flight(t, suspended)
  {
    assert forall id :: id in t.sessions ==> Knows(s, id) && Knows(t, id);
    hide Linked, Waiting;
    assert forall id :: id in t.sessions ==> VersionAt(t, id) == VersionAt(s, id);
  }

  /** Changing one session and its version matters to the waiting calls only through that version's state. */
  lemma {:induction false} ChangedFlight(
      s: Store, suspended: map<nat, CompleteInput>, id: string, next: Session, w: Version,
      more: map<nat, CompleteInput>)
    requires Linked(s) && Flight(s, suspended) && id in s.sessions
    requires SameIdentity(s.sessions[id], next, VersionAt(s, id), w)
    requires forall n :: n in more ==>
      if more[n].sessionId == id then w.state == Canonicalizing else n in suspended && suspended[n] == more[n]
    requires forall m, n :: m in more && n in more && m != n ==> more[m].sessionId != more[n].sessionId
    requires forall other :: Waiting(suspended, other) && other != id ==> Waiting(more, other)
    requires w.state == Canonicalizing ==> Waiting(more, id)
    ensures Linked(PutBoth(s, id, next, w)) && Flight(PutBoth(s, id, next, w), more)
  {
    ChangeKeepsLinks(s, id, next, w);
    var t := PutBoth(s, id, next, w);
    hide Linked, Waiting, SameIdentity, PutBoth, VersionAt;
  }

  lemma {:induction false} NewFlight(
      c: Conversions, s: Store, suspended: map<nat, CompleteInput>, call: nat, input: CompleteInput,
      next: Session, w: Version)
    requires Linked(s) && Flight(s, suspended) && call !in suspended && input.sessionId in s.sessions
    requires SameIdentity(s.sessions[input.sessionId], next, VersionAt(s, input.sessionId), w)
    requires VersionAt(s, input.sessionId).state != Canonicalizing && w.state == Canonicalizing
    ensures Linked(PutBoth(s, input.sessionId, next, w))
    ensures Flight(PutBoth(s, input.sessionId, next, w), suspended[call := input])
  {
    NewWait(suspended, call, input);
    NobodyWaits(s, suspended, input.sessionId);
    hide Linked, Flight, Waiting, SameIdentity, PutBoth, VersionAt;
    ChangedFlight(s, suspended, input.sessionId, next, w, suspended[call := input]);
  }

  lemma {:induction false} NobodyWaits(s: Store, suspended: map<nat, CompleteInput>, id: string)
    requires Linked(s) && Flight(s, suspended) && id in s.sessions
    ensures forall m, n :: m in suspended && n in suspended && m != n ==>
      suspended[m].sessionId != suspended[n].sessionId
    ensures VersionAt(s, id).state != Canonicalizing ==> forall n :: n in suspended ==> suspended[n].sessionId != id
    ensures VersionAt(s, id).state == Canonicalizing ==> Waiting(suspended, id)
  {
    hide Linked, Waiting, VersionAt;
  }

  /** A version that was not being canonicalised, and is not now, does not matter to the waiting calls. */
  lemma {:induction false} OtherFlight(
      s: Store, suspended: map<nat, CompleteInput>, id: string, next: Session, w: Version)
    requires Linked(s) && Flight(s, suspended) && id in s.sessions
    requires SameIdentity(s.sessions[id], next, VersionAt(s, id), w)
    requires w.state == Canonicalizing <==> VersionAt(s, id).state == Canonicalizing
    ensures Linked(PutBoth(s, id, next, w)) && Flight(PutBoth(s, id, next, w), suspended)
  {
    NobodyWaits(s, suspended, id);
    hide Linked, Flight, Waiting, SameIdentity, PutBoth, VersionAt;
    ChangedFlight(s, suspended, id, next, w, suspended);
  }

  /** The call that was waiting for the version is done. */
  lemma {:induction false} EndFlight(s: Store, suspended: map<nat, CompleteInput>, call: nat, next: Session, w: Version)
    requires Linked(s) && Flight(s, suspended) && call in suspended && suspended[call].sessionId in s.sessions
    requires SameIdentity(s.sessions[suspended[call].sessionId], next, VersionAt(s, suspended[call].sessionId), w)
    requires w.state != Canonicalizing
    ensures Linked(PutBoth(s, suspended[call].sessionId, next, w))
    ensures Flight(PutBoth(s, suspended[call].sessionId, next, w), suspended - {call})
  {
    OtherWaits(suspended, call);
    NobodyWaits(s, suspended, suspended[call].sessionId);
    hide Linked, Flight, Waiting, SameIdentity, PutBoth, VersionAt;
    ChangedFlight(s, suspended, suspended[call].sessionId, next, w, suspended - {call});
  }

  lemma {:induction false} NewWait(suspended: map<nat, CompleteInput>, call: nat, input: CompleteInput)
    requires call !in suspended
    ensures Waiting(suspended[call := input], input.sessionId)
    ensures forall id :: Waiting(suspended, id) ==> Waiting(suspended[call := input], id)
  {
    var more := suspended[call := input];
    assert call in more;
    forall id | Waiting(suspended, id)
      ensures Waiting(more, id)
    {
      var n :| n in suspended && suspended[n].sessionId == id;
      assert n in more && more[n].sessionId == id;
    }
  }

  lemma {:induction false} OtherWaits(suspended: map<nat, CompleteInput>, call: nat)
    requires call in suspended
    ensures forall id :: Waiting(suspended, id) && id != suspended[call].sessionId ==> Waiting(suspended - {call}, id)
  {
    forall id | Waiting(suspended, id) && id != suspended[call].sessionId
      ensures Waiting(suspended - {call}, id)
    {
      var n :| n in suspended && suspended[n].sessionId == id;
      assert n in suspended - {call};
    }
  }

  lemma {:induction false} BeginKeepsFlight(c: Conversions, s: System, call: nat, input: CompleteInput, now: Time)
    requires Linked(s.store) && Numbered(s.store) && States(c, s.store) && Flight(s.store, s.suspended)
    requires call !in s.suspended
    ensures var (t, begun) := Begin(c, s.store, input, now);
      Linked(t) && Flight(t, if begun.Suspended? then s.suspended[call := input] else s.suspended)
  {
    BeginKeepsStore(c, s.store, input, now);
    var next, w := BeginCases(c, s.store, input, now);
    var (t, begun) := Begin(c, s.store, input, now);
    var id := input.sessionId;
    hide *;
    if begun.Answered? && t.sessions == s.store.sessions && t.versions == s.store.versions {
      SameFlight(s.store, t, s.suspended);
    } else {
      BeginMoves(c, s.store, input, now, next, w);
      KnowsAll(s.store, id);
      ChangeUnfold(c, s.store, id, next, w);
      if begun.Suspended? {
        NewFlight(c, s.store, s.suspended, call, input, next, w);
      } else {
        OtherFlight(s.store, s.suspended, id, next, w);
      }
    }
  }

  lemma {:induction false} BeginMoves(
      c: Conversions, s: Store, input: CompleteInput, now: Time, next: Session, w: Version)
    requires Linked(s) && States(c, s)
    requires var (t, begun), id := Begin(c, s, input, now), input.sessionId;
      || (t == s && Settles(t, begun))
      || (id in s.sessions && s.sessions[id].completion.Some?
          && t == PutRecord(s, input, s.sessions[id].completion.value)
          && begun == Answered(Completed(s.sessions[id].completion.value, true)))
      || (id in s.sessions && t == PutBoth(s, id, next, w) && IsChange(c, s, id, next, w)
          && Moves(begun, VersionAt(s, id), w))
    ensures var (t, begun), id := Begin(c, s, input, now), input.sessionId;
      || (begun.Answered? && t.sessions == s.sessions && t.versions == s.versions)
      || (id in s.sessions && t == PutBoth(s, id, next, w) && IsChange(c, s, id, next, w)
          && (begun.Suspended? ==> VersionAt(s, id).state != Canonicalizing && w.state == Canonicalizing)
          && (begun.Answered? ==> (w.state == Canonicalizing <==> VersionAt(s, id).state == Canonicalizing)))
  {
    hide Begin, Linked, States, IsChange;
  }

  lemma {:induction false} BeginKeepsInv(c: Conversions, s: System, call: nat, input: CompleteInput, now: Time)
    requires Inv(c, s) && Enabled(s, Beginning(call, input, now))
    ensures Inv(c, Apply(c, s, Beginning(call, input, now)))
  {
    var (t, begun) := Begin(c, s.store, input, now);
    BeginKeepsStore(c, s.store, input, now);
    BeginKeepsFlight(c, s, call, input, now);
    BeginAnswer(c, s.store, input, now);
    hide Begin, Linked, Numbered, States, Flight, AnswersOk, IssuesOk;
    IssuesStay(s.store, t, s.issues);
    AnswersStay(s.store, t, s.answers);
    if begun.Answered? {
      LaterAnswer(t, s.answers, Answer(input, begun.reply));
    }
  }

  lemma {:induction false} BeginAnswer(c: Conversions, s: Store, input: CompleteInput, now: Time)
    requires Linked(s) && Numbered(s) && States(c, s)
    ensures var (t, begun) := Begin(c, s, input, now);
      begun.Answered? && begun.reply.Completed? ==> begun.reply.isDuplicate && Recorded(t, begun.reply.result)
  {
    var next, w := BeginCases(c, s, input, now);
    hide Begin, Linked, Numbered, States, IsChange;
  }

  // ----- finishing -----

  /** A canonicalisation that came through changes the session and its version to these. */
  function FinishedVersion(c: Conversions, v: Version, input: CompleteInput, outcome: Outcome): Version {
    if outcome.Threw? then v.(state := FailedRetryable) else CanonicalVersion(c, v, input, outcome)
  }

  function FinishedSession(
      c: Conversions, session: Session, v: Version, input: CompleteInput, outcome: Outcome): Session
  {
    if outcome.Threw? then session
    else
      session.(completionHash := Some(input.requestHash),
               completion := Rebuild(c, input.sessionId, FinishedVersion(c, v, input, outcome)))
  }

  lemma {:induction false} FinishCases(c: Conversions, s: Store, input: CompleteInput, outcome: Outcome)
    returns (next: Session, w: Version)
    requires Linked(s) && States(c, s) && input.sessionId in s.sessions
    requires VersionAt(s, input.sessionId).state == Canonicalizing
    ensures IsChange(c, s, input.sessionId, next, w) && w.state != Canonicalizing
    ensures s.sessions[input.sessionId].completion.None? && (next.completion.Some? <==> outcome.Snapshotted?)
    ensures outcome.Threw? ==>
      Finish(c, s, input, outcome) == (PutBoth(s, input.sessionId, next, w), CanonicalizationFailed(input.sessionId))
    ensures outcome.Snapshotted? ==>
      var r := next.completion.value;
      r.sessionId == input.sessionId && w.state == Canonical
      && Finish(c, s, input, outcome)
           == (PutRecord(PutBoth(s, input.sessionId, next, w), input, r), Completed(r, false))
  {
    var id := input.sessionId;
    assert Knows(s, id);
    var session, v := s.sessions[id], VersionAt(s, id);
    assert SessionOk(c, id, session, v) && VersionOk(v);
    assert s.sessions == s.sessions[id := session];
    hide Linked, States;
    next, w := FinishedSession(c, session, v, input, outcome), FinishedVersion(c, v, input, outcome);
  }

  lemma {:induction false} FinishKeepsInv(c: Conversions, s: System, call: nat, outcome: Outcome)
    requires Inv(c, s) && Enabled(s, Finishing(call, outcome))
    ensures Inv(c, Apply(c, s, Finishing(call, outcome)))
  {
    var input := s.suspended[call];
    var id := input.sessionId;
    assert VersionAt(s.store, id).state == Canonicalizing;
    var next, w := FinishCases(c, s.store, input, outcome);
    var changed := PutBoth(s.store, id, next, w);
    var (t, reply) := Finish(c, s.store, input, outcome);
    hide Finish, Linked, Numbered, States, Flight, AnswersOk, IssuesOk, SessionOk, VersionOk, PutBoth, PutRecord;
    ChangeKeepsLinks(s.store, id, next, w);
    ChangeKeepsNumbers(s.store, id, next, w);
    ChangeKeepsStates(c, s.store, id, next, w);
    EndFlight(s.store, s.suspended, call, next, w);
    ChangeFrame(s.store, id, next, w);
    IssuesStay(s.store, changed, s.issues);
    if outcome.Threw? {
      ChangeSameReplies(c, s.store, id, next, w);
      AnswersStay(s.store, changed, s.answers);
      LaterAnswer(changed, s.answers, Answer(input, reply));
    } else {
      var r := next.completion.value;
      FirstAnswer(s.store, changed, s.answers, Answer(input, reply));
      RecordKeeps(c, changed, input, r);
      RecordFrame(changed, input, r);
      SameFlight(changed, t, s.suspended - {call});
      IssuesStay(changed, t, s.issues);
      AnswersStay(changed, t, s.answers + [Answer(input, reply)]);
    }
  }

  lemma {:induction false} ChangeFrame(s: Store, id: string, next: Session, w: Version)
    requires id in s.sessions
    ensures var t := PutBoth(s, id, next, w);
      && t.issueRecords == s.issueRecords && t.sessions == s.sessions[id := next]
      && (next.completion.Some? && next.completion.value.sessionId == id ==> Recorded(t, next.completion.value))
  {
  }

  lemma {:induction false} RecordFrame(s: Store, input: CompleteInput, r: Completion)
    ensures var t := PutRecord(s, input, r);
      && t.sessions == s.sessions && t.versions == s.versions && t.issueRecords == s.issueRecords && SameReplies(s, t)
      && t.versionsByAsset == s.versionsByAsset && t.assets == s.assets
      && t.completionRecords == s.completionRecords[CompletionKey(input) := CompletionRecord(input.requestHash, r)]
  {
  }

  lemma {:induction false} FirstAnswer(s: Store, t: Store, answers: seq<Answer>, a: Answer)
    requires AnswersOk(s, answers) && a.reply.Completed? && !a.reply.isDuplicate
    requires a.reply.result.sessionId == a.asked.sessionId
    requires a.asked.sessionId in s.sessions && s.sessions[a.asked.sessionId].completion.None?
    requires a.asked.sessionId in t.sessions
    requires t.sessions == s.sessions[a.asked.sessionId := t.sessions[a.asked.sessionId]] && Recorded(t, a.reply.result)
    ensures AnswersOk(t, answers + [a])
  {
    var more := answers + [a];
    forall k | 0 <= k < |answers|
      ensures !First(answers[k], a.asked.sessionId) && AnswerOk(t, answers[k])
    {
      assert AnswerOk(s, answers[k]);
    }
    forall id | id in t.sessions && t.sessions[id].completion.Some?
      ensures HasFirst(more, id)
    {
      if id == a.asked.sessionId {
        assert First(more[|answers|], id);
      } else {
        assert HasFirst(answers, id);
        FirstStays(answers, a, id);
      }
    }
    hide Recorded;
    assert AnswerOk(t, a);
    hide First, AnswerOk;
    FirstPairs(s, answers, a);
  }

  lemma {:induction false} FirstPairs(s: Store, answers: seq<Answer>, a: Answer)
    requires AnswersOk(s, answers)
    requires forall k :: 0 <= k < |answers| ==> !First(answers[k], a.asked.sessionId)
    requires forall id :: First(a, id) ==> id == a.asked.sessionId
    ensures var more := answers + [a];
      forall k, l, id :: 0 <= k < l < |more| && First(more[k], id) ==> !First(more[l], id)
  {
    hide First, AnswerOk;
  }

  // ----- issuing -----

  ghost predicate FreshIds(s: Store, ids: Ids) {
    ids.asset !in s.assets && ids.version !in s.versions && ids.session !in s.sessions
  }

  /** The store after a session was issued on `asset`. */
  ghost predicate IssuesOn(s: Store, t: Store, asset: Asset, session: Session, v: Version, ids: Ids) {
    && t.sessions == s.sessions[ids.session := session] && session.versionId == ids.version
    && session.completion.None? && session.state == Open
    && t.versions == s.versions[ids.version := v] && v.id == ids.version && v.assetId == asset.id
    && v.number == |VersionsOf(s, asset.id)| + 1 && v.state == SessionCreated && v.evidence.None? && v.dispatch.None?
    && t.versionsByAsset == s.versionsByAsset[asset.id := VersionsOf(s, asset.id) + [ids.version]]
    && t.assets == s.assets[asset.id := asset] && t.completionRecords == s.completionRecords
  }

  lemma {:induction false} IssueCases(s: Store, input: IssueInput, ids: Ids)
    returns (asset: Asset, session: Session, v: Version)
    requires Numbered(s)
    ensures Issue(s, input, ids).0 == s || IssuesOn(s, Issue(s, input, ids).0, asset, session, v, ids)
  {
    var resolved := ResolveAsset(s, input, ids);
    asset := if resolved.Some? then resolved.value else Asset("", "", "", None);
    assert Present(input.assetId).Some? && resolved.Some? ==> s.assets == s.assets[asset.id := asset];
    hide Numbered;
    session, v := NewSession(input, asset, ids), NewVersion(input, asset, ids, |VersionsOf(s, asset.id)| + 1);
  }

  lemma {:induction false} IssueKeepsLinks(s: Store, t: Store, asset: Asset, session: Session, v: Version, ids: Ids)
    requires Linked(s) && FreshIds(s, ids) && IssuesOn(s, t, asset, session, v, ids)
    ensures Linked(t) && VersionAt(t, ids.session) == v && t.sessions[ids.session] == session
    ensures forall id :: id in s.sessions ==>
      id in t.sessions && t.sessions[id] == s.sessions[id] && VersionAt(t, id) == VersionAt(s, id)
  {
    forall id | id in s.sessions
      ensures s.sessions[id].versionId in s.versions && s.sessions[id].versionId != ids.version
    {
      assert Knows(s, id);
    }
  }

  lemma {:induction false} IssueKeepsNumbers(s: Store, t: Store, asset: Asset, session: Session, v: Version, ids: Ids)
    requires Numbered(s) && FreshIds(s, ids) && IssuesOn(s, t, asset, session, v, ids)
    ensures Numbered(t)
  {
    forall id | id in t.versions
      ensures InList(t, id)
    {
      if id == ids.version {
        NewInList(s, t, asset, session, v, ids);
      } else {
        OldInList(s, t, asset, session, v, ids, id);
      }
    }
    forall a | a in t.versionsByAsset
      ensures ListOk(t, a)
    {
      ListStaysOk(s, t, asset, session, v, ids, a);
    }
    hide InList, ListOk;
  }

  lemma {:induction false} NewInList(s: Store, t: Store, asset: Asset, session: Session, v: Version, ids: Ids)
    requires IssuesOn(s, t, asset, session, v, ids)
    ensures ids.version in t.versions && InList(t, ids.version)
  {
  }

  lemma {:induction false} OldInList(
      s: Store, t: Store, asset: Asset, session: Session, v: Version, ids: Ids, id: string)
    requires IssuesOn(s, t, asset, session, v, ids) && id in s.versions && InList(s, id) && id != ids.version
    ensures id in t.versions && InList(t, id)
  {
    var w := s.versions[id];
    assert w.assetId == asset.id ==>
      t.versionsByAsset[asset.id][w.number - 1] == s.versionsByAsset[asset.id][w.number - 1];
  }

  lemma {:induction false} ListStaysOk(
      s: Store, t: Store, asset: Asset, session: Session, v: Version, ids: Ids, a: string)
    requires Numbered(s) && FreshIds(s, ids) && IssuesOn(s, t, asset, session, v, ids) && a in t.versionsByAsset
    ensures ListOk(t, a)
  {
    assert a in s.versionsByAsset ==> ListOk(s, a);
    hide InList, Numbered;
    if a == asset.id {
      var known := VersionsOf(s, a);
      forall k | 0 <= k < |t.versionsByAsset[a]|
        ensures var id := t.versionsByAsset[a][k];
          id in t.versions && t.versions[id].number == k + 1 && t.versions[id].assetId == a
      {
        assert k < |known| ==> t.versionsByAsset[a][k] == known[k];
      }
    }
  }

  lemma {:induction false} IssueKeepsStates(
      c: Conversions, s: Store, t: Store, asset: Asset, session: Session, v: Version, ids: Ids)
    requires Linked(s) && Linked(t) && States(c, s) && FreshIds(s, ids) && IssuesOn(s, t, asset, session, v, ids)
    requires VersionAt(t, ids.session) == v && t.sessions[ids.session] == session
    requires forall id :: id in s.sessions ==>
      id in t.sessions && t.sessions[id] == s.sessions[id] && VersionAt(t, id) == VersionAt(s, id)
    ensures States(c, t) && SameReplies(s, t)
  {
    NewVersionOk(v);
    IssueKeepsSessions(c, s, t, asset, session, v, ids);
    hide Linked, VersionAt, VersionOk, SessionsOk;
  }

  lemma {:induction false} IssueKeepsSessions(
      c: Conversions, s: Store, t: Store, asset: Asset, session: Session, v: Version, ids: Ids)
    requires Linked(s) && Linked(t) && SessionsOk(c, s) && IssuesOn(s, t, asset, session, v, ids)
    requires VersionAt(t, ids.session) == v && t.sessions[ids.session] == session
    requires forall id :: id in s.sessions ==>
      id in t.sessions && t.sessions[id] == s.sessions[id] && VersionAt(t, id) == VersionAt(s, id)
    ensures SessionsOk(c, t)
  {
    assert SessionOk(c, ids.session, session, v);
    hide SessionOk, Linked, VersionAt;
    assert forall id :: id in t.sessions ==> id in s.sessions || id == ids.session;
  }

  lemma {:induction false} NewVersionOk(v: Version)
    requires v.state == SessionCreated && v.evidence.None? && v.dispatch.None?
    ensures VersionOk(v)
  {
  }

  lemma {:induction false} IssueKeepsFlight(s: Store, t: Store, suspended: map<nat, CompleteInput>, id: string)
    requires Linked(s) && Linked(t) && Flight(s, suspended) && t.sessions.Keys == s.sessions.Keys + {id}
    requires VersionAt(t, id).state != Canonicalizing
    requires forall other :: other in s.sessions && other != id ==> VersionAt(t, other) == VersionAt(s, other)
    requires id !in s.sessions
    ensures Flight(t, suspended)
  {
    hide Linked, VersionAt, Waiting;
  }

  lemma {:induction false} IssueKeepsIssues(s: Store, issues: seq<IssueAnswer>, input: IssueInput, ids: Ids)
    requires IssuesOk(s, issues)
    ensures var (t, reply) := Issue(s, input, ids); IssuesOk(t, issues + [IssueAnswer(input, reply)])
  {
    var (t, reply) := Issue(s, input, ids);
    var a := IssueAnswer(input, reply);
    var more, key := issues + [a], Key(input.scope, input.idempotencyKey);
    IssueRecords(s, input, ids);
    hide Issue;
    forall k | 0 <= k < |more|
      ensures IssueOk(t, more[k])
    {
      assert k < |issues| ==> IssueOk(s, issues[k]);
    }
    forall k | 0 <= k < |issues| && FirstIssue(issues[k], key)
      ensures !FirstIssue(a, key)
    {
      assert IssueOk(s, issues[k]);
    }
    forall other | other in t.issueRecords
      ensures HasFirstIssue(more, other)
    {
      if other in s.issueRecords {
        assert HasFirstIssue(issues, other);
        var k :| 0 <= k < |issues| && FirstIssue(issues[k], other);
        assert FirstIssue(more[k], other);
      } else {
        assert FirstIssue(more[|issues|], other);
      }
    }
  }

  lemma {:induction false} IssueRecords(s: Store, input: IssueInput, ids: Ids)
    ensures var (t, reply) := Issue(s, input, ids);
      var key := Key(input.scope, input.idempotencyKey);
      && (forall other :: other in s.issueRecords ==>
          other in t.issueRecords && t.issueRecords[other] == s.issueRecords[other])
      && (forall other :: other in t.issueRecords && other !in s.issueRecords ==>
          other == key && reply.IssuedAs? && !reply.isDuplicate)
      && (reply.IssuedAs? ==>
          key in t.issueRecords && t.issueRecords[key] == IssueRecord(input.requestHash, reply.result)
                              && (reply.isDuplicate <==> key in s.issueRecords))
  {
  }

  lemma {:induction false} IssueKeepsInv(c: Conversions, s: System, input: IssueInput, ids: Ids)
    requires Inv(c, s) && FreshIds(s.store, ids)
    ensures var (t, reply) := Issue(s.store, input, ids);
      Inv(c, s.(store := t, issues := s.issues + [IssueAnswer(input, reply)]))
  {
    hide *;
    var t := Issue(s.store, input, ids).0;
    InvParts(c, s);
    IssueKeepsIssues(s.store, s.issues, input, ids);
    var asset, session, v := IssueCases(s.store, input, ids);
    if t != s.store {
      IssueKeepsLinks(s.store, t, asset, session, v, ids);
      IssueKeepsNumbers(s.store, t, asset, session, v, ids);
      IssueKeepsStates(c, s.store, t, asset, session, v, ids);
      NotYet(s.store, ids);
      NewKeys(s.store, t, asset, session, v, ids);
      IssueKeepsFlight(s.store, t, s.suspended, ids.session);
      AnswersStay(s.store, t, s.answers);
    }
    InvWhole(c, s.(store := t, issues := s.issues + [IssueAnswer(input, Issue(s.store, input, ids).1)]));
  }

  lemma {:induction false} InvParts(c: Conversions, s: System)
    requires Inv(c, s)
    ensures Linked(s.store) && Numbered(s.store) && States(c, s.store) && Flight(s.store, s.suspended)
    ensures AnswersOk(s.store, s.answers) && IssuesOk(s.store, s.issues)
  {
  }

  lemma {:induction false} InvWhole(c: Conversions, s: System)
    requires Linked(s.store) && Numbered(s.store) && States(c, s.store) && Flight(s.store, s.suspended)
    requires AnswersOk(s.store, s.answers) && IssuesOk(s.store, s.issues)
    ensures Inv(c, s)
  {
  }

  lemma {:induction false} NewKeys(s: Store, t: Store, asset: Asset, session: Session, v: Version, ids: Ids)
    requires IssuesOn(s, t, asset, session, v, ids)
    ensures t.sessions.Keys == s.sessions.Keys + {ids.session} && v.state == SessionCreated
  {
  }

  lemma {:induction false} NotYet(s: Store, ids: Ids)
    requires FreshIds(s, ids)
    ensures ids.session !in s.sessions
  {
  }

  // ----- runs -----

  lemma {:induction false} StepKeepsInv(c: Conversions, s: System, e: Event)
    requires Inv(c, s) && Enabled(s, e)
    ensures Inv(c, Apply(c, s, e))
  {
    hide Inv, Issue, Finish, Begin;
    match e
    case Issuing(input, ids) => IssueKeepsInv(c, s, input, ids);
    case Finishing(call, outcome) => FinishKeepsInv(c, s, call, outcome);
    case Beginning(call, input, now) => BeginKeepsInv(c, s, call, input, now);
  }

  function After(c: Conversions, events: seq<Event>): System
    requires Legal(c, events)
    decreases |events|, 2
  {
    if events == [] then START else Apply(c, After(c, events[..|events| - 1]), events[|events| - 1])
  }

  /** Each event is enabled where it happens. */
  predicate Legal(c: Conversions, events: seq<Event>)
    decreases |events|, 1
  {
    events == []
    || (Legal(c, events[..|events| - 1]) && Enabled(After(c, events[..|events| - 1]), events[|events| - 1]))
  }

  lemma {:induction false} ReachableInv(c: Conversions, events: seq<Event>)
    requires Legal(c, events)
    ensures Inv(c, After(c, events))
    decreases |events|
  {
    if events != [] {
      hide Inv, Enabled, Apply;
      ReachableInv(c, events[..|events| - 1]);
      StepKeepsInv(c, After(c, events[..|events| - 1]), events[|events| - 1]);
    }
  }

  // ----- what holds in every reachable state -----

  /** The k-th version of an asset has number k. */
  lemma {:induction false} VersionsAreNumbered(c: Conversions, events: seq<Event>, assetId: string, k: nat)
    requires Legal(c, events) && assetId in After(c, events).store.versionsByAsset
    requires k < |After(c, events).store.versionsByAsset[assetId]|
    ensures var s := After(c, events).store;
      var id := s.versionsByAsset[assetId][k];
      id in s.versions && s.versions[id].number == k + 1 && s.versions[id].assetId == assetId
  {
    ReachableInv(c, events);
    hide After, States, Linked, Flight, AnswersOk, IssuesOk, InList;
    assert ListOk(After(c, events).store, assetId);
  }

  /** No two waiting calls canonicalise the same version, and every version being canonicalised has its waiting call. */
  lemma {:induction false} OneInFlight(c: Conversions, events: seq<Event>)
    requires Legal(c, events)
    ensures var s := After(c, events);
      && (forall n :: n in s.suspended ==>
            Knows(s.store, s.suspended[n].sessionId)
              && VersionAt(s.store, s.suspended[n].sessionId).state == Canonicalizing)
      && (forall m, n :: m in s.suspended && n in s.suspended && m != n ==>
            VersionAt(s.store, s.suspended[m].sessionId).id != VersionAt(s.store, s.suspended[n].sessionId).id)
      && (forall id :: Knows(s.store, id) && VersionAt(s.store, id).state == Canonicalizing ==>
          Waiting(s.suspended, id))
  {
    ReachableInv(c, events);
    var s := After(c, events);
    forall n | n in s.suspended
      ensures Knows(s.store, s.suspended[n].sessionId)
      ensures VersionAt(s.store, s.suspended[n].sessionId).id == s.store.sessions[s.suspended[n].sessionId].versionId
    {
      assert InList(s.store, s.store.sessions[s.suspended[n].sessionId].versionId);
    }
    hide After, States, Numbered, AnswersOk, IssuesOk, Waiting;
  }

  /**
   * A session has a completion result exactly when its version is canonical, and then the evidence
   * rebuilds the same one.
   */
  lemma {:induction false} ResultIsTheEvidence(c: Conversions, events: seq<Event>, id: string)
    requires Legal(c, events) && id in After(c, events).store.sessions
    ensures var s := After(c, events).store;
      && Knows(s, id)
      && s.sessions[id].completion == Rebuild(c, id, VersionAt(s, id))
      && var v := VersionAt(s, id);
         s.sessions[id].completion.Some? <==> v.state == Canonical && v.evidence.Some? && v.dispatch.Some?
  {
    ReachableInv(c, events);
    var s := After(c, events).store;
    KnowsAll(s, id);
    assert SessionOk(c, id, s.sessions[id], VersionAt(s, id));
    assert VersionOk(VersionAt(s, id));
    hide After, Linked, Numbered, Flight, AnswersOk, IssuesOk, States;
  }

  lemma {:induction false} AnswersAgree(s: Store, answers: seq<Answer>, k: nat, l: nat)
    requires AnswersOk(s, answers) && k < l < |answers|
    requires answers[k].reply.Completed? && answers[l].reply.Completed?
    requires answers[k].reply.result.sessionId == answers[l].reply.result.sessionId
    ensures answers[k].reply.result == answers[l].reply.result
    ensures answers[k].reply.isDuplicate || answers[l].reply.isDuplicate
  {
    assert AnswerOk(s, answers[k]) && AnswerOk(s, answers[l]);
    assert First(answers[k], answers[k].reply.result.sessionId) <==> !answers[k].reply.isDuplicate;
    hide HasFirst;
  }

  /** Replies that name the same session agree, and of those at most one is not a duplicate. */
  lemma {:induction false} RepliesAgree(c: Conversions, events: seq<Event>, k: nat, l: nat)
    requires Legal(c, events) && k < l < |After(c, events).answers|
    requires var a := After(c, events).answers;
      a[k].reply.Completed? && a[l].reply.Completed? && a[k].reply.result.sessionId == a[l].reply.result.sessionId
    ensures var a := After(c, events).answers;
      a[k].reply.result == a[l].reply.result && (a[k].reply.isDuplicate || a[l].reply.isDuplicate)
  {
    hide After, Legal, Linked, Numbered, Flight, AnswersOk, IssuesOk, States;
    ReachableInv(c, events);
    AnswersAgree(After(c, events).store, After(c, events).answers, k, l);
  }

  /** A session with a completion result was answered once with a reply that is not a duplicate. */
  lemma {:induction false} CompletedOnce(c: Conversions, events: seq<Event>, id: string) returns (k: nat)
    requires Legal(c, events) && id in After(c, events).store.sessions
    requires After(c, events).store.sessions[id].completion.Some?
    ensures k < |After(c, events).answers|
    ensures var a := After(c, events).answers[k];
      a.asked.sessionId == id && a.reply == Completed(After(c, events).store.sessions[id].completion.value, false)
  {
    ReachableInv(c, events);
    var s := After(c, events);
    assert HasFirst(s.answers, id);
    k :| 0 <= k < |s.answers| && First(s.answers[k], id);
    assert AnswerOk(s.store, s.answers[k]);
    hide After, Linked, Numbered, Flight, IssuesOk, States;
  }

  /** Under one create key there is one session: replies agree, exactly for requests with the first one's hash. */
  lemma {:induction false} IssuesAgree(c: Conversions, events: seq<Event>, k: nat, l: nat)
    requires Legal(c, events) && k < l < |After(c, events).issues|
    requires var a := After(c, events).issues;
      && a[k].reply.IssuedAs? && a[l].reply.IssuedAs?
      && a[k].asked.scope == a[l].asked.scope && a[k].asked.idempotencyKey == a[l].asked.idempotencyKey
    ensures var a := After(c, events).issues;
      && a[k].reply.result == a[l].reply.result && a[k].asked.requestHash == a[l].asked.requestHash
      && (a[k].reply.isDuplicate || a[l].reply.isDuplicate)
  {
    ReachableInv(c, events);
    var s := After(c, events);
    assert IssueOk(s.store, s.issues[k]) && IssueOk(s.store, s.issues[l]);
    var key := Key(s.issues[k].asked.scope, s.issues[k].asked.idempotencyKey);
    assert FirstIssue(s.issues[k], key) <==> !s.issues[k].reply.isDuplicate;
    hide After, Linked, Numbered, Flight, AnswersOk, States;
  }

  // ----- what never changes again -----

  predicate Settled(state: VersionState) {
    state == Canonical || state == FailedValidation
  }

  ghost predicate Later(s: Store, t: Store) {
    && (forall id :: id in s.versions ==>
          id in t.versions && SameVersion(s.versions[id], t.versions[id])
          && (Settled(s.versions[id].state) ==> t.versions[id] == s.versions[id]))
    && (forall id :: id in s.sessions ==>
          id in t.sessions && SameSession(s.sessions[id], t.sessions[id])
          && (s.sessions[id].completion.Some? ==> t.sessions[id].completion == s.sessions[id].completion))
  }

  lemma {:induction false} LaterReflexive(s: Store)
    ensures Later(s, s)
  {
  }

  lemma {:induction false} LaterTransitive(s: Store, t: Store, u: Store)
    requires Later(s, t) && Later(t, u)
    ensures Later(s, u)
  {
  }

  lemma {:induction false} ChangeIsLater(c: Conversions, s: Store, id: string, next: Session, w: Version)
    requires Linked(s) && id in s.sessions && IsChange(c, s, id, next, w)
    requires w == VersionAt(s, id) || !Settled(VersionAt(s, id).state)
    ensures Later(s, PutBoth(s, id, next, w))
  {
    hide Linked;
  }

  lemma {:induction false} RecordIsLater(s: Store, t: Store, input: CompleteInput, r: Completion)
    requires Later(s, t)
    ensures Later(s, PutRecord(t, input, r))
  {
  }

  lemma {:induction false} BeginIsLater(c: Conversions, s: Store, input: CompleteInput, now: Time)
    requires Linked(s) && States(c, s)
    ensures Later(s, Begin(c, s, input, now).0)
  {
    hide *;
    var next, w := BeginCases(c, s, input, now);
    var (t, begun) := Begin(c, s, input, now);
    var id := input.sessionId;
    LaterReflexive(s);
    if t != s {
      KnowsAll(s, id);
      if s.sessions[id].completion.Some? && t == PutRecord(s, input, s.sessions[id].completion.value) {
        RecordIsLater(s, s, input, s.sessions[id].completion.value);
      } else {
        MovesUnsettled(begun, VersionAt(s, id), w);
        ChangeIsLater(c, s, id, next, w);
      }
    }
  }

  lemma {:induction false} MovesUnsettled(begun: Begun, v: Version, w: Version)
    requires Moves(begun, v, w)
    ensures w == v || !Settled(v.state)
  {
  }

  lemma {:induction false} FinishIsLater(c: Conversions, s: Store, input: CompleteInput, outcome: Outcome)
    requires Linked(s) && States(c, s) && input.sessionId in s.sessions
    requires VersionAt(s, input.sessionId).state == Canonicalizing
    ensures Later(s, Finish(c, s, input, outcome).0)
  {
    var next, w := FinishCases(c, s, input, outcome);
    hide Finish, Linked, States, IsChange, Later, PutBoth, PutRecord;
    ChangeIsLater(c, s, input.sessionId, next, w);
    if outcome.Snapshotted? {
      RecordIsLater(s, PutBoth(s, input.sessionId, next, w), input, next.completion.value);
    }
  }

  lemma {:induction false} IssueIsLater(s: Store, input: IssueInput, ids: Ids)
    requires Numbered(s) && FreshIds(s, ids)
    ensures Later(s, Issue(s, input, ids).0)
  {
    hide *;
    var asset, session, v := IssueCases(s, input, ids);
    LaterReflexive(s);
    if Issue(s, input, ids).0 != s {
      IssuedIsLater(s, Issue(s, input, ids).0, asset, session, v, ids);
    }
  }

  lemma {:induction false} IssuedIsLater(s: Store, t: Store, asset: Asset, session: Session, v: Version, ids: Ids)
    requires FreshIds(s, ids) && IssuesOn(s, t, asset, session, v, ids)
    ensures Later(s, t)
  {
  }

  lemma {:induction false} StepIsLater(c: Conversions, s: System, e: Event)
    requires Inv(c, s) && Enabled(s, e)
    ensures Later(s.store, Apply(c, s, e).store)
  {
    assert e.Finishing? ==> VersionAt(s.store, s.suspended[e.call].sessionId).state == Canonicalizing;
    hide Issue, Begin, Finish, Linked, Numbered, States, Flight, AnswersOk, IssuesOk, Later;
    match e
    case Issuing(input, ids) => IssueIsLater(s.store, input, ids);
    case Beginning(call, input, now) => BeginIsLater(c, s.store, input, now);
    case Finishing(call, outcome) => FinishIsLater(c, s.store, s.suspended[call], outcome);
  }

  lemma {:induction false} PrefixLegal(c: Conversions, events: seq<Event>, i: nat)
    requires Legal(c, events) && i <= |events|
    ensures Legal(c, events[..i])
    decreases |events|
  {
    hide Enabled, Apply;
    if i < |events| {
      PrefixLegal(c, events[..|events| - 1], i);
      assert events[..|events| - 1][..i] == events[..i];
    } else {
      assert events[..i] == events;
    }
  }

  /**
   * `canonical` and `failed_validation` are absorbing: such a version, and with it its evidence
   * and dispatch, never changes again. Neither does a session's completion result.
   */
  lemma {:induction false} SettledForGood(c: Conversions, events: seq<Event>, i: nat)
    requires Legal(c, events) && i <= |events|
    ensures Legal(c, events[..i]) && Later(After(c, events[..i]).store, After(c, events).store)
    decreases |events|
  {
    hide Inv, Enabled, Apply, Later;
    PrefixLegal(c, events, i);
    if i == |events| {
      assert events[..i] == events;
      LaterReflexive(After(c, events).store);
    } else {
      var front := events[..|events| - 1];
      assert front[..i] == events[..i];
      SettledForGood(c, front, i);
      ReachableInv(c, front);
      StepIsLater(c, After(c, front), events[|events| - 1]);
      LaterTransitive(After(c, events[..i]).store, After(c, front).store, After(c, events).store);
    }
  }

  /** Evidence and dispatch, once set, are the same ever after. */
  lemma {:induction false} EvidenceIsFixed(c: Conversions, events: seq<Event>, i: nat, id: string)
    requires Legal(c, events) && i <= |events| && Legal(c, events[..i]) && id in After(c, events[..i]).store.versions
    ensures var v := After(c, events[..i]).store.versions[id];
      && id in After(c, events).store.versions
      && (v.evidence.Some? ==> After(c, events).store.versions[id].evidence == v.evidence)
      && (v.dispatch.Some? ==> After(c, events).store.versions[id].dispatch == v.dispatch)
  {
    ReachableInv(c, events[..i]);
    SettledForGood(c, events, i);
    var s := After(c, events[..i]).store;
    assert VersionsOk(s) && VersionOk(s.versions[id]);
    hide After, Legal, Linked, Numbered, Flight, AnswersOk, IssuesOk, States;
  }

  // ----- what was issued and what was checked -----

  /** The staged object is the one that was announced: same key, same length, same checksum twice over. */
  ghost predicate Matches(s: Store, input: CompleteInput) {
    && Knows(s, input.sessionId)
    && var session, v := s.sessions[input.sessionId], VersionAt(s, input.sessionId);
    && input.staged.objectKey == session.objectKey && input.staged.byteLength == v.byteLength
    && input.staged.checksum == v.checksum && input.staged.descriptorChecksum == Some(v.checksum)
  }

  /** The rows of a session and its version say what its issuing answered. */
  ghost predicate IssuedRows(s: Store, r: Issued) {
    && Knows(s, r.sessionId)
    && var session, v := s.sessions[r.sessionId], VersionAt(s, r.sessionId);
    && session.versionId == r.versionId && v.id == r.versionId && v.number == r.versionNumber
    && v.assetId == session.assetId == r.assetId
    && v.assetOwner == r.assetOwner && v.checksum == session.checksum == r.checksum && v.byteLength == r.byteLength
    && v.contentType == session.contentType == r.contentType && v.filename == session.filename == r.filename
    && v.objectKey == session.objectKey == r.objectKey && session.expiresAt == r.expiresAt
    && v.namespaceId == session.namespaceId == r.namespaceId && v.tenantId == session.tenantId == r.tenantId
  }

  ghost predicate Checked(s: System) {
    && (forall n :: n in s.suspended ==> Matches(s.store, s.suspended[n]))
    && (forall k :: 0 <= k < |s.answers| && s.answers[k].reply.Completed? && !s.answers[k].reply.isDuplicate ==>
          Matches(s.store, s.answers[k].asked))
    && (forall key :: key in s.store.issueRecords ==> IssuedRows(s.store, s.store.issueRecords[key].result))
  }

  lemma {:induction false} MatchesStays(s: Store, t: Store, input: CompleteInput)
    requires Linked(s) && Linked(t) && Later(s, t) && Matches(s, input)
    ensures Matches(t, input)
  {
    KnowsAll(t, input.sessionId);
  }

  lemma {:induction false} IssuedStays(s: Store, t: Store, r: Issued)
    requires Linked(s) && Linked(t) && Later(s, t) && IssuedRows(s, r)
    ensures IssuedRows(t, r)
  {
    KnowsAll(t, r.sessionId);
  }

  /** A call only comes to wait once its staged object was found to match. */
  lemma {:induction false} BeginChecks(c: Conversions, s: Store, input: CompleteInput, now: Time)
    requires Linked(s) && Begin(c, s, input, now).1.Suspended?
    ensures Matches(s, input)
  {
    KnowsAll(s, input.sessionId);
    hide Linked;
  }

  lemma {:induction false} IssueWrites(s: Store, input: IssueInput, ids: Ids)
    requires Linked(s) && Numbered(s) && FreshIds(s, ids)
    ensures var (t, reply) := Issue(s, input, ids);
      var key := Key(input.scope, input.idempotencyKey);
      && (forall other :: other in t.issueRecords ==>
            (other in s.issueRecords && t.issueRecords[other] == s.issueRecords[other])
            || IssuedRows(t, t.issueRecords[other].result))
      && (reply.IssuedAs? && !reply.isDuplicate ==> Reflects(input, reply.result))
  {
    hide Linked;
  }

  /** The answer says back what was asked for. */
  predicate Reflects(input: IssueInput, r: Issued) {
    && r.checksum == input.checksum && r.contentType == input.contentType && r.expiresAt == input.expiresAt
    && r.filename == input.filename && r.objectKey == input.objectKey && r.byteLength == input.byteLength
    && (Present(input.assetId).Some? ==> input.assetId == Some(r.assetId))
    && (Present(input.assetId).None? ==>
          r.assetOwner == input.assetOwner && r.namespaceId == input.namespaceId
            && r.tenantId == Present(input.tenantId))
  }

  lemma {:induction false} StepKeepsChecked(c: Conversions, s: System, e: Event)
    requires Inv(c, s) && Enabled(s, e) && Checked(s)
    ensures Checked(Apply(c, s, e))
  {
    hide *;
    var t := Apply(c, s, e);
    StepLinks(c, s, e);
    StepIsLater(c, s, e);
    StepRecords(c, s, e);
    CheckedStays(s, t);
  }

  lemma {:induction false} StepLinks(c: Conversions, s: System, e: Event)
    requires Inv(c, s) && Enabled(s, e)
    ensures Linked(s.store) && Linked(Apply(c, s, e).store)
  {
    StepKeepsInv(c, s, e);
    hide Apply, Enabled, Linked, Numbered, States, Flight, AnswersOk, IssuesOk;
  }

  /** What the next state has is what the last one had, or has just been checked or written. */
  ghost predicate Sourced(s: System, t: System) {
    && (forall n :: n in t.suspended ==> Matches(s.store, t.suspended[n]))
    && (forall k :: 0 <= k < |t.answers| && t.answers[k].reply.Completed? && !t.answers[k].reply.isDuplicate ==>
          Matches(s.store, t.answers[k].asked))
    && (forall key :: key in t.store.issueRecords ==>
          IssuedRows(s.store, t.store.issueRecords[key].result) ||
            IssuedRows(t.store, t.store.issueRecords[key].result))
  }

  lemma {:induction false} CheckedStays(s: System, t: System)
    requires Linked(s.store) && Linked(t.store) && Later(s.store, t.store) && Sourced(s, t)
    ensures Checked(t)
  {
    hide Linked, Later, Matches, IssuedRows;
    forall n | n in t.suspended
      ensures Matches(t.store, t.suspended[n])
    {
      MatchesStays(s.store, t.store, t.suspended[n]);
    }
    forall k | 0 <= k < |t.answers| && t.answers[k].reply.Completed? && !t.answers[k].reply.isDuplicate
      ensures Matches(t.store, t.answers[k].asked)
    {
      MatchesStays(s.store, t.store, t.answers[k].asked);
    }
    forall key | key in t.store.issueRecords
      ensures IssuedRows(t.store, t.store.issueRecords[key].result)
    {
      if IssuedRows(s.store, t.store.issueRecords[key].result) {
        IssuedStays(s.store, t.store, t.store.issueRecords[key].result);
      }
    }
  }

  /** Where the waiting calls, the first answers and the issue records of the next state come from. */
  lemma {:induction false} StepRecords(c: Conversions, s: System, e: Event)
    requires Inv(c, s) && Enabled(s, e) && Checked(s)
    ensures Sourced(s, Apply(c, s, e))
  {
    hide States, Numbered, Flight, AnswersOk, IssuesOk, Matches, IssuedRows, Begin, Finish, Issue, Linked;
    match e
    case Issuing(input, ids) =>
      IssueWrites(s.store, input, ids);
    case Beginning(call, input, now) =>
      BeginKeepsStore(c, s.store, input, now);
      BeginAnswer(c, s.store, input, now);
      if Begin(c, s.store, input, now).1.Suspended? {
        BeginChecks(c, s.store, input, now);
      }
    case Finishing(call, outcome) =>
      FinishKeepsIssues(c, s.store, s.suspended[call], outcome);
  }

  lemma {:induction false} FinishKeepsIssues(c: Conversions, s: Store, input: CompleteInput, outcome: Outcome)
    requires Knows(s, input.sessionId)
    ensures Finish(c, s, input, outcome).0.issueRecords == s.issueRecords
  {
  }

  lemma {:induction false} AlwaysChecked(c: Conversions, events: seq<Event>)
    requires Legal(c, events)
    ensures Checked(After(c, events))
    decreases |events|
  {
    if events != [] {
      hide Inv, Enabled, Apply, Checked;
      AlwaysChecked(c, events[..|events| - 1]);
      ReachableInv(c, events[..|events| - 1]);
      StepKeepsChecked(c, After(c, events[..|events| - 1]), events[|events| - 1]);
    }
  }

  /**
   * A version only becomes canonical from a staged object that matched what was announced when its
   * session was issued.
   */
  lemma {:induction false} CanonicalWasChecked(c: Conversions, events: seq<Event>, id: string) returns (k: nat)
    requires Legal(c, events) && Knows(After(c, events).store, id)
    requires VersionAt(After(c, events).store, id).state == Canonical
    ensures k < |After(c, events).answers|
    ensures var s := After(c, events);
      First(s.answers[k], id) && s.answers[k].asked.sessionId == id && Matches(s.store, s.answers[k].asked)
  {
    ResultIsTheEvidence(c, events, id);
    ReachableInv(c, events);
    AlwaysChecked(c, events);
    assert VersionOk(VersionAt(After(c, events).store, id));
    k := CompletedOnce(c, events, id);
    hide After, Legal, Inv, Matches;
    assert Recorded(After(c, events).store, After(c, events).answers[k].reply.result);
  }

  /** The session a create key answers with is the one whose rows were written for it. */
  lemma {:induction false} IssuedIsWritten(c: Conversions, events: seq<Event>, k: nat)
    requires Legal(c, events) && k < |After(c, events).issues| && After(c, events).issues[k].reply.IssuedAs?
    ensures IssuedRows(After(c, events).store, After(c, events).issues[k].reply.result)
  {
    ReachableInv(c, events);
    AlwaysChecked(c, events);
    var s := After(c, events);
    assert IssueOk(s.store, s.issues[k]);
    hide After, Legal, Inv, IssuedRows;
  }
}
