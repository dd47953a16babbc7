/** What a completion is answered, told from the replies given before: who waits, who is refused and why. */
module UploadDecisions {
  import opened Prelude
  import opened UploadSession
  import opened UploadHistory
  import opened CompletionKeys

  // ----- what the history says of a session -----

  ghost predicate WasRejected(answers: seq<Answer>, id: string) {
    exists k :: 0 <= k < |answers| && answers[k].asked.sessionId == id && answers[k].reply.Rejected?
  }

  /** A canonicalisation of its version was tried and failed. */
  ghost predicate HasFailed(answers: seq<Answer>, id: string) {
    exists k :: 0 <= k < |answers| && answers[k].asked.sessionId == id && answers[k].reply.CanonicalizationFailed?
  }

  /** What the state of a version says of its session's history. */
  ghost predicate Tells(answers: seq<Answer>, id: string, session: Session, v: Version) {
    match v.state
    case SessionCreated => !WasRejected(answers, id) && !HasFirst(answers, id) && !HasFailed(answers, id)
    case FailedRetryable => !WasRejected(answers, id) && !HasFirst(answers, id) && HasFailed(answers, id)
    case Canonicalizing => !WasRejected(answers, id) && !HasFirst(answers, id)
    case Canonical => !WasRejected(answers, id) && CompletedWith(answers, id, session)
    case FailedValidation => WasRejected(answers, id) && !HasFirst(answers, id)
    case _ => false
  }

  /** The session keeps the hash and the result of the answer that completed it. */
  ghost predicate CompletedWith(answers: seq<Answer>, id: string, session: Session) {
    exists k :: 0 <= k < |answers| && First(answers[k], id)
                && session.completionHash == Some(answers[k].asked.requestHash)
  }

  /** The answers are about known sessions, and the states of their versions tell what they were. */
  ghost predicate Told(s: System) {
    && (forall id :: id in s.store.sessions ==>
          Knows(s.store, id) && Tells(s.answers, id, s.store.sessions[id], VersionAt(s.store, id)))
    && (forall id :: WasRejected(s.answers, id) || HasFailed(s.answers, id) || HasFirst(s.answers, id) ==>
          id in s.store.sessions)
  }

  lemma {:induction false} OneMoreAnswer(answers: seq<Answer>, a: Answer, id: string)
    ensures var more := answers + [a];
      && (WasRejected(more, id) <==> WasRejected(answers, id) || (a.asked.sessionId == id && a.reply.Rejected?))
      && (HasFailed(more, id)
          <==> HasFailed(answers, id) || (a.asked.sessionId == id && a.reply.CanonicalizationFailed?))
      && (HasFirst(more, id) <==> HasFirst(answers, id) || First(a, id))
  {
    var more := answers + [a];
    assert more[|answers|] == a && forall k :: 0 <= k < |answers| ==> more[k] == answers[k];
    hide First;
  }

  lemma {:induction false} CompletedStays(answers: seq<Answer>, a: Answer, id: string, session: Session)
    requires CompletedWith(answers, id, session)
    ensures CompletedWith(answers + [a], id, session)
  {
    hide First;
    var k :| 0 <= k < |answers| && First(answers[k], id)
      && session.completionHash == Some(answers[k].asked.requestHash);
    assert (answers + [a])[k] == answers[k];
  }

  // ----- what one call does to its session -----

  /** The other sessions and versions stay as they are. */
  ghost predicate Elsewhere(s: Store, t: Store, id: string) {
    && t.sessions.Keys == s.sessions.Keys
    && (forall other :: other in s.sessions ==> Knows(s, other) && Knows(t, other))
    && forall other :: other in s.sessions && other != id ==>
         t.sessions[other] == s.sessions[other] && VersionAt(t, other) == VersionAt(s, other)
  }

  /** The state of a session after a begun completion. */
  function SessionStateAfter(session: Session, begun: Begun): SessionState {
    match begun
    case Suspended => BytesUploaded
    case Answered(Rejected(_, _)) => Invalid
    case Answered(SessionExpired(_)) => Expired
    case _ => session.state
  }

  /** The states a begun completion leads to; what is completed keeps its hash. */
  ghost predicate BeginsTo(session: Session, next: Session, v: Version, w: Version, begun: Begun) {
    && (v.state == Canonical ==> next.completionHash == session.completionHash)
    && next.state == SessionStateAfter(session, begun)
    && match begun
       case Suspended => Retryable(v.state) && w.state == Canonicalizing
       case Answered(Rejected(_, _)) => Retryable(v.state) && w.state == FailedValidation
       case Answered(CanonicalizationFailed(_)) => false
       case Answered(Completed(_, isDuplicate)) => isDuplicate && w.state == v.state
       case _ => w.state == v.state
  }

  lemma {:induction false} Unchanged(s: Store, id: string)
    requires Linked(s)
    ensures Elsewhere(s, s, id)
  {
  }

  lemma {:induction false} PutElsewhere(s: Store, id: string, next: Session, w: Version)
    requires Linked(s) && id in s.sessions && SameIdentity(s.sessions[id], next, VersionAt(s, id), w)
    ensures Elsewhere(s, PutBoth(s, id, next, w), id)
    ensures var t := PutBoth(s, id, next, w); t.sessions[id] == next && VersionAt(t, id) == w
  {
    ChangeKeepsLinks(s, id, next, w);
  }

  lemma {:induction false} RecordElsewhere(s: Store, t: Store, input: CompleteInput, r: Completion)
    requires Elsewhere(s, t, input.sessionId)
    ensures Elsewhere(s, PutRecord(t, input, r), input.sessionId)
    ensures input.sessionId in s.sessions ==>
      var u := PutRecord(t, input, r);
      u.sessions[input.sessionId] == t.sessions[input.sessionId]
      && VersionAt(u, input.sessionId) == VersionAt(t, input.sessionId)
  {
  }

  /** A call for a session that is complete. */
  lemma {:induction false} BeginDone(c: Conversions, s: Store, input: CompleteInput, now: Time)
    requires Linked(s) && input.sessionId in s.sessions && CompletionKey(input) !in s.completionRecords
    requires now <= s.sessions[input.sessionId].expiresAt && s.sessions[input.sessionId].completion.Some?
    ensures var session := s.sessions[input.sessionId];
      Begin(c, s, input, now)
      == if session.completionHash == Some(input.requestHash) then
           (PutRecord(s, input, session.completion.value), Answered(Completed(session.completion.value, true)))
         else (s, Answered(InvalidTransition(input.sessionId, OfVersion(VersionAt(s, input.sessionId).state))))
  {
    assert Knows(s, input.sessionId);
    hide Linked, BeginOpen, CompletionKey, PutRecord;
  }

  /** A call for a session that is neither complete nor settled, as its version's state decides. */
  lemma {:induction false} OpenEffect(c: Conversions, s: Store, input: CompleteInput, session: Session, v: Version)
    requires VersionOk(v) && SessionOk(c, input.sessionId, session, v) && session.completion.None?
    ensures var (t, begun), id := BeginOpen(c, s, input, session, v), input.sessionId;
      if v.state == Canonicalizing then t == s && begun == Answered(InvalidTransition(id, OfVersion(Canonicalizing)))
      else if v.state == FailedValidation then
        t == s && begun.Answered? && begun.reply.InvalidTransition? && begun.reply.id == id
      else
        match Check(session, v, input.staged)
        case Some(problem) =>
          t == PutBoth(s, id, session.(state := Invalid), v.(state := FailedValidation))
          && begun == Answered(Rejected(id, problem))
        case None =>
          t == PutBoth(s, id, session.(state := BytesUploaded), v.(state := Canonicalizing)) && begun == Suspended
  {
    hide Check, PutBoth;
  }

  lemma {:induction false} BeginEffect(c: Conversions, s: Store, input: CompleteInput, now: Time)
    requires Linked(s) && States(c, s) && input.sessionId in s.sessions
    ensures var (t, begun), id := Begin(c, s, input, now), input.sessionId;
      && Elsewhere(s, t, id)
      && BeginsTo(s.sessions[id], t.sessions[id], VersionAt(s, id), VersionAt(t, id), begun)
  {
    hide *;
    var id := input.sessionId;
    ItsOk(c, s, id);
    Unchanged(s, id);
    var session, v := s.sessions[id], VersionAt(s, id);
    if CompletionKey(input) in s.completionRecords {
      BeginKnownKey(c, s, input, now);
      SameEffect(session, v, Begin(c, s, input, now).1);
    } else if now > session.expiresAt {
      BeginExpired(c, s, input, now);
      ExpiredEffect(s, input);
    } else if session.completion.Some? {
      BeginDone(c, s, input, now);
      SameEffect(session, v, Begin(c, s, input, now).1);
      RecordElsewhere(s, s, input, session.completion.value);
    } else {
      BeginOpens(c, s, input, now);
      OpenEffect(c, s, input, session, v);
      OpenElsewhere(c, s, input, session, v);
    }
  }

  lemma {:induction false} SameEffect(session: Session, v: Version, begun: Begun)
    requires begun.Answered?
    requires begun.reply.Completed? ==> begun.reply.isDuplicate
    requires begun.reply.Completed? || begun.reply.Conflict? || begun.reply.InvalidTransition?
    ensures BeginsTo(session, session, v, v, begun)
  {
  }

  lemma {:induction false} ExpiredEffect(s: Store, input: CompleteInput)
    requires Linked(s) && input.sessionId in s.sessions
    ensures var id := input.sessionId;
      var session, v := s.sessions[id], VersionAt(s, id);
      var t := PutBoth(s, id, session.(state := Expired), v);
      && Elsewhere(s, t, id) && VersionAt(t, id) == v && t.sessions[id] == session.(state := Expired)
      && BeginsTo(session, session.(state := Expired), v, v, Answered(SessionExpired(id)))
  {
    var id := input.sessionId;
    PutElsewhere(s, id, s.sessions[id].(state := Expired), VersionAt(s, id));
    hide Linked, Elsewhere, PutBoth;
  }

  lemma {:induction false} OpenElsewhere(c: Conversions, s: Store, input: CompleteInput, session: Session, v: Version)
    requires Linked(s) && input.sessionId in s.sessions && session == s.sessions[input.sessionId]
    requires v == VersionAt(s, input.sessionId) && VersionOk(v) && SessionOk(c, input.sessionId, session, v)
    requires session.completion.None?
    ensures var (t, begun), id := BeginOpen(c, s, input, session, v), input.sessionId;
      Elsewhere(s, t, id) && BeginsTo(session, t.sessions[id], v, VersionAt(t, id), begun)
  {
    hide *;
    Unchanged(s, input.sessionId);
    OpenEffect(c, s, input, session, v);
    OpenStates(c, input.sessionId, session, v);
    if v.state == Canonicalizing || v.state == FailedValidation {
      assert BeginsTo(session, session, v, v, BeginOpen(c, s, input, session, v).1);
    } else {
      match Check(session, v, input.staged)
      case Some(problem) =>
        PutElsewhere(s, input.sessionId, session.(state := Invalid), v.(state := FailedValidation));
      case None =>
        PutElsewhere(s, input.sessionId, session.(state := BytesUploaded), v.(state := Canonicalizing));
    }
  }

  /** The changes an open session and its version may see. */
  lemma {:induction false} OpenStates(c: Conversions, id: string, session: Session, v: Version)
    requires VersionOk(v) && SessionOk(c, id, session, v) && session.completion.None?
    ensures v.state == Canonicalizing || v.state == FailedValidation || Retryable(v.state)
    ensures SameIdentity(session, session.(state := Invalid), v, v.(state := FailedValidation))
    ensures SameIdentity(session, session.(state := BytesUploaded), v, v.(state := Canonicalizing))
    ensures forall begun: Begun ::
      begun.Answered? && begun.reply.InvalidTransition? ==> BeginsTo(session, session, v, v, begun)
    ensures Retryable(v.state) ==>
      && BeginsTo(session, session.(state := BytesUploaded), v, v.(state := Canonicalizing), Suspended)
      && forall problem ::
           BeginsTo(session, session.(state := Invalid), v, v.(state := FailedValidation),
                    Answered(Rejected(id, problem)))
  {
  }

  /** A completion after its wait: complete, or to be tried again. */
  lemma {:induction false} FinishEffect(c: Conversions, s: Store, input: CompleteInput, outcome: Outcome)
    requires Linked(s) && States(c, s) && input.sessionId in s.sessions
    requires VersionAt(s, input.sessionId).state == Canonicalizing
    ensures var (t, reply), id := Finish(c, s, input, outcome), input.sessionId;
      && Elsewhere(s, t, id) && t.sessions[id].state == s.sessions[id].state
      && (outcome.Threw? ==> reply == CanonicalizationFailed(id) && VersionAt(t, id).state == FailedRetryable)
      && (outcome.Snapshotted? ==>
            && reply.Completed? && !reply.isDuplicate && reply.result.sessionId == id
            && VersionAt(t, id).state == Canonical && t.sessions[id].completionHash == Some(input.requestHash))
  {
    var id := input.sessionId;
    assert Knows(s, id);
    var session, v := s.sessions[id], VersionAt(s, id);
    var (t, reply) := Finish(c, s, input, outcome);
    FinishShape(c, s, input, outcome);
    hide Linked, States, Finish, Elsewhere, PutBoth, PutRecord;
    PutElsewhere(s, id, session, v.(state := FailedRetryable));
    if outcome.Snapshotted? {
      var w := CanonicalVersion(c, v, input, outcome);
      var next := session.(completionHash := Some(input.requestHash), completion := Some(reply.result));
      PutElsewhere(s, id, next, w);
      RecordElsewhere(s, PutBoth(s, id, next, w), input, reply.result);
    }
  }

  lemma {:induction false} FinishShape(c: Conversions, s: Store, input: CompleteInput, outcome: Outcome)
    requires Knows(s, input.sessionId)
    ensures var (t, reply), id := Finish(c, s, input, outcome), input.sessionId;
      var session, v := s.sessions[id], VersionAt(s, id);
      match outcome
      case Threw => t == PutBoth(s, id, session, v.(state := FailedRetryable)) && reply == CanonicalizationFailed(id)
      case Snapshotted(_, _) =>
        && reply.Completed? && !reply.isDuplicate && reply.result.sessionId == id
        && t == PutRecord(PutBoth(s, id, session.(completionHash := Some(input.requestHash),
                                                  completion := Some(reply.result)),
                                  CanonicalVersion(c, v, input, outcome)), input, reply.result)
  {
    var id := input.sessionId;
    assert s.sessions == s.sessions[id := s.sessions[id]];
  }

  // ----- every step keeps the states telling -----

  lemma {:induction false} TellsElsewhere(answers: seq<Answer>, a: Answer, id: string, session: Session, v: Version)
    requires Tells(answers, id, session, v) && a.asked.sessionId != id && !First(a, id)
    ensures Tells(answers + [a], id, session, v)
  {
    OneMoreAnswer(answers, a, id);
    if v.state == Canonical {
      CompletedStays(answers, a, id, session);
    }
    hide WasRejected, HasFailed, HasFirst, CompletedWith, First;
  }

  lemma {:induction false} SameHash(answers: seq<Answer>, id: string, session: Session, next: Session)
    requires CompletedWith(answers, id, session) && next.completionHash == session.completionHash
    ensures CompletedWith(answers, id, next)
  {
  }

  lemma {:induction false} TellsAnswered(
      answers: seq<Answer>, a: Answer, session: Session, next: Session, v: Version, w: Version)
    requires Tells(answers, a.asked.sessionId, session, v) && BeginsTo(session, next, v, w, Answered(a.reply))
    ensures Tells(answers + [a], a.asked.sessionId, next, w)
  {
    var id := a.asked.sessionId;
    OneMoreAnswer(answers, a, id);
    if v.state == Canonical {
      SameHash(answers, id, session, next);
      CompletedStays(answers, a, id, next);
    }
    hide WasRejected, HasFailed, HasFirst, CompletedWith;
  }

  lemma {:induction false} TellsWaiting(
      answers: seq<Answer>, id: string, session: Session, next: Session, v: Version, w: Version)
    requires Tells(answers, id, session, v) && BeginsTo(session, next, v, w, Suspended)
    ensures Tells(answers, id, next, w)
  {
    hide WasRejected, HasFailed, HasFirst, CompletedWith;
  }

  lemma {:induction false} TellsFinished(
      answers: seq<Answer>, a: Answer, session: Session, next: Session, v: Version, w: Version)
    requires Tells(answers, a.asked.sessionId, session, v) && v.state == Canonicalizing
    requires
      || (a.reply.CanonicalizationFailed? && w.state == FailedRetryable)
      || (First(a, a.asked.sessionId) && w.state == Canonical && next.completionHash == Some(a.asked.requestHash))
    ensures Tells(answers + [a], a.asked.sessionId, next, w)
  {
    OneMoreAnswer(answers, a, a.asked.sessionId);
    assert (answers + [a])[|answers|] == a;
    hide WasRejected, HasFailed, HasFirst, First;
  }

  lemma {:induction false} BeginKeepsTold(c: Conversions, s: System, call: nat, input: CompleteInput, now: Time)
    requires Told(s) && Linked(s.store) && States(c, s.store) && Enabled(s, Beginning(call, input, now))
    ensures Told(Apply(c, s, Beginning(call, input, now)))
  {
    hide Linked, States, Tells, WasRejected, HasFailed, HasFirst, Begin, BeginOpen;
    var id := input.sessionId;
    var (t, begun) := Begin(c, s.store, input, now);
    var u := Apply(c, s, Beginning(call, input, now));
    if id !in s.store.sessions {
      BeginUnknown(c, s.store, input, now);
      UnknownReply(c, s.store, input, now);
    } else {
      BeginEffect(c, s.store, input, now);
    }
    if begun.Answered? {
      var a := Answer(input, begun.reply);
      forall other | other in s.store.sessions && other != id
        ensures Tells(u.answers, other, u.store.sessions[other], VersionAt(u.store, other))
      {
        TellsElsewhere(s.answers, a, other, s.store.sessions[other], VersionAt(s.store, other));
      }
      if id in s.store.sessions {
        TellsAnswered(s.answers, a, s.store.sessions[id], t.sessions[id], VersionAt(s.store, id), VersionAt(t, id));
      }
      forall other
        ensures WasRejected(u.answers, other) || HasFailed(u.answers, other) || HasFirst(u.answers, other) ==>
          other in s.store.sessions
      {
        OneMoreAnswer(s.answers, a, other);
      }
    } else {
      TellsWaiting(s.answers, id, s.store.sessions[id], t.sessions[id], VersionAt(s.store, id), VersionAt(t, id));
    }
  }

  lemma {:induction false} UnknownReply(c: Conversions, s: Store, input: CompleteInput, now: Time)
    requires input.sessionId !in s.sessions
    ensures Begin(c, s, input, now) == (s, Answered(NotFound(input.sessionId)))
  {
  }

  lemma {:induction false} FinishKeepsTold(c: Conversions, s: System, call: nat, outcome: Outcome)
    requires Told(s) && Linked(s.store) && States(c, s.store) && Enabled(s, Finishing(call, outcome))
    requires VersionAt(s.store, s.suspended[call].sessionId).state == Canonicalizing
    ensures Told(Apply(c, s, Finishing(call, outcome)))
  {
    hide Linked, States, Tells, WasRejected, HasFailed, HasFirst, Finish;
    var input := s.suspended[call];
    var id := input.sessionId;
    var (t, reply) := Finish(c, s.store, input, outcome);
    var u, a := Apply(c, s, Finishing(call, outcome)), Answer(input, reply);
    FinishEffect(c, s.store, input, outcome);
    forall other | other in s.store.sessions && other != id
      ensures Tells(u.answers, other, u.store.sessions[other], VersionAt(u.store, other))
    {
      TellsElsewhere(s.answers, a, other, s.store.sessions[other], VersionAt(s.store, other));
    }
    TellsFinished(s.answers, a, s.store.sessions[id], t.sessions[id], VersionAt(s.store, id), VersionAt(t, id));
    forall other
      ensures WasRejected(u.answers, other) || HasFailed(u.answers, other) || HasFirst(u.answers, other) ==>
        other in s.store.sessions
    {
      OneMoreAnswer(s.answers, a, other);
    }
  }

  lemma {:induction false} NewTells(s: System, id: string, session: Session, v: Version)
    requires Told(s) && id !in s.store.sessions && v.state == SessionCreated
    ensures Tells(s.answers, id, session, v)
  {
    hide WasRejected, HasFailed, HasFirst;
  }

  lemma {:induction false} IssueKeepsTold(c: Conversions, s: System, input: IssueInput, ids: Ids)
    requires Told(s) && Linked(s.store) && Numbered(s.store) && Enabled(s, Issuing(input, ids))
    ensures Told(Apply(c, s, Issuing(input, ids)))
  {
    hide Linked, Numbered, Issue, WasRejected, HasFailed, HasFirst, Tells;
    var asset, session, v := IssueCases(s.store, input, ids);
    var t := Issue(s.store, input, ids).0;
    if t != s.store {
      NewKeys(s.store, t, asset, session, v, ids);
      IssueKeepsLinks(s.store, t, asset, session, v, ids);
      KnowsEach(t);
      NewTells(s, ids.session, session, v);
      hide IssuesOn, Knows;
    }
  }

  lemma {:induction false} KnowsEach(s: Store)
    requires Linked(s)
    ensures forall id :: id in s.sessions ==> Knows(s, id)
  {
  }

  lemma {:induction false} StepKeepsTold(c: Conversions, s: System, e: Event)
    requires Told(s) && Inv(c, s) && Enabled(s, e)
    ensures Told(Apply(c, s, e))
  {
    InvParts(c, s);
    assert e.Finishing? ==> VersionAt(s.store, s.suspended[e.call].sessionId).state == Canonicalizing;
    hide Inv, Told, Linked, Numbered, States, Flight, AnswersOk, IssuesOk, Apply;
    match e
    case Issuing(input, ids) => IssueKeepsTold(c, s, input, ids);
    case Beginning(call, input, now) => BeginKeepsTold(c, s, call, input, now);
    case Finishing(call, outcome) => FinishKeepsTold(c, s, call, outcome);
  }

  lemma {:induction false} AlwaysTold(c: Conversions, events: seq<Event>)
    requires Legal(c, events)
    ensures Told(After(c, events))
    decreases |events|
  {
    if events != [] {
      hide Inv, Enabled, Apply, Told;
      AlwaysTold(c, events[..|events| - 1]);
      ReachableInv(c, events[..|events| - 1]);
      StepKeepsTold(c, After(c, events[..|events| - 1]), events[|events| - 1]);
    }
  }

  // ----- the state of a version, told from the replies -----

  /**
   * In every reachable state: a version is `failed_validation` exactly if a call for its session was
   * answered as rejected, `canonical` exactly if one was completed, `canonicalizing` exactly while one
   * waits, and otherwise `failed_retryable` exactly if a canonicalisation failed.
   */
  lemma {:induction false} StateTellsHistory(c: Conversions, events: seq<Event>, id: string)
    requires Legal(c, events) && id in After(c, events).store.sessions
    ensures var s := After(c, events);
      && Knows(s.store, id)
      && var state := VersionAt(s.store, id).state;
      && (state == FailedValidation <==> WasRejected(s.answers, id))
      && (state == Canonical <==> HasFirst(s.answers, id))
      && (state == Canonicalizing <==> Waiting(s.suspended, id))
      && (state == FailedRetryable || state == SessionCreated || WasRejected(s.answers, id)
          || HasFirst(s.answers, id) || Waiting(s.suspended, id))
      && (state == FailedRetryable ==> HasFailed(s.answers, id))
      && (state == SessionCreated ==> !HasFailed(s.answers, id))
  {
    AlwaysTold(c, events);
    ReachableInv(c, events);
    var s := After(c, events);
    assert Tells(s.answers, id, s.store.sessions[id], VersionAt(s.store, id));
    assert CompletedWith(s.answers, id, s.store.sessions[id]) ==> HasFirst(s.answers, id);
    hide After, Legal, Told, WasRejected, HasFailed, HasFirst, CompletedWith, Numbered, States, AnswersOk, IssuesOk;
  }

  // ----- what a call is answered -----

  /** The staged object is the announced one: same key, same length, same checksum twice over. */
  predicate IsAnnounced(r: Issued, staged: Staged) {
    && staged.objectKey == r.objectKey && staged.byteLength == r.byteLength
    && staged.checksum == r.checksum && staged.descriptorChecksum == Some(r.checksum)
  }

  /** What a call for the session issued as `r` is answered, or that it waits. */
  ghost predicate Decided(s: System, r: Issued, input: CompleteInput, now: Time, begun: Begun) {
    var id, last := r.sessionId, Last(s.answers, CompletionKey(input));
    if last.Some? then
      begun == Answered(if last.value.requestHash == input.requestHash then Completed(last.value.result, true)
                        else Conflict(input.idempotencyKey))
    else if now > r.expiresAt then begun == Answered(SessionExpired(id))
    else if HasFirst(s.answers, id) then
      exists k :: 0 <= k < |s.answers| && First(s.answers[k], id)
                  && begun == Answered(if s.answers[k].asked.requestHash == input.requestHash then
                                         Completed(s.answers[k].reply.result, true)
                                       else InvalidTransition(id, OfVersion(Canonical)))
    else if WasRejected(s.answers, id) then begun.Answered? && begun.reply.InvalidTransition? && begun.reply.id == id
    else if Waiting(s.suspended, id) then begun == Answered(InvalidTransition(id, OfVersion(Canonicalizing)))
    else if input.staged.objectKey != r.objectKey || input.staged.byteLength != r.byteLength then
      begun == Answered(Rejected(id, ValidationFailed))
    else if !IsAnnounced(r, input.staged) then begun == Answered(Rejected(id, ChecksumMismatch))
    else begun == Suspended
  }

  /** The answer that completed a session, as the session remembers it. */
  lemma {:induction false} CompletingAnswer(s: System, id: string) returns (k: nat)
    requires Told(s) && AnswersOk(s.store, s.answers) && id in s.store.sessions && Knows(s.store, id)
    requires VersionAt(s.store, id).state == Canonical
    ensures k < |s.answers| && First(s.answers[k], id)
    ensures s.store.sessions[id].completion == Some(s.answers[k].reply.result)
    ensures s.store.sessions[id].completionHash == Some(s.answers[k].asked.requestHash)
  {
    assert Tells(s.answers, id, s.store.sessions[id], VersionAt(s.store, id));
    hide Told, WasRejected;
    k :| 0 <= k < |s.answers| && First(s.answers[k], id)
      && s.store.sessions[id].completionHash == Some(s.answers[k].asked.requestHash);
    assert AnswerOk(s.store, s.answers[k]);
    hide AnswersOk;
  }

  lemma {:induction false} DoneDecides(c: Conversions, s: System, r: Issued, input: CompleteInput, now: Time)
    requires Inv(c, s) && Told(s) && IssuedRows(s.store, r) && input.sessionId == r.sessionId
    requires HasFirst(s.answers, r.sessionId) && VersionAt(s.store, r.sessionId).state == Canonical
    requires Last(s.answers, CompletionKey(input)).None? && CompletionKey(input) !in s.store.completionRecords
    requires now <= r.expiresAt
    ensures Decided(s, r, input, now, Begin(c, s.store, input, now).1)
  {
    hide *;
    InvParts(c, s);
    IssuedIsKnown(s.store, r);
    ItsOk(c, s.store, r.sessionId);
    var k := CompletingAnswer(s, r.sessionId);
    BeginDone(c, s.store, input, now);
    DoneDecided(s, r, input, now, Begin(c, s.store, input, now).1, k);
  }

  lemma {:induction false} DoneDecided(s: System, r: Issued, input: CompleteInput, now: Time, begun: Begun, k: nat)
    requires Last(s.answers, CompletionKey(input)).None? && now <= r.expiresAt && HasFirst(s.answers, r.sessionId)
    requires k < |s.answers| && First(s.answers[k], r.sessionId)
    requires begun == Answered(if s.answers[k].asked.requestHash == input.requestHash then
                                 Completed(s.answers[k].reply.result, true)
                               else InvalidTransition(r.sessionId, OfVersion(Canonical)))
    ensures Decided(s, r, input, now, begun)
  {
  }

  lemma {:induction false} OpenDecides(c: Conversions, s: System, r: Issued, input: CompleteInput, now: Time)
    requires Linked(s.store) && States(c, s.store) && IssuedRows(s.store, r) && input.sessionId == r.sessionId
    requires !HasFirst(s.answers, r.sessionId)
    requires var state := VersionAt(s.store, r.sessionId).state;
      && state != Canonical && (state == FailedValidation <==> WasRejected(s.answers, r.sessionId))
      && (state == Canonicalizing <==> Waiting(s.suspended, r.sessionId))
    requires Last(s.answers, CompletionKey(input)).None? && CompletionKey(input) !in s.store.completionRecords
    requires now <= r.expiresAt
    ensures Decided(s, r, input, now, Begin(c, s.store, input, now).1)
  {
    var id := r.sessionId;
    ItsOk(c, s.store, id);
    var session, v := s.store.sessions[id], VersionAt(s.store, id);
    assert session.completion.None?;
    BeginOpens(c, s.store, input, now);
    OpenEffect(c, s.store, input, session, v);
    hide Linked, States, Begin, BeginOpen, SessionOk, VersionOk, Last, CompletionKey, HasFirst, WasRejected, Waiting;
  }

  /**
   * In every reachable state the replies given so far, the calls that wait and the reply to the issuing
   * decide what a call is answered: its key first, then the time, then what became of the session, then
   * the staged object; and if none of these says no, it waits.
   */
  lemma {:induction false} BeginDecides(c: Conversions, events: seq<Event>, k: nat, input: CompleteInput, now: Time)
    requires Legal(c, events) && k < |After(c, events).issues| && After(c, events).issues[k].reply.IssuedAs?
    requires input.sessionId == After(c, events).issues[k].reply.result.sessionId
    ensures var s := After(c, events);
      Decided(s, s.issues[k].reply.result, input, now, Begin(c, s.store, input, now).1)
  {
    hide *;
    var s := After(c, events);
    var r := s.issues[k].reply.result;
    ReachableInv(c, events);
    AlwaysTold(c, events);
    InvParts(c, s);
    IssuedIsWritten(c, events, k);
    IssuedIsKnown(s.store, r);
    StateTellsHistory(c, events, r.sessionId);
    RecordsAreAlwaysLast(c, events);
    LastIsRecord(s, CompletionKey(input));
    if CompletionKey(input) in s.store.completionRecords {
      StatesKeepRecords(c, s.store);
      BeginKnownKey(c, s.store, input, now);
      KeyDecided(s, r, input, now, Begin(c, s.store, input, now).1);
    } else if now > r.expiresAt {
      ItsOk(c, s.store, r.sessionId);
      BeginExpired(c, s.store, input, now);
      ExpiredDecided(s, r, input, now, Begin(c, s.store, input, now).1);
    } else if HasFirst(s.answers, r.sessionId) {
      DoneDecides(c, s, r, input, now);
    } else {
      OpenDecides(c, s, r, input, now);
    }
  }

  lemma {:induction false} IssuedIsKnown(s: Store, r: Issued)
    requires IssuedRows(s, r)
    ensures r.sessionId in s.sessions && s.sessions[r.sessionId].expiresAt == r.expiresAt
  {
  }

  lemma {:induction false} LastIsRecord(s: System, key: Key)
    requires RecordsAreLast(s)
    ensures Last(s.answers, key) == if key in s.store.completionRecords then Some(s.store.completionRecords[key])
      else None
  {
    hide Last;
  }

  lemma {:induction false} StatesKeepRecords(c: Conversions, s: Store)
    requires Linked(s) && States(c, s)
    ensures RecordsOk(s)
  {
  }

  lemma {:induction false} KeyDecided(s: System, r: Issued, input: CompleteInput, now: Time, begun: Begun)
    requires Last(s.answers, CompletionKey(input)).Some?
    requires var last := Last(s.answers, CompletionKey(input)).value;
      begun == Answered(if last.requestHash == input.requestHash then Completed(last.result, true)
                        else Conflict(input.idempotencyKey))
    ensures Decided(s, r, input, now, begun)
  {
  }

  lemma {:induction false} ExpiredDecided(s: System, r: Issued, input: CompleteInput, now: Time, begun: Begun)
    requires Last(s.answers, CompletionKey(input)).None? && now > r.expiresAt
    requires begun == Answered(SessionExpired(r.sessionId))
    ensures Decided(s, r, input, now, begun)
  {
  }

  // ----- who waits -----

  /** No call for the session was completed or rejected, and none waits. */
  ghost predicate IsOpen(s: System, id: string) {
    !HasFirst(s.answers, id) && !WasRejected(s.answers, id) && !Waiting(s.suspended, id)
  }

  /**
   * A call waits for a canonicalisation exactly if its key was not answered before, it is in time, the
   * session is open and the staged object is the announced one.
   */
  lemma {:induction false} WaitsExactly(c: Conversions, events: seq<Event>, k: nat, input: CompleteInput, now: Time)
    requires Legal(c, events) && k < |After(c, events).issues| && After(c, events).issues[k].reply.IssuedAs?
    requires input.sessionId == After(c, events).issues[k].reply.result.sessionId
    ensures var s := After(c, events);
      var r := s.issues[k].reply.result;
      Begin(c, s.store, input, now).1.Suspended?
      <==> Last(s.answers, CompletionKey(input)).None? && now <= r.expiresAt && IsOpen(s, r.sessionId)
           && IsAnnounced(r, input.staged)
  {
    BeginDecides(c, events, k, input, now);
    hide After, Legal, Begin, Last, HasFirst, WasRejected, Waiting, CompletionKey;
  }

  // ----- trying again -----

  /** A failed canonicalisation was of a session not completed or rejected before. */
  ghost predicate FailsOpen(answers: seq<Answer>) {
    forall j, k :: 0 <= j < k < |answers| && answers[k].reply.CanonicalizationFailed? ==>
      !First(answers[j], answers[k].asked.sessionId)
      && !(answers[j].asked.sessionId == answers[k].asked.sessionId && answers[j].reply.Rejected?)
  }

  lemma {:induction false} MoreFailsOpen(answers: seq<Answer>, a: Answer)
    requires FailsOpen(answers)
    requires a.reply.CanonicalizationFailed? ==>
      !HasFirst(answers, a.asked.sessionId) && !WasRejected(answers, a.asked.sessionId)
    ensures FailsOpen(answers + [a])
  {
    hide First;
    var more := answers + [a];
    assert forall k :: 0 <= k < |answers| ==> more[k] == answers[k];
  }

  lemma {:induction false} BeginFailsOpen(c: Conversions, s: System, call: nat, input: CompleteInput, now: Time)
    requires Linked(s.store) && States(c, s.store) && Enabled(s, Beginning(call, input, now)) && FailsOpen(s.answers)
    ensures FailsOpen(Apply(c, s, Beginning(call, input, now)).answers)
  {
    hide Linked, States, FailsOpen, Begin, WasRejected, HasFirst, Elsewhere;
    var begun := Begin(c, s.store, input, now).1;
    if input.sessionId in s.store.sessions {
      BeginEffect(c, s.store, input, now);
    } else {
      UnknownReply(c, s.store, input, now);
    }
    if begun.Answered? {
      MoreFailsOpen(s.answers, Answer(input, begun.reply));
    }
  }

  lemma {:induction false} WaitingIsOpen(s: System, id: string)
    requires Told(s) && id in s.store.sessions && Knows(s.store, id) && VersionAt(s.store, id).state == Canonicalizing
    ensures !HasFirst(s.answers, id) && !WasRejected(s.answers, id)
  {
    assert Tells(s.answers, id, s.store.sessions[id], VersionAt(s.store, id));
    hide HasFirst, WasRejected, HasFailed;
  }

  lemma {:induction false} FinishFailsOpen(c: Conversions, s: System, call: nat, outcome: Outcome)
    requires Told(s) && Enabled(s, Finishing(call, outcome)) && FailsOpen(s.answers)
    requires VersionAt(s.store, s.suspended[call].sessionId).state == Canonicalizing
    ensures FailsOpen(Apply(c, s, Finishing(call, outcome)).answers)
  {
    hide Told, FailsOpen, Finish, WasRejected, HasFirst;
    var input := s.suspended[call];
    WaitingIsOpen(s, input.sessionId);
    MoreFailsOpen(s.answers, Answer(input, Finish(c, s.store, input, outcome).1));
  }

  lemma {:induction false} StepFailsOpen(c: Conversions, s: System, e: Event)
    requires Inv(c, s) && Told(s) && Enabled(s, e) && FailsOpen(s.answers)
    ensures FailsOpen(Apply(c, s, e).answers)
  {
    InvParts(c, s);
    assert e.Finishing? ==> VersionAt(s.store, s.suspended[e.call].sessionId).state == Canonicalizing;
    hide Inv, Told, Linked, Numbered, States, Flight, AnswersOk, IssuesOk, FailsOpen, Begin, Finish, Issue;
    match e
    case Issuing(_, _) =>
    case Beginning(call, input, now) => BeginFailsOpen(c, s, call, input, now);
    case Finishing(call, outcome) => FinishFailsOpen(c, s, call, outcome);
  }

  lemma {:induction false} AlwaysFailsOpen(c: Conversions, events: seq<Event>)
    requires Legal(c, events)
    ensures FailsOpen(After(c, events).answers)
    decreases |events|
  {
    if events != [] {
      hide Inv, Enabled, Apply, Told, FailsOpen;
      AlwaysFailsOpen(c, events[..|events| - 1]);
      AlwaysTold(c, events[..|events| - 1]);
      ReachableInv(c, events[..|events| - 1]);
      StepFailsOpen(c, After(c, events[..|events| - 1]), events[|events| - 1]);
    }
  }

  /** The last answer of a session, a failed canonicalisation, leaves it open. */
  lemma {:induction false} FailedIsOpen(s: Store, answers: seq<Answer>, j: nat, id: string)
    requires AnswersOk(s, answers) && FailsOpen(answers)
    requires j < |answers| && answers[j].asked.sessionId == id && answers[j].reply.CanonicalizationFailed?
    requires forall l :: j < l < |answers| ==> answers[l].asked.sessionId != id
    ensures !HasFirst(answers, id) && !WasRejected(answers, id)
  {
    forall l | 0 <= l < |answers|
      ensures !First(answers[l], id) && !(answers[l].asked.sessionId == id && answers[l].reply.Rejected?)
    {
      assert AnswerOk(s, answers[l]);
    }
  }

  lemma {:induction false} ReachableAnswers(c: Conversions, events: seq<Event>)
    requires Legal(c, events)
    ensures AnswersOk(After(c, events).store, After(c, events).answers)
  {
    hide After, Legal, Linked, Numbered, States, Flight, AnswersOk, IssuesOk;
    ReachableInv(c, events);
  }

  /**
   * After a failed canonicalisation the next call for the session, in time, under a key not answered
   * before and with the announced object, waits for another one.
   */
  lemma {:induction false} RetryWaits(
      c: Conversions, events: seq<Event>, k: nat, j: nat, input: CompleteInput, now: Time)
    requires Legal(c, events) && k < |After(c, events).issues| && After(c, events).issues[k].reply.IssuedAs?
    requires input.sessionId == After(c, events).issues[k].reply.result.sessionId
    requires var s, id := After(c, events), input.sessionId;
      && j < |s.answers| && s.answers[j].asked.sessionId == id && s.answers[j].reply.CanonicalizationFailed?
      && (forall l :: j < l < |s.answers| ==> s.answers[l].asked.sessionId != id) && !Waiting(s.suspended, id)
      && Last(s.answers, CompletionKey(input)).None?
    requires var r := After(c, events).issues[k].reply.result; now <= r.expiresAt && IsAnnounced(r, input.staged)
    ensures Begin(c, After(c, events).store, input, now).1 == Suspended
  {
    var s, id := After(c, events), input.sessionId;
    hide After, Legal, Begin, Last, CompletionKey, FailsOpen, AnswersOk, HasFirst, WasRejected, Waiting, IsAnnounced;
    WaitsExactly(c, events, k, input, now);
    AlwaysFailsOpen(c, events);
    ReachableAnswers(c, events);
    FailedIsOpen(s.store, s.answers, j, id);
  }

  // ----- what a waiting call is answered -----

  /**
   * A snapshot completes the session with what was issued, a dispatch of it and its default template; an
   * exception does not.
   */
  lemma {:induction false} FinishDecides(
      c: Conversions, events: seq<Event>, k: nat, call: nat, outcome: Outcome)
    requires Legal(c, events) && k < |After(c, events).issues| && After(c, events).issues[k].reply.IssuedAs?
    requires var s := After(c, events);
      && call in s.suspended && s.suspended[call].sessionId == s.issues[k].reply.result.sessionId
      && Knows(s.store, s.suspended[call].sessionId)
    ensures var s := After(c, events);
      var r, input := s.issues[k].reply.result, s.suspended[call];
      Finish(c, s.store, input, outcome).1
      == match outcome
         case Threw => CanonicalizationFailed(r.sessionId)
         case Snapshotted(snapshot, dispatchId) =>
           var template := input.workflowTemplate.GetOr("asset-derivation-v1");
           var key := r.namespaceId + ":" + r.assetId + ":" + r.versionId + ":" + template;
           Completed(Completion(r.assetId, c.toSnapshot(c.toEvidence(snapshot)), r.sessionId, r.versionId, Canonical,
                                DispatchSummary(dispatchId, true, key)), false)
  {
    IssuedIsWritten(c, events, k);
    hide After, Legal;
  }

  // ----- what an issuing is answered -----

  /**
   * The first reply under a create key decides the later ones. Without one, an issuing for an asset that
   * is not there is refused, and any other gets a new session that says back what was asked.
   */
  lemma {:induction false} IssueDecides(c: Conversions, events: seq<Event>, input: IssueInput, ids: Ids)
    requires Legal(c, events) && Enabled(After(c, events), Issuing(input, ids))
    ensures var s := After(c, events);
      var reply, key := Issue(s.store, input, ids).1, Key(input.scope, input.idempotencyKey);
      var missing := Present(input.assetId).Some? && Present(input.assetId).value !in s.store.assets;
      && (forall k :: 0 <= k < |s.issues| && FirstIssue(s.issues[k], key) ==>
            reply == if s.issues[k].asked.requestHash == input.requestHash then
                       IssuedAs(s.issues[k].reply.result, true)
                     else IssueConflict(input.idempotencyKey))
      && (!HasFirstIssue(s.issues, key) ==>
            if missing then reply == AssetNotFound(Present(input.assetId).value)
            else
              && reply.IssuedAs? && !reply.isDuplicate && Reflects(input, reply.result)
              && reply.result.sessionId == ids.session && reply.result.versionId == ids.version
              && reply.result.versionNumber == |VersionsOf(s.store, reply.result.assetId)| + 1
              && (Present(input.assetId).None? ==> reply.result.assetId == ids.asset))
  {
    ReachableInv(c, events);
    var s, key := After(c, events), Key(input.scope, input.idempotencyKey);
    InvParts(c, s);
    hide After, Legal, Inv, States, Flight, AnswersOk, Linked;
    forall k | 0 <= k < |s.issues| && FirstIssue(s.issues[k], key)
      ensures key in s.store.issueRecords
      ensures s.store.issueRecords[key] == IssueRecord(s.issues[k].asked.requestHash, s.issues[k].reply.result)
    {
      assert IssueOk(s.store, s.issues[k]);
    }
    hide IssuesOk, IssueOk, FirstIssue;
  }
}
