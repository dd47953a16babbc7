/** Which session a completion is answered with, told from the answers given before under its key. */
module CompletionKeys {
  import opened Prelude
  import opened UploadSession
  import opened UploadHistory

  /** The latest completed answer under a key: the request hash it was asked with and the result it gave. */
  function Last(answers: seq<Answer>, key: Key): Option<CompletionRecord>
    decreases |answers|
  {
    if answers == [] then None
    else
      var a := answers[|answers| - 1];
      if a.reply.Completed? && CompletionKey(a.asked) == key then
        Some(CompletionRecord(a.asked.requestHash, a.reply.result))
      else Last(answers[..|answers| - 1], key)
  }

  /** The completion records are exactly the latest completed answers. */
  ghost predicate RecordsAreLast(s: System) {
    forall key :: Last(s.answers, key) == RecordOf(s.store, key)
  }

  function RecordOf(s: Store, key: Key): Option<CompletionRecord> {
    if key in s.completionRecords then Some(s.completionRecords[key]) else None
  }

  // ----- what one call does to the records -----

  /** A completed answer is noted under its key; anything else leaves the records alone. */
  ghost predicate Noted(s: Store, t: Store, a: Answer) {
    t.completionRecords
    == if a.reply.Completed? then
         s.completionRecords[CompletionKey(a.asked) := CompletionRecord(a.asked.requestHash, a.reply.result)]
       else s.completionRecords
  }

  lemma {:induction false} NotedNothing(s: Store, t: Store, a: Answer)
    requires t.completionRecords == s.completionRecords
    requires a.reply.Completed? ==>
      CompletionKey(a.asked) in s.completionRecords
      && s.completionRecords[CompletionKey(a.asked)] == CompletionRecord(a.asked.requestHash, a.reply.result)
    ensures Noted(s, t, a)
  {
  }

  lemma {:induction false} NotedRecord(s: Store, input: CompleteInput, r: Completion, isDuplicate: bool)
    ensures Noted(s, PutRecord(s, input, r), Answer(input, Completed(r, isDuplicate)))
  {
  }

  /** The reply of a call that came back at once, or none. */
  function ReplyOf(input: CompleteInput, begun: Begun): Answer {
    Answer(input, if begun.Answered? then begun.reply else NotFound(input.sessionId))
  }

  /** Without a record of its key, a completed answer is the call's own session's. */
  lemma {:induction false} BeginNotes(c: Conversions, s: Store, input: CompleteInput, now: Time)
    requires Linked(s) && States(c, s)
    ensures var (t, begun), key := Begin(c, s, input, now), CompletionKey(input);
      && Noted(s, t, ReplyOf(input, begun))
      && (begun.Answered? && begun.reply.Completed? && key !in s.completionRecords ==>
            begun.reply.result.sessionId == input.sessionId)
      && (input.sessionId in s.sessions && key in s.completionRecords ==>
            begun == Answered(if s.completionRecords[key].requestHash == input.requestHash
                              then Completed(s.completionRecords[key].result, true)
                              else Conflict(input.idempotencyKey)))
      && (input.sessionId !in s.sessions ==> begun.Answered? && !begun.reply.Completed?)
  {
    hide *;
    var id := input.sessionId;
    var (t, begun) := Begin(c, s, input, now);
    Replied(input, begun);
    if id !in s.sessions {
      BeginUnknown(c, s, input, now);
      NotedNothing(s, t, ReplyOf(input, begun));
    } else {
      ItsOk(c, s, id);
      if CompletionKey(input) in s.completionRecords {
        BeginKnownKey(c, s, input, now);
        NotedNothing(s, t, ReplyOf(input, begun));
      } else if now > s.sessions[id].expiresAt {
        BeginExpired(c, s, input, now);
        NotedNothing(s, t, ReplyOf(input, begun));
      } else if s.sessions[id].completion.Some? {
        OwnCompletion(c, s, id);
        BeginCompleted(c, s, input, now);
        NotedRecord(s, input, s.sessions[id].completion.value, true);
        if t == s {
          NotedNothing(s, t, ReplyOf(input, begun));
        }
      } else {
        var next, w := OpenCases(c, s, input, s.sessions[id], VersionAt(s, id));
        BeginOpens(c, s, input, now);
        NotedNothing(s, t, ReplyOf(input, begun));
      }
    }
  }

  lemma {:induction false} Replied(input: CompleteInput, begun: Begun)
    ensures ReplyOf(input, begun).asked == input
    ensures ReplyOf(input, begun).reply.Completed? <==> begun.Answered? && begun.reply.Completed?
    ensures begun.Answered? ==> ReplyOf(input, begun) == Answer(input, begun.reply)
  {
  }

  lemma {:induction false} OwnCompletion(c: Conversions, s: Store, id: string)
    requires Linked(s) && id in s.sessions && SessionOk(c, id, s.sessions[id], VersionAt(s, id))
    ensures s.sessions[id].completion.Some? ==> s.sessions[id].completion.value.sessionId == id
  {
  }

  lemma {:induction false} FinishNotes(c: Conversions, s: Store, input: CompleteInput, outcome: Outcome)
    requires Knows(s, input.sessionId)
    ensures var (t, reply) := Finish(c, s, input, outcome);
      && Noted(s, t, Answer(input, reply))
      && (reply.Completed? ==> reply.result.sessionId == input.sessionId && !reply.isDuplicate)
  {
    hide CompletionKey, CanonicalVersion;
  }

  lemma {:induction false} IssueNotes(s: Store, input: IssueInput, ids: Ids)
    ensures Issue(s, input, ids).0.completionRecords == s.completionRecords
  {
  }

  // ----- over every run -----

  lemma {:induction false} NotedIsLast(s: System, t: System, a: Answer)
    requires RecordsAreLast(s) && t.answers == s.answers + [a] && Noted(s.store, t.store, a)
    ensures RecordsAreLast(t)
  {
    hide CompletionKey;
    assert t.answers[..|t.answers| - 1] == s.answers && t.answers[|t.answers| - 1] == a;
    forall key
      ensures Last(t.answers, key) == RecordOf(t.store, key)
    {
      assert Last(s.answers, key) == RecordOf(s.store, key);
    }
  }

  lemma {:induction false} SameLast(s: System, t: System)
    requires RecordsAreLast(s) && t.answers == s.answers && t.store.completionRecords == s.store.completionRecords
    ensures RecordsAreLast(t)
  {
    hide Last;
    assert forall key :: Last(s.answers, key) == RecordOf(s.store, key);
  }

  lemma {:induction false} StepKeepsLast(c: Conversions, s: System, e: Event)
    requires Inv(c, s) && Enabled(s, e) && RecordsAreLast(s)
    ensures RecordsAreLast(Apply(c, s, e))
  {
    hide Linked, Numbered, States, Flight, AnswersOk, IssuesOk, Begin, Issue, Finish, Noted, RecordsAreLast;
    var t := Apply(c, s, e);
    match e
    case Issuing(input, ids) =>
      IssueNotes(s.store, input, ids);
      SameLast(s, t);
    case Finishing(call, outcome) =>
      FinishNotes(c, s.store, s.suspended[call], outcome);
      NotedIsLast(s, t, Answer(s.suspended[call], Finish(c, s.store, s.suspended[call], outcome).1));
    case Beginning(call, input, now) =>
      BeginNotes(c, s.store, input, now);
      var begun := Begin(c, s.store, input, now).1;
      if begun.Answered? {
        NotedIsLast(s, t, Answer(input, begun.reply));
      } else {
        NotedUnchanged(s.store, t.store, ReplyOf(input, begun));
        SameLast(s, t);
      }
  }

  lemma {:induction false} NotedUnchanged(s: Store, t: Store, a: Answer)
    requires Noted(s, t, a) && !a.reply.Completed?
    ensures t.completionRecords == s.completionRecords
  {
  }

  /** Over every run, a key has a record exactly when it has a completed answer, and it is the latest one. */
  lemma {:induction false} RecordsAreAlwaysLast(c: Conversions, events: seq<Event>)
    requires Legal(c, events)
    ensures RecordsAreLast(After(c, events))
    decreases |events|
  {
    if events != [] {
      hide Inv, Enabled, Apply, RecordsAreLast;
      RecordsAreAlwaysLast(c, events[..|events| - 1]);
      ReachableInv(c, events[..|events| - 1]);
      StepKeepsLast(c, After(c, events[..|events| - 1]), events[|events| - 1]);
    }
  }

  /**
   * In every reachable state, a call for a known session under a key that was answered before is
   * answered at once: with the latest answer if its hash is that one's, with a conflict if not.
   */
  lemma {:induction false} KeyDecides(c: Conversions, events: seq<Event>, input: CompleteInput, now: Time)
    requires Legal(c, events) && input.sessionId in After(c, events).store.sessions
    requires Last(After(c, events).answers, CompletionKey(input)).Some?
    ensures var last := Last(After(c, events).answers, CompletionKey(input)).value;
      Begin(c, After(c, events).store, input, now).1
      == Answered(if last.requestHash == input.requestHash then Completed(last.result, true)
                  else Conflict(input.idempotencyKey))
  {
    hide After, Legal, Numbered, Flight, AnswersOk, IssuesOk, Begin, Linked, States, Last, CompletionKey;
    ReachableInv(c, events);
    RecordsAreAlwaysLast(c, events);
    BeginNotes(c, After(c, events).store, input, now);
  }

  /**
   * In every reachable state, a completed answer given at once names the requested session exactly
   * if no call under its key was answered before, or the latest one named that session too.
   */
  lemma {:induction false} NamesRequestedExactly(c: Conversions, events: seq<Event>, input: CompleteInput, now: Time)
    requires Legal(c, events)
    ensures var last, begun :=
      Last(After(c, events).answers, CompletionKey(input)), Begin(c, After(c, events).store, input, now).1;
      begun.Answered? && begun.reply.Completed? ==>
        (begun.reply.result.sessionId == input.sessionId
         <==> last.None? || last.value.result.sessionId == input.sessionId)
  {
    hide After, Legal, Numbered, Flight, AnswersOk, IssuesOk, Begin, Linked, States, Last, CompletionKey;
    ReachableInv(c, events);
    RecordsAreAlwaysLast(c, events);
    BeginNotes(c, After(c, events).store, input, now);
  }

  /** A call that waited always names its own session, and is no duplicate. */
  lemma {:induction false} WaitingNamesItsOwn(c: Conversions, s: System, call: nat, outcome: Outcome)
    requires Enabled(s, Finishing(call, outcome))
    ensures var (asked, reply) := (s.suspended[call], Finish(c, s.store, s.suspended[call], outcome).1);
      reply.Completed? ==> reply.result.sessionId == asked.sessionId && !reply.isDuplicate
  {
    hide Finish, Noted;
    FinishNotes(c, s.store, s.suspended[call], outcome);
  }

  ghost predicate AskedFor(answers: seq<Answer>, key: Key, id: string) {
    exists k :: 0 <= k < |answers| && CompletionKey(answers[k].asked) == key && answers[k].asked.sessionId == id
  }

  /** Completed answers name sessions for which their key was used. */
  ghost predicate NamesAsked(answers: seq<Answer>) {
    forall k :: 0 <= k < |answers| && answers[k].reply.Completed? ==>
      AskedFor(answers, CompletionKey(answers[k].asked), answers[k].reply.result.sessionId)
  }

  lemma {:induction false} MoreAsked(answers: seq<Answer>, a: Answer)
    ensures forall key, id :: AskedFor(answers, key, id) ==> AskedFor(answers + [a], key, id)
    ensures AskedFor(answers + [a], CompletionKey(a.asked), a.asked.sessionId)
  {
    var more := answers + [a];
    forall key, id | AskedFor(answers, key, id)
      ensures AskedFor(more, key, id)
    {
      var k :| 0 <= k < |answers| && CompletionKey(answers[k].asked) == key && answers[k].asked.sessionId == id;
      assert more[k] == answers[k];
    }
    assert more[|answers|] == a;
  }

  predicate Answers(a: Answer, key: Key, r: Completion) {
    a.reply.Completed? && CompletionKey(a.asked) == key && a.reply.result == r
  }

  lemma {:induction false} LastIsAnAnswer(answers: seq<Answer>, key: Key)
    requires Last(answers, key).Some?
    ensures exists k :: 0 <= k < |answers| && Answers(answers[k], key, Last(answers, key).value.result)
    decreases |answers|
  {
    var a := answers[|answers| - 1];
    if !(a.reply.Completed? && CompletionKey(a.asked) == key) {
      LastIsAnAnswer(answers[..|answers| - 1], key);
      var front := answers[..|answers| - 1];
      var k :| 0 <= k < |front| && Answers(front[k], key, Last(front, key).value.result);
      assert Answers(answers[k], key, Last(answers, key).value.result);
    } else {
      assert Answers(a, key, Last(answers, key).value.result);
    }
  }

  lemma {:induction false} OneMoreNamesAsked(answers: seq<Answer>, a: Answer)
    requires NamesAsked(answers)
    requires a.reply.Completed? && a.reply.result.sessionId != a.asked.sessionId ==>
      var last := Last(answers, CompletionKey(a.asked));
      last.Some? && last.value.result == a.reply.result
    ensures NamesAsked(answers + [a])
  {
    var more := answers + [a];
    MoreAsked(answers, a);
    if a.reply.Completed? && a.reply.result.sessionId != a.asked.sessionId {
      LastIsAnAnswer(answers, CompletionKey(a.asked));
      var k :| 0 <= k < |answers| && Answers(answers[k], CompletionKey(a.asked), a.reply.result);
      assert AskedFor(answers, CompletionKey(answers[k].asked), answers[k].reply.result.sessionId);
    }
    hide AskedFor, CompletionKey, Last;
    forall k | 0 <= k < |more| && more[k].reply.Completed?
      ensures AskedFor(more, CompletionKey(more[k].asked), more[k].reply.result.sessionId)
    {
      assert k < |answers| ==> more[k] == answers[k];
    }
  }

  lemma {:induction false} StepNamesAsked(c: Conversions, s: System, e: Event)
    requires Inv(c, s) && Enabled(s, e) && RecordsAreLast(s) && NamesAsked(s.answers)
    ensures NamesAsked(Apply(c, s, e).answers)
  {
    hide Linked, Numbered, States, Flight, AnswersOk, IssuesOk, Begin, Issue, Finish;
    hide Noted, NamesAsked, Last, CompletionKey;
    match e
    case Issuing(input, ids) =>
    case Finishing(call, outcome) =>
      FinishNotes(c, s.store, s.suspended[call], outcome);
      OneMoreNamesAsked(s.answers, Answer(s.suspended[call], Finish(c, s.store, s.suspended[call], outcome).1));
    case Beginning(call, input, now) =>
      BeginNotes(c, s.store, input, now);
      var begun := Begin(c, s.store, input, now).1;
      assert Last(s.answers, CompletionKey(input)) == RecordOf(s.store, CompletionKey(input));
      if begun.Answered? {
        OneMoreNamesAsked(s.answers, Answer(input, begun.reply));
      }
  }

  /**
   * A completed answer names a session that some call used its key for; with one session per key, the
   * requested one.
   */
  lemma {:induction false} RepliesNameAskedSessions(c: Conversions, events: seq<Event>)
    requires Legal(c, events)
    ensures NamesAsked(After(c, events).answers)
    decreases |events|
  {
    if events != [] {
      hide Inv, Enabled, Apply, RecordsAreLast, NamesAsked;
      RepliesNameAskedSessions(c, events[..|events| - 1]);
      RecordsAreAlwaysLast(c, events[..|events| - 1]);
      ReachableInv(c, events[..|events| - 1]);
      StepNamesAsked(c, After(c, events[..|events| - 1]), events[|events| - 1]);
    } else {
      hide Inv, Enabled, Apply;
    }
  }

  // ----- two runs with one key and two sessions -----

  lemma {:induction false} Snoc(c: Conversions, events: seq<Event>, e: Event)
    requires Legal(c, events) && Enabled(After(c, events), e)
    ensures Legal(c, events + [e]) && After(c, events + [e]) == Apply(c, After(c, events), e)
  {
    hide Enabled, Apply;
    var more := events + [e];
    assert more[..|more| - 1] == events && more[|more| - 1] == e;
  }

  const SUM := Checksum("m", "x")

  function Announce(key: string): IssueInput {
    IssueInput(None, "o", "s", SUM, "t", 0, "f", key, "r", "k", "n", None, 1)
  }

  /** A completion under the one key `q`. */
  function Ask(sessionId: string, hash: string): CompleteInput {
    CompleteInput("s", "q", hash, Staged("k", 1, SUM, Some(SUM), ""), sessionId, None)
  }

  function AssetOf(id: string): Asset {
    Asset(id, "o", "n", None)
  }

  function SessionOf(ids: Ids): Session {
    NewSession(Announce(""), AssetOf(ids.asset), ids)
  }

  function VersionOf(ids: Ids): Version {
    NewVersion(Announce(""), AssetOf(ids.asset), ids, 1)
  }

  const A := Ids("a", "v", "x")
  const B := Ids("b", "w", "y")

  /** Sessions `x` and `y` were issued. */
  const ISSUING := [Issuing(Announce("1"), A), Issuing(Announce("2"), B)]

  /** What matters of the state: two fresh sessions, and nothing completed yet. */
  ghost predicate TwoIssued(s: System) {
    && s.suspended == map[] && s.answers == [] && s.store.completionRecords == map[]
    && "x" in s.store.sessions && s.store.sessions["x"] == SessionOf(A) && "v" in s.store.versions
    && s.store.versions["v"] == VersionOf(A)
    && "y" in s.store.sessions && s.store.sessions["y"] == SessionOf(B) && "w" in s.store.versions
    && s.store.versions["w"] == VersionOf(B)
  }

  lemma {:induction false} IssuingRuns(c: Conversions)
    ensures Legal(c, ISSUING) && TwoIssued(After(c, ISSUING))
  {
    var e, f := Issuing(Announce("1"), A), Issuing(Announce("2"), B);
    assert Legal(c, []) && After(c, []) == UploadHistory.START;
    Snoc(c, [], e);
    Snoc(c, [e], f);
    assert [] + [e] == [e] && [e] + [f] == ISSUING;
  }

  /** A fresh session whose staged object matches is taken to canonicalisation. */
  lemma {:induction false} Waits(c: Conversions, s: Store, ids: Ids, hash: string)
    requires ids.session in s.sessions && s.sessions[ids.session] == SessionOf(ids)
    requires ids.version in s.versions && s.versions[ids.version] == VersionOf(ids)
    requires s.completionRecords == map[]
    ensures Begin(c, s, Ask(ids.session, hash), 0)
      == (PutBoth(s, ids.session, SessionOf(ids).(state := BytesUploaded), VersionOf(ids).(state := Canonicalizing)),
          Suspended)
  {
  }

  function ResultOf(c: Conversions, ids: Ids, dispatchId: string): Completion {
    Completion(ids.asset, c.toSnapshot(c.toEvidence("z")), ids.session, ids.version, Canonical,
               DispatchSummary(dispatchId, true, WorkflowKey(VersionOf(ids), DEFAULT_TEMPLATE)))
  }

  lemma {:induction false} Completes(c: Conversions, s: Store, ids: Ids, hash: string, dispatchId: string)
    requires ids.session in s.sessions && s.sessions[ids.session] == SessionOf(ids).(state := BytesUploaded)
    requires ids.version in s.versions && s.versions[ids.version] == VersionOf(ids).(state := Canonicalizing)
    ensures var (t, reply) := Finish(c, s, Ask(ids.session, hash), Snapshotted("z", dispatchId));
      && reply == Completed(ResultOf(c, ids, dispatchId), false)
      && t.completionRecords
           == s.completionRecords[Key("s", "q") := CompletionRecord(hash, ResultOf(c, ids, dispatchId))]
      && t.sessions == s.sessions[ids.session := t.sessions[ids.session]]
      && t.versions == s.versions[ids.version := t.versions[ids.version]]
  {
    SameKey(VersionOf(ids), VersionOf(ids).(state := Canonicalizing));
    hide WorkflowKey;
  }

  lemma {:induction false} SameKey(v: Version, w: Version)
    requires w == v.(state := w.state)
    ensures WorkflowKey(v, DEFAULT_TEMPLATE) == WorkflowKey(w, DEFAULT_TEMPLATE)
  {
  }

  const FIRST_ASKS := ISSUING + [Beginning(0, Ask("x", "h"), 0)]

  ghost predicate FirstWaits(s: System) {
    && s.suspended == map[0 := Ask("x", "h")] && s.answers == [] && s.store.completionRecords == map[]
    && "x" in s.store.sessions && s.store.sessions["x"] == SessionOf(A).(state := BytesUploaded)
    && "v" in s.store.versions && s.store.versions["v"] == VersionOf(A).(state := Canonicalizing)
    && "y" in s.store.sessions && s.store.sessions["y"] == SessionOf(B) && "w" in s.store.versions
    && s.store.versions["w"] == VersionOf(B)
  }

  lemma {:induction false} FirstAsks(c: Conversions)
    ensures Legal(c, FIRST_ASKS) && FirstWaits(After(c, FIRST_ASKS))
  {
    IssuingRuns(c);
    hide Legal, After, Begin, SessionOf, VersionOf;
    Waits(c, After(c, ISSUING).store, A, "h");
    Named(A);
    Snoc(c, ISSUING, Beginning(0, Ask("x", "h"), 0));
  }

  lemma {:induction false} Named(ids: Ids)
    ensures SessionOf(ids).versionId == ids.version
  {
  }

  /** One after the other: the second call asks for session `y` and is answered with the result of `x`. */
  lemma {:induction false} SequentialReplay(c: Conversions)
    ensures var events := FIRST_ASKS + [Finishing(0, Snapshotted("z", "d"))] + [Beginning(1, Ask("y", "h"), 0)];
      && Legal(c, events)
      && After(c, events).answers == [Answer(Ask("x", "h"), Completed(ResultOf(c, A, "d"), false)),
                                      Answer(Ask("y", "h"), Completed(ResultOf(c, A, "d"), true))]
  {
    FirstAsks(c);
    hide Legal, After, Finish, SessionOf, VersionOf, ResultOf, BeginOpen;
    Named(A);
    Named(B);
    Completes(c, After(c, FIRST_ASKS).store, A, "h", "d");
    Snoc(c, FIRST_ASKS, Finishing(0, Snapshotted("z", "d")));
    Snoc(c, FIRST_ASKS + [Finishing(0, Snapshotted("z", "d"))], Beginning(1, Ask("y", "h"), 0));
  }

  const BOTH_ASK := FIRST_ASKS + [Beginning(1, Ask("y", "g"), 0)]

  lemma {:induction false} BothAsk(c: Conversions)
    ensures Legal(c, BOTH_ASK)
    ensures var s := After(c, BOTH_ASK);
      && s.suspended == map[0 := Ask("x", "h"), 1 := Ask("y", "g")] && s.answers == []
      && s.store.completionRecords == map[]
      && "x" in s.store.sessions && s.store.sessions["x"] == SessionOf(A).(state := BytesUploaded)
      && "v" in s.store.versions && s.store.versions["v"] == VersionOf(A).(state := Canonicalizing)
      && "y" in s.store.sessions && s.store.sessions["y"] == SessionOf(B).(state := BytesUploaded)
      && "w" in s.store.versions && s.store.versions["w"] == VersionOf(B).(state := Canonicalizing)
  {
    FirstAsks(c);
    hide Legal, After, Begin, SessionOf, VersionOf;
    Named(B);
    Waits(c, After(c, FIRST_ASKS).store, B, "g");
    Snoc(c, FIRST_ASKS, Beginning(1, Ask("y", "g"), 0));
  }

  /**
   * At the same time: two calls under one key, for two sessions and with two hashes, are both
   * completed, neither is a duplicate or refused, and the record of the key is the later one's.
   */
  lemma {:induction false} ConcurrentOverwrite(c: Conversions)
    ensures var events := BOTH_ASK + [Finishing(0, Snapshotted("z", "d"))] + [Finishing(1, Snapshotted("z", "e"))];
      && Legal(c, events)
      && After(c, events).answers == [Answer(Ask("x", "h"), Completed(ResultOf(c, A, "d"), false)),
                                      Answer(Ask("y", "g"), Completed(ResultOf(c, B, "e"), false))]
      && RecordOf(After(c, events).store, Key("s", "q")) == Some(CompletionRecord("g", ResultOf(c, B, "e")))
  {
    BothAsk(c);
    hide Legal, After, Finish, SessionOf, VersionOf, ResultOf;
    Named(A);
    Named(B);
    Completes(c, After(c, BOTH_ASK).store, A, "h", "d");
    Snoc(c, BOTH_ASK, Finishing(0, Snapshotted("z", "d")));
    var s := After(c, BOTH_ASK + [Finishing(0, Snapshotted("z", "d"))]);
    Completes(c, s.store, B, "g", "e");
    Snoc(c, BOTH_ASK + [Finishing(0, Snapshotted("z", "d"))], Finishing(1, Snapshotted("z", "e")));
  }
}
