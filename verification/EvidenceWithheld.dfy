/**
 When a stored rejection withholds an acceptance from a submission of the same bytes
 (igris-overture/api/routes_evidence.go): exactly which public keys it withholds one from, and runs in which it
 does so.
 */
module EvidenceWithheld {
  import opened Options
  import opened EvidenceEvents
  import opened EvidenceVerify
  import opened EvidenceAcceptance
  import opened EvidenceTables
  import opened EvidenceChain
  import opened EvidenceProtocol
  import opened EvidenceStore
  import opened EvidenceRejection
  import opened EvidenceDenial
  import opened EvidenceSamples

  // ---- What depends on the public key ----

  predicate OnlyBadSignatures(issues: seq<Issue>) {
    forall i :: 0 <= i < |issues| ==> issues[i].code == BadSignature
  }

  ghost predicate SignedAt(ck: Checks, key: nat, e: Event) {
    ck.signed(key, RecomputedHash(e), TextOrEmpty(e, SignatureField))
  }

  ghost predicate SignedFrom(ck: Checks, key: nat, events: seq<Event>, i: nat) {
    forall j :: i <= j < |events| ==> SignedAt(ck, key, events[j])
  }

  /** One event is clean under a key exactly when its signature verifies under it and it earns nothing but a bad
      signature under any other. */
  lemma CodesUnderOtherKey(ck: Checks, key: nat, other: nat, tr: Track, e: Event, answer: Lookup)
    ensures Codes(ck, other, tr, e, answer) == [] <==>
      (forall c <- Codes(ck, key, tr, e, answer) :: c == BadSignature) && SignedAt(ck, other, e)
  {
    var rest, transition := LinkCodes(tr, e) + HashCodes(e), TransitionCodes(tr, e, answer);
    var codes := rest + SignatureCodes(ck, key, e) + transition;
    assert codes == Codes(ck, key, tr, e, answer);
    assert rest != [] ==> rest[0] in codes && rest[0] != BadSignature;
    assert transition != [] ==> transition[0] in codes && transition[0] != BadSignature;
    assert SignatureCodes(ck, key, e) != [] ==> SignatureCodes(ck, key, e)[0] in codes;
    assert Codes(ck, other, tr, e, answer) == rest + SignatureCodes(ck, other, e) + transition;
  }

  /** The findings under a key are empty exactly when every event is signed under it and the findings under any
      other key are nothing but bad signatures. */
  lemma {:induction false} FindingsUnderOtherKey(
    ck: Checks, key: nat, other: nat, events: seq<Event>, tr: Track, lookup: Text -> Lookup)
    ensures Findings(ck, other, events, tr, lookup) == [] <==>
      OnlyBadSignatures(Findings(ck, key, events, tr, lookup)) && SignedFrom(ck, other, events, tr.index)
    decreases |events| - tr.index
  {
    if tr.index < |events| {
      var e := events[tr.index];
      if ShapeIssue(ck, e).Some? {
        MisshapenIsNoSignature(ck, e);
        assert Findings(ck, key, events, tr, lookup)[0].code != BadSignature;
      } else {
        FindingsUnderOtherKey(ck, key, other, events, NextTrack(tr, e, lookup(DecisionRef(e))), lookup);
        FindingsStepUnderOtherKey(ck, key, other, events, tr, lookup);
      }
    }
  }

  lemma MisshapenIsNoSignature(ck: Checks, e: Event)
    requires ShapeIssue(ck, e).Some?
    ensures ShapeIssue(ck, e).value != BadSignature
  {
  }

  /** One well-shaped event, given the rest. */
  lemma FindingsStepUnderOtherKey(
    ck: Checks, key: nat, other: nat, events: seq<Event>, tr: Track, lookup: Text -> Lookup)
    requires tr.index < |events| && ShapeIssue(ck, events[tr.index]).None?
    requires var next := NextTrack(tr, events[tr.index], lookup(DecisionRef(events[tr.index])));
      Findings(ck, other, events, next, lookup) == [] <==>
        OnlyBadSignatures(Findings(ck, key, events, next, lookup)) && SignedFrom(ck, other, events, next.index)
    ensures Findings(ck, other, events, tr, lookup) == [] <==>
      OnlyBadSignatures(Findings(ck, key, events, tr, lookup)) && SignedFrom(ck, other, events, tr.index)
  {
    var e := events[tr.index];
    var answer := lookup(DecisionRef(e));
    var next := NextTrack(tr, e, answer);
    CodesUnderOtherKey(ck, key, other, tr, e, answer);
    LabelledBadSignatures(tr.index, Codes(ck, key, tr, e, answer), Findings(ck, key, events, next, lookup));
    SignedFromStep(ck, other, events, tr.index);
  }

  lemma SignedFromStep(ck: Checks, key: nat, events: seq<Event>, i: nat)
    requires i < |events|
    ensures SignedFrom(ck, key, events, i) <==> SignedAt(ck, key, events[i]) && SignedFrom(ck, key, events, i + 1)
  {
  }

  lemma LabelledBadSignatures(index: nat, codes: seq<Code>, rest: seq<Issue>)
    ensures OnlyBadSignatures(Label(index, codes) + rest) <==>
      (forall c <- codes :: c == BadSignature) && OnlyBadSignatures(rest)
  {
    var all := Label(index, codes) + rest;
    if OnlyBadSignatures(all) {
      forall c <- codes ensures c == BadSignature {
        var i :| 0 <= i < |codes| && codes[i] == c;
        assert all[i].code == c;
      }
      forall i | 0 <= i < |rest| ensures rest[i].code == BadSignature {
        assert all[|codes| + i] == rest[i];
      }
    }
    if (forall c <- codes :: c == BadSignature) && OnlyBadSignatures(rest) {
      forall i | 0 <= i < |all| ensures all[i].code == BadSignature {
        assert i < |codes| ==> codes[i] in codes;
      }
    }
  }

  // ---- Exactly when a stored rejection withholds an acceptance ----

  /** While the stream ends where a rejected batch starts and no decision id is stored with two values, a
      submission of its bytes would be accepted under its own key only if every stored issue is a bad signature
      and every event is signed under that key; and exactly then, if the list of issues was not cut off. */
  lemma WithheldIff(ck: Checks, actions: seq<Action>, row: nat, again: Submission)
    requires var t := Run(ck, INIT, actions).tables;
      && row < |t.batches| && t.batches[row].RejectedBatch? && Settled(t, again)
      && again.events == t.batches[row].content && again.firstPrev == t.batches[row].firstPrev
    ensures var t := Run(ck, INIT, actions).tables;
      var issues := t.batches[row].issues;
      var accepted := Acceptable(ck, again.key, again.events, again.firstPrev, LookupIn(t.events));
      var signedAnew := OnlyBadSignatures(issues) && SignedFrom(ck, again.key, again.events, 0);
      (accepted ==> signedAnew) && (|issues| < MAX_ISSUES ==> (accepted <==> signedAnew))
  {
    var t := Run(ck, INIT, actions).tables;
    StoredRejectionIsFinal(ck, actions, row);
    var key, lookup := Storers(ck, actions)[row].key, LookupIn(t.events);
    RejectedUnderOtherKey(ck, key, again.key, again.events, again.firstPrev, lookup);
  }

  lemma RejectedUnderOtherKey(
    ck: Checks, key: nat, other: nat, events: seq<Event>, firstPrev: Option<Text>, lookup: Text -> Lookup)
    requires Verify(ck, key, events, firstPrev, lookup).Rejected?
    ensures var issues := Verify(ck, key, events, firstPrev, lookup).issues;
      var accepted := Acceptable(ck, other, events, firstPrev, lookup);
      var signedAnew := OnlyBadSignatures(issues) && SignedFrom(ck, other, events, 0);
      (accepted ==> signedAnew) && (|issues| < MAX_ISSUES ==> (accepted <==> signedAnew))
  {
    var issues, all :=
      Verify(ck, key, events, firstPrev, lookup).issues, Findings(ck, key, events, StartTrack(firstPrev), lookup);
    RejectionIsBounded(ck, key, events, firstPrev, lookup);
    FindingsUnderOtherKey(ck, key, other, events, StartTrack(firstPrev), lookup);
    NoFindingsIffGood(ck, other, events, firstPrev, lookup, StartTrack(firstPrev), 0);
    assert OnlyBadSignatures(all) ==> OnlyBadSignatures(issues);
  }

  // ---- A run that withholds from another key ----

  function Lone(key: nat): Submission { Submission([Decision("d", "allowed", None)], None, key, None) }

  lemma LoneDecodes(key: nat)
    ensures Decodes(Lone(key))
  {
    SealedDecision(key, "d", "allowed", None);
  }

  /** A batch that would be accepted is answered with the rejection its bytes earned under another public key. */
  ghost predicate AnsweredFromOtherKey(ck: Checks, s: State, id: nat) {
    && id in s.flights && s.flights[id].phase == Answered(Reported(Body(0, false)))
    && |s.tables.batches| == 1 && s.tables.batches[0].RejectedBatch?
    && Acceptable(ck, s.flights[id].sub.key, s.flights[id].sub.events, s.flights[id].sub.firstPrev,
                  LookupIn(s.tables.events))
  }

  lemma FirstIsRejected(ck: Checks)
    requires ck == ChecksFor(2)
    ensures var t := Serve(ck, EMPTY, Lone(1)).0;
      && |t.batches| == 1 && t.batches[0].RejectedBatch? && t.batches[0].content == Lone(1).events
      && t.key.None? && t.events == [] && Head(t.batches) == None
  {
    LoneDecodes(1);
    RunTables(ck, []);
    ServeMeans(ck, EMPTY, Lone(1));
    LoneDecision(2, 1, "d", LookupIn(EMPTY.events));
    var t := Serve(ck, EMPTY, Lone(1)).0;
    StreamSnoc([], t.batches[0]);
    assert [] + [t.batches[0]] == t.batches;
  }

  lemma SecondIsAnsweredFromFirst(ck: Checks, t: Tables)
    requires ck == ChecksFor(2) && TablesInv(ck, t) && |t.batches| == 1 && t.batches[0].content == Lone(2).events
    requires t.key.None? && Head(t.batches) == None
    ensures Serve(ck, t, Lone(2)) == (t, Reported(Body(0, false)))
    ensures Acceptable(ck, 2, Lone(2).events, None, LookupIn(t.events))
  {
    LoneDecodes(2);
    ServeMeans(ck, t, Lone(2));
    LoneDecision(2, 2, "d", LookupIn(t.events));
  }

  /** Two requests served one after the other. */
  lemma ServeTwice(ck: Checks, a: Submission, b: Submission) returns (actions: seq<Action>)
    requires Decodes(a) && Decodes(b)
    ensures var t := Serve(ck, EMPTY, a).0;
            var r := Run(ck, INIT, actions);
            && TablesInv(ck, t) && r.tables == Serve(ck, t, b).0
            && 1 in r.flights && r.flights[1] == Flight(b, Answered(Serve(ck, t, b).1))
  {
    var first := ServeExtendsRun(ck, [], 0, a);
    assert [] + first == first;
    RunTables(ck, first);
    var second := ServeExtendsRun(ck, first, 1, b);
    actions := first + second;
  }

  lemma RejectionBindsOtherKeys()
    ensures exists actions :: AnsweredFromOtherKey(ChecksFor(2), Run(ChecksFor(2), INIT, actions), 1)
  {
    var ck := ChecksFor(2);
    LoneDecodes(1);
    LoneDecodes(2);
    var actions := ServeTwice(ck, Lone(1), Lone(2));
    FirstIsRejected(ck);
    SecondIsAnsweredFromFirst(ck, Serve(ck, EMPTY, Lone(1)).0);
    assert AnsweredFromOtherKey(ck, Run(ck, INIT, actions), 1);
  }

  // ---- A run that withholds from the same key ----

  /** Statements of one submission that leave the tables alone. */
  lemma TickPasses(ck: Checks, t: Tables, sub: Submission, a: Phase, b: Phase, choice: nat, n: nat)
    requires TickOne(ck, t, sub, a, choice) == (t, b) && n > 0
    ensures Ticks(ck, t, sub, a, choice, n) == Ticks(ck, t, sub, b, choice, n - 1)
  {
  }

  /** The tables after a rejection is stored. */
  function WithRejection(t: Tables, sub: Submission, issues: seq<Issue>): Tables {
    t.(batches := t.batches + [RejectedBatch(sub.events, sub.firstPrev, issues)])
  }

  lemma RejectionIsStored(ck: Checks, t: Tables, sub: Submission, issues: seq<Issue>, choice: nat)
    requires FindContent(t.batches, sub.events).None? && sub.idempotencyKey.None?
    ensures Ticks(ck, t, sub, Persisting(Rejected(issues)), choice, 2)
         == (WithRejection(t, sub, issues), Answered(Reported(Body(|t.batches|, true))))
  {
    var t', body := WithRejection(t, sub, issues), Body(|t.batches|, true);
    var last := (t', Answered(Reported(body)));
    assert Ticks(ck, t', sub, Answered(Reported(body)), choice, 0) == last;
    assert Ticks(ck, t', sub, Responding(body), choice, 1) == last;
  }

  /** A new batch of one event at the head, read with this choice, that earns codes. */
  lemma OneEventIsRejected(ck: Checks, t: Tables, sub: Submission, choice: nat, p: Progress, issues: seq<Issue>)
    requires (t.key.None? || t.key.value == sub.key) && sub.idempotencyKey.None?
    requires FindContent(t.batches, sub.events).None? && ChainHead(t.batches, choice) == sub.firstPrev
    requires |sub.events| == 1 && p.track.index == 1 && Finish(p) == Rejected(issues)
    requires VerifyTick(ck, t, sub, Start(sub.firstPrev), choice) == Verifying(p)
    ensures Ticks(ck, t, sub, CheckKey, choice, 8)
         == (WithRejection(t, sub, issues), Answered(Reported(Body(|t.batches|, true))))
  {
    TickPasses(ck, t, sub, CheckKey, CheckReplay, choice, 8);
    TickPasses(ck, t, sub, CheckReplay, CheckContent, choice, 7);
    TickPasses(ck, t, sub, CheckContent, CheckHead, choice, 6);
    TickPasses(ck, t, sub, CheckHead, Verifying(Start(sub.firstPrev)), choice, 5);
    TickPasses(ck, t, sub, Verifying(Start(sub.firstPrev)), Verifying(p), choice, 4);
    TickPasses(ck, t, sub, Verifying(p), Persisting(Rejected(issues)), choice, 3);
    RejectionIsStored(ck, t, sub, issues, choice);
  }

  /** An outcome whose decision this lookup calls denied is rejected for just that. */
  lemma DeniedOutcome(ck: Checks, t: Tables, sub: Submission, o: Event, choice: nat)
    requires sub.events == [o] && Chained(ck, sub.key, o, sub.firstPrev)
    requires IsOutcome(o) && ValidStatus(TextOrEmpty(o, StatusField)) && DecisionRef(o) != Plain("")
    requires StoredDecision(t.events, DecisionRef(o), choice) == Row(Plain("denied"))
    ensures var p := VerifyTick(ck, t, sub, Start(sub.firstPrev), choice);
      && p.Verifying? && p.progress.track.index == 1
      && Finish(p.progress) == Rejected([Issue(0, InvalidTransition)])
  {
    var tr := StartTrack(sub.firstPrev);
    ShapeIssueIsWellShaped(ck, o);
    assert !IsDecision(o);
    assert Codes(ck, sub.key, tr, o, Row(Plain("denied"))) == [InvalidTransition];
    OneIssue(0, InvalidTransition);
  }

  lemma OneIssue(index: nat, code: Code)
    ensures AddIssues([], index, [code]) == [Issue(index, code)]
  {
    assert AddIssue([], index, code) == [Issue(index, code)];
    assert AddIssues([Issue(index, code)], index, []) == [Issue(index, code)];
  }

  /** An outcome whose stored decision is an approval is acceptable alone. */
  lemma AllowedOutcome(ck: Checks, key: nat, o: Event, prev: Option<Text>, lookup: Text -> Lookup)
    requires Chained(ck, key, o, prev) && IsOutcome(o) && ValidStatus(TextOrEmpty(o, StatusField))
    requires DecisionRef(o) != Plain("") && lookup(DecisionRef(o)) == Row(Plain("allowed"))
    ensures Acceptable(ck, key, [o], prev, lookup)
  {
    assert [o][..0] == [];
    assert LastDecision([o], 0, DecisionRef(o)) == None;
    assert GoodAt(ck, key, [o], prev, lookup, 0);
  }

  /** Two stored decisions of one id: one choice of row reads the denial, another the approval. */
  lemma ChoiceDecides(rows: seq<EventRow>, id: Text)
    requires |rows| == 2 && IsDecisionRow(rows[0], id) && IsDecisionRow(rows[1], id)
    ensures StoredDecision(rows, id, 0) == Row(DecisionValue(rows[0].event))
    ensures LookupIn(rows)(id) == Row(DecisionValue(rows[1].event))
  {
  }

  const FIRST := Submission(Reopened()[..2], None, 0, None)
  const SECOND := Submission([Reopened()[2]], Some(SubmittedHash(Reopened()[1])), 0, None)

  lemma BothDecode()
    ensures Decodes(FIRST) && Decodes(SECOND)
    ensures Acceptable(ChecksFor(0), 0, FIRST.events, None, LookupIn(EMPTY.events))
  {
    var events := Reopened();
    ReopenedIsChained(0);
    assert FIRST.events == [events[0], events[1]];
    TwoDecisions(ChecksFor(0), 0, events[0], events[1], LookupIn(EMPTY.events));
    AcceptableDecodes(ChecksFor(0), FIRST, LookupIn(EMPTY.events));
  }

  /** The tables after the first batch: its two decisions, and the head they end on. */
  lemma FirstIsStored() returns (t: Tables)
    ensures t == Serve(ChecksFor(0), EMPTY, FIRST).0 && t.key == Some(0) && |t.batches| == 1
    ensures FindContent(t.batches, SECOND.events).None? && Head(t.batches) == SECOND.firstPrev
    ensures |t.events| == 2 && t.events[0].event == Reopened()[0] && t.events[1].event == Reopened()[1]
    ensures ChainHead(t.batches, 0) == SECOND.firstPrev
  {
    var ck := ChecksFor(0);
    BothDecode();
    t := Serve(ck, EMPTY, FIRST).0;
    FirstBatchIsTheStream(ck, FIRST);
    var first := ServeExtendsRun(ck, [], 0, FIRST);
    RunTables(ck, [] + first);
    StreamRowsAreStream(t.batches);
    ChainHeadIsHead(t.batches, 0);
  }

  /** Rejected by the row its query happened to read, and acceptable by the row it could have read. */
  ghost predicate RejectedButAcceptable(ck: Checks, s: State, id: nat) {
    && id in s.flights && s.flights[id].phase.Answered? && s.flights[id].phase.answer.Reported?
    && var body, sub := s.flights[id].phase.answer.body, s.flights[id].sub;
      && body.created && body.row < |s.tables.batches| && s.tables.batches[body.row].RejectedBatch?
      && Head(s.tables.batches) == sub.firstPrev
      && Acceptable(ck, sub.key, sub.events, sub.firstPrev, LookupIn(s.tables.events))
  }

  /** The second submission, its query reading row 0, is rejected and stored. */
  lemma SecondIsRejected(t: Tables)
    requires t == Serve(ChecksFor(0), EMPTY, FIRST).0
    ensures var (t', phase) := Ticks(ChecksFor(0), t, SECOND, CheckKey, 0, 8);
      && t' == WithRejection(t, SECOND, [Issue(0, InvalidTransition)])
      && phase == Answered(Reported(Body(|t.batches|, true)))
  {
    var ck, o := ChecksFor(0), Reopened()[2];
    var t0 := FirstIsStored();
    ReopenedIsChained(0);
    ChoiceDecides(t.events, DecisionRef(o));
    DeniedOutcome(ck, t, SECOND, o, 0);
    var p := VerifyTick(ck, t, SECOND, Start(SECOND.firstPrev), 0).progress;
    OneEventIsRejected(ck, t, SECOND, 0, p, [Issue(0, InvalidTransition)]);
  }

  lemma SecondIsAcceptable(t: Tables)
    requires t == Serve(ChecksFor(0), EMPTY, FIRST).0
    ensures Acceptable(ChecksFor(0), 0, SECOND.events, SECOND.firstPrev, LookupIn(t.events))
  {
    var o := Reopened()[2];
    var t0 := FirstIsStored();
    ReopenedIsChained(0);
    ChoiceDecides(t.events, DecisionRef(o));
    AllowedOutcome(ChecksFor(0), 0, o, SECOND.firstPrev, LookupIn(t.events));
  }

  /** With a decision id stored under two values, a submission can be rejected for good although verification
      of the same bytes under the same key would accept it. */
  lemma AmbiguityWithholdsFromSameKey()
    ensures exists actions :: RejectedButAcceptable(ChecksFor(0), Run(ChecksFor(0), INIT, actions), 1)
  {
    var ck := ChecksFor(0);
    BothDecode();
    var t := FirstIsStored();
    var actions := ServeThenTick(ck, FIRST, SECOND, 0, 8);
    SecondIsRejected(t);
    SecondIsAcceptable(t);
    RejectionKeepsHead(t, SECOND, [Issue(0, InvalidTransition)]);
    assert RejectedButAcceptable(ck, Run(ck, INIT, actions), 1);
  }

  /** One request served, then another taken through n statements with this choice of rows. */
  lemma ServeThenTick(ck: Checks, a: Submission, b: Submission, choice: nat, n: nat) returns (actions: seq<Action>)
    requires Decodes(a) && Decodes(b)
    ensures var (t, phase) := Ticks(ck, Serve(ck, EMPTY, a).0, b, CheckKey, choice, n);
            var r := Run(ck, INIT, actions);
            r.tables == t && 1 in r.flights && r.flights[1] == Flight(b, phase)
  {
    var first := ServeExtendsRun(ck, [], 0, a);
    assert [] + first == first;
    var second := TicksExtendRun(ck, first, 1, b, choice, n);
    actions := first + second;
  }

  lemma RejectionKeepsHead(t: Tables, sub: Submission, issues: seq<Issue>)
    ensures Head(WithRejection(t, sub, issues).batches) == Head(t.batches)
  {
    StreamSnoc(t.batches, RejectedBatch(sub.events, sub.firstPrev, issues));
  }
}
