/**
 "A denial is terminal" (igris-overture/api/evidence_verify.go): verification looks at the latest decision of an
 id, in the batch or in the row a query happens to return, so a later approval under the same id reopens it.
 */
module EvidenceDenial {
  import opened Options
  import opened EvidenceEvents
  import opened EvidenceVerify
  import opened EvidenceAcceptance
  import opened EvidenceTables
  import opened EvidenceChain
  import opened EvidenceProtocol
  import opened EvidenceStore
  import opened EvidenceRejection
  import opened EvidenceSamples

  /** Among the first n events, a decision with this id is a denial. */
  ghost predicate DeniedBefore(events: seq<Event>, n: nat, id: Text)
    requires n <= |events|
  {
    exists j :: 0 <= j < n && IsDecision(events[j]) && EventId(events[j]) == id
            && DecisionValue(events[j]) == Plain("denied")
  }

  /** Among the first n events, decisions with this id have two values. */
  ghost predicate TwoValuesBefore(events: seq<Event>, n: nat, id: Text)
    requires n <= |events|
  {
    exists j, k :: 0 <= j < n && 0 <= k < n && EventId(events[j]) == id && Contradict(events[j], events[k])
  }

  /** In every stream a run produces, an outcome follows a denial of its decision exactly when that decision id
      occurs with two values before it. */
  lemma OutcomeFollowsDenialIff(ck: Checks, actions: seq<Action>, i: nat)
    requires var stream := Stream(Run(ck, INIT, actions).tables.batches); i < |stream| && IsOutcome(stream[i])
    ensures var stream := Stream(Run(ck, INIT, actions).tables.batches);
      DeniedBefore(stream, i, DecisionRef(stream[i])) <==> TwoValuesBefore(stream, i, DecisionRef(stream[i]))
  {
    RunTables(ck, actions);
    var t := Run(ck, INIT, actions).tables;
    DenialMeansTwoValues(ck, t.key.value, Stream(t.batches), i);
  }

  lemma DenialMeansTwoValues(ck: Checks, key: nat, events: seq<Event>, i: nat)
    requires i < |events| && AllSound(ck, key, events) && AllowedBefore(events, i, DecisionRef(events[i]))
    ensures DeniedBefore(events, i, DecisionRef(events[i])) <==> TwoValuesBefore(events, i, DecisionRef(events[i]))
  {
    var id := DecisionRef(events[i]);
    var k :| 0 <= k < i && IsDecision(events[k]) && EventId(events[k]) == id
            && DecisionValue(events[k]) == Plain("allowed");
    if DeniedBefore(events, i, id) {
      var j :| 0 <= j < i && IsDecision(events[j]) && EventId(events[j]) == id
              && DecisionValue(events[j]) == Plain("denied");
      assert Contradict(events[j], events[k]);
    }
    if TwoValuesBefore(events, i, id) {
      var j, l :| 0 <= j < i && 0 <= l < i && EventId(events[j]) == id && Contradict(events[j], events[l]);
      assert Sound(ck, key, events[j]) && Sound(ck, key, events[l]);
    }
  }

  ghost predicate OutcomeAfterDenial(events: seq<Event>) {
    exists i :: 0 <= i < |events| && IsOutcome(events[i]) && DeniedBefore(events, i, DecisionRef(events[i]))
  }

  lemma ReopenedHasBoth()
    ensures OutcomeAfterDenial(Reopened())
  {
    ReopenedIsAcceptable(0, _ => NoRow);
    assert DeniedBefore(Reopened(), 2, DecisionRef(Reopened()[2]));
  }

  /** A new acceptable batch at genesis becomes the stream. */
  lemma FirstBatchIsTheStream(ck: Checks, sub: Submission)
    requires Decodes(sub) && sub.firstPrev.None? && sub.idempotencyKey.None?
    requires Acceptable(ck, sub.key, sub.events, None, LookupIn(EMPTY.events))
    ensures var t := Serve(ck, EMPTY, sub).0;
      && Stream(t.batches) == sub.events && |t.batches| == 1 && t.batches[0].content == sub.events
      && t.key == Some(sub.key)
  {
    RunTables(ck, []);
    ServeMeans(ck, EMPTY, sub);
    var batches := Serve(ck, EMPTY, sub).0.batches;
    StreamSnoc([], batches[0]);
    assert [] + [batches[0]] == batches;
  }

  /** What verification accepts from genesis also decodes. */
  lemma AcceptableDecodes(ck: Checks, sub: Submission, lookup: Text -> Lookup)
    requires Acceptable(ck, sub.key, sub.events, sub.firstPrev, lookup)
    requires sub.firstPrev.None? && 0 < |sub.events| <= MAX_EVENTS
    ensures Decodes(sub)
  {
    forall i | 0 <= i < |sub.events| ensures HashShaped(SubmittedHash(sub.events[i])) {
      assert GoodAt(ck, sub.key, sub.events, sub.firstPrev, lookup, i);
    }
    assert GoodAt(ck, sub.key, sub.events, sub.firstPrev, lookup, 0) && sub.events[..0] == [];
  }

  /** Such a batch can be the whole stream of a run. */
  lemma FirstBatchRuns(ck: Checks, sub: Submission) returns (actions: seq<Action>)
    requires sub.firstPrev.None? && sub.idempotencyKey.None? && 0 < |sub.events| <= MAX_EVENTS
    requires Acceptable(ck, sub.key, sub.events, None, LookupIn(EMPTY.events))
    ensures Stream(Run(ck, INIT, actions).tables.batches) == sub.events
  {
    AcceptableDecodes(ck, sub, LookupIn(EMPTY.events));
    FirstBatchIsTheStream(ck, sub);
    actions := ServeExtendsRun(ck, [], 0, sub);
    assert [] + actions == actions;
  }

  /** A run whose verified stream has an outcome after a denial of its own decision. */
  lemma DeniedDecisionCanSucceed()
    ensures exists actions :: OutcomeAfterDenial(Stream(Run(ChecksFor(0), INIT, actions).tables.batches))
  {
    ReopenedIsAcceptable(0, LookupIn(EMPTY.events));
    ReopenedHasBoth();
    var actions := FirstBatchRuns(ChecksFor(0), Submission(Reopened(), None, 0, None));
    assert OutcomeAfterDenial(Stream(Run(ChecksFor(0), INIT, actions).tables.batches));
  }
}
