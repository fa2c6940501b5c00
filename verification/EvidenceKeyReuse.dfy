/**
 Reusing an Idempotency-Key with different content: docs/architecture/igris-connected-evidence-slice.md
 promises a conflict, and two overlapping requests to igris-overture/api/routes_evidence.go escape it.
 */
module EvidenceKeyReuse {
  import opened Options
  import opened EvidenceEvents
  import opened EvidenceVerify
  import opened EvidenceTables
  import opened EvidenceProtocol
  import opened EvidenceStore

  const ANY_CHECKS := Checks(Plain("k"), _ => true, _ => true, (_, _, _) => true)

  /** An event with a well-formed hash and no schema version: decodes, and is rejected. */
  function Unversioned(name: string): Event {
    map[EventHashField := Str(Digest(map[Other(name) := Null]))]
  }

  function Keyed(name: string): Submission {
    Submission([Unversioned(name)], None, 0, Some("K"))
  }

  /** From the content check on, a batch of one such event is stored as rejected and reported. */
  lemma UnversionedIsReported(t: Tables, name: string)
    requires forall i :: 0 <= i < |t.batches| ==>
      t.batches[i].RejectedBatch? && t.batches[i].content != [Unversioned(name)]
    ensures var (t', phase) := Ticks(ANY_CHECKS, t, Keyed(name), CheckContent, 0, 5);
            && phase == Answered(Reported(Body(|t.batches|, true)))
            && t'.batches == t.batches + [RejectedBatch([Unversioned(name)], None, [Issue(0, UnknownSchema)])]
  {
    var sub := Keyed(name);
    UnversionedPasses(t, name);
    RejectedIsReported(t, sub, [Issue(0, UnknownSchema)]);
    UnversionedIsRejected(t, name);
    TicksThree(t, sub, CheckHead, Verifying(Start(None)), Persisting(Rejected([Issue(0, UnknownSchema)])));
  }

  /** Three statements in a row that leave the tables alone. */
  lemma TicksThree(t: Tables, sub: Submission, a: Phase, b: Phase, c: Phase)
    requires TickOne(ANY_CHECKS, t, sub, CheckContent, 0) == (t, a)
    requires TickOne(ANY_CHECKS, t, sub, a, 0) == (t, b)
    requires TickOne(ANY_CHECKS, t, sub, b, 0) == (t, c)
    ensures Ticks(ANY_CHECKS, t, sub, CheckContent, 0, 5) == Ticks(ANY_CHECKS, t, sub, c, 0, 2)
  {
    assert Ticks(ANY_CHECKS, t, sub, b, 0, 3) == Ticks(ANY_CHECKS, t, sub, c, 0, 2);
    assert Ticks(ANY_CHECKS, t, sub, a, 0, 4) == Ticks(ANY_CHECKS, t, sub, b, 0, 3);
  }

  /** New content that starts at genesis gets past the lookups of a table without verified batches. */
  lemma UnversionedPasses(t: Tables, name: string)
    requires forall i :: 0 <= i < |t.batches| ==>
      t.batches[i].RejectedBatch? && t.batches[i].content != [Unversioned(name)]
    ensures FindContent(t.batches, Keyed(name).events).None? && ChainHead(t.batches, 0) == None
  {
  }

  lemma UnversionedIsRejected(t: Tables, name: string)
    ensures VerifyTick(ANY_CHECKS, t, Keyed(name), Start(None), 0) == Persisting(Rejected([Issue(0, UnknownSchema)]))
  {
    assert ShapeIssue(ANY_CHECKS, Keyed(name).events[0]) == Some(UnknownSchema);
    assert AddIssue([], 0, UnknownSchema) == [Issue(0, UnknownSchema)];
  }

  /** New content with a rejected verdict is stored and reported in two more statements. */
  lemma RejectedIsReported(t: Tables, sub: Submission, issues: seq<Issue>)
    requires FindContent(t.batches, sub.events).None?
    ensures var (t', phase) := Ticks(ANY_CHECKS, t, sub, Persisting(Rejected(issues)), 0, 2);
            && phase == Answered(Reported(Body(|t.batches|, true)))
            && t'.batches == t.batches + [RejectedBatch(sub.events, sub.firstPrev, issues)]
  {
    var body := Body(|t.batches|, true);
    var t' := Persist(t, sub, Rejected(issues)).0;
    var last := (RecordReplay(t', sub, body), Answered(Reported(body)));
    assert Ticks(ANY_CHECKS, t', sub, Responding(body), 0, 1) == last;
  }

  const BOTH_PAST_KEY_CHECK :=
    [Submit(0, Keyed("a")), Submit(1, Keyed("b")), Tick(0, 0), Tick(0, 0), Tick(1, 0), Tick(1, 0)]

  lemma BothPassTheKeyCheck()
    ensures Run(ANY_CHECKS, INIT, BOTH_PAST_KEY_CHECK)
         == State(EMPTY, map[0 := Flight(Keyed("a"), CheckContent), 1 := Flight(Keyed("b"), CheckContent)])
  {
    var acts := BOTH_PAST_KEY_CHECK;
    var a, b := Keyed("a"), Keyed("b");
    assert Decodes(a) && Decodes(b);
    assert acts[..6] == acts && acts[..6][..5] == acts[..5] && acts[..5][..4] == acts[..4]
        && acts[..4][..3] == acts[..3] && acts[..3][..2] == acts[..2]
        && acts[..2][..1] == acts[..1] && acts[..1][..0] == [];
    assert Run(ANY_CHECKS, INIT, acts[..1]) == State(EMPTY, map[0 := Flight(a, CheckKey)]);
    assert Run(ANY_CHECKS, INIT, acts[..2]) == State(EMPTY, map[0 := Flight(a, CheckKey), 1 := Flight(b, CheckKey)]);
    assert Run(ANY_CHECKS, INIT, acts[..3]) == State(EMPTY, map[0 := Flight(a, CheckReplay), 1 := Flight(b, CheckKey)]);
    assert Run(ANY_CHECKS, INIT, acts[..4])
        == State(EMPTY, map[0 := Flight(a, CheckContent), 1 := Flight(b, CheckKey)]);
    assert Run(ANY_CHECKS, INIT, acts[..5])
        == State(EMPTY, map[0 := Flight(a, CheckContent), 1 := Flight(b, CheckReplay)]);
  }

  /** The same as a run: five ticks of that submission, the others untouched. */
  lemma UnversionedRun(s: State, id: nat, name: string)
    requires id in s.flights && s.flights[id] == Flight(Keyed(name), CheckContent)
    requires forall i :: 0 <= i < |s.tables.batches| ==>
      s.tables.batches[i].RejectedBatch? && s.tables.batches[i].content != [Unversioned(name)]
    ensures var r := Run(ANY_CHECKS, s, seq(5, _ => Tick(id, 0)));
            && r.flights == s.flights[id := Flight(Keyed(name), Answered(Reported(Body(|s.tables.batches|, true))))]
            && r.tables.batches
               == s.tables.batches + [RejectedBatch([Unversioned(name)], None, [Issue(0, UnknownSchema)])]
  {
    UnversionedIsReported(s.tables, name);
    TicksAreARun(ANY_CHECKS, s, id, 0, 5);
  }

  lemma KeyedDiffer()
    ensures Unversioned("a") != Unversioned("b")
  {
    assert Other("a") in Unversioned("a")[EventHashField].text.payload;
    assert Other("a") !in Unversioned("b")[EventHashField].text.payload;
  }

  /** Two different batches under one Idempotency-Key, both told they were created. */
  ghost predicate BothCreated(s: State) {
    && s.flights.Keys == {0, 1}
    && s.flights[0] == Flight(Keyed("a"), Answered(Reported(Body(0, true))))
    && s.flights[1] == Flight(Keyed("b"), Answered(Reported(Body(1, true))))
  }

  /** The documented rule "same key, different fingerprint is a conflict" does not hold for
      overlapping requests. */
  lemma OverlappingReuseIsMissed()
    ensures exists actions :: BothCreated(Run(ANY_CHECKS, INIT, actions))
    ensures Keyed("a").idempotencyKey == Keyed("b").idempotencyKey && Keyed("a").events != Keyed("b").events
  {
    BothPassTheKeyCheck();
    KeyedDiffer();
    var start := BOTH_PAST_KEY_CHECK;
    var s := Run(ANY_CHECKS, INIT, start);
    UnversionedRun(s, 0, "a");
    var s1 := Run(ANY_CHECKS, s, seq(5, _ => Tick(0, 0)));
    UnversionedRun(s1, 1, "b");
    RunCompose(ANY_CHECKS, INIT, start, seq(5, _ => Tick(0, 0)));
    RunCompose(ANY_CHECKS, INIT, start + seq(5, _ => Tick(0, 0)), seq(5, _ => Tick(1, 0)));
    assert BothCreated(Run(ANY_CHECKS, INIT, start + seq(5, _ => Tick(0, 0)) + seq(5, _ => Tick(1, 0))));
  }
}
