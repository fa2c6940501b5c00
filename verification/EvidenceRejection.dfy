/**
 A stored rejection answers every later submission of the same bytes (igris-overture/api/routes_evidence.go).
 When it is final: if the stream still ends where the batch starts and no stored decision id has two values,
 verifying the submission that stored it again gives exactly the stored issues, although the lookups of the
 first verification were made one by one against tables that others were changing.
 */
module EvidenceRejection {
  import opened Options
  import opened EvidenceEvents
  import opened EvidenceVerify
  import opened EvidenceAcceptance
  import opened EvidenceTables
  import opened EvidenceChain
  import opened EvidenceProtocol
  import opened EvidenceStore

  /** Two decisions with one id and different values. */
  predicate Contradict(a: Event, b: Event) {
    IsDecision(a) && IsDecision(b) && EventId(a) == EventId(b) && DecisionValue(a) != DecisionValue(b)
  }

  /** No decision id is stored with two values. */
  predicate Unambiguous(rows: seq<EventRow>) {
    forall i, j :: 0 <= i < |rows| && 0 <= j < |rows| ==> !Contradict(rows[i].event, rows[j].event)
  }

  /** Then it does not matter which row the query's LIMIT 1 picks. */
  lemma LookupIgnoresChoice(rows: seq<EventRow>, id: Text, choice: nat)
    requires Unambiguous(rows)
    ensures StoredDecision(rows, id, choice) == LookupIn(rows)(id)
  {
    var row := LastDecisionRow(rows, id);
    if choice < |rows| && IsDecisionRow(rows[choice], id) {
      assert !Contradict(rows[choice].event, rows[row.value].event);
    }
  }

  /** The verdict the tables give now. */
  function VerdictNow(ck: Checks, t: Tables, sub: Submission): Verdict {
    Verify(ck, sub.key, sub.events, sub.firstPrev, LookupIn(t.events))
  }

  /** The row a flight created, told or about to be told. */
  function OwnRow(phase: Phase): Option<nat> {
    match phase
    case Responding(body) => if body.created then Some(body.row) else None
    case Answered(Reported(body)) => if body.created then Some(body.row) else None
    case _ => None
  }

  /** Past the head check. */
  predicate PastHead(phase: Phase) { phase.Verifying? || phase.Persisting? || OwnRow(phase).Some? }

  /** What the flight has found so far is what verification against these tables finds. */
  ghost predicate Agrees(ck: Checks, t: Tables, f: Flight) {
    match f.phase
    case Verifying(p) =>
      VerifyFrom(ck, f.sub.key, f.sub.events, p, LookupIn(t.events)) == VerdictNow(ck, t, f.sub)
    case Persisting(verdict) => verdict == VerdictNow(ck, t, f.sub)
    case _ =>
      var row := OwnRow(f.phase);
      row.Some? ==>
        row.value < |t.batches|
        && (t.batches[row.value].RejectedBatch? ==> VerdictNow(ck, t, f.sub) == Rejected(t.batches[row.value].issues))
  }

  /** The stream still ends where the submission starts. */
  ghost predicate Settled(t: Tables, sub: Submission) {
    Head(t.batches) == sub.firstPrev && Unambiguous(t.events)
  }

  ghost predicate FlightFaithful(ck: Checks, t: Tables, f: Flight) {
    PastHead(f.phase) ==>
      && StartsAtSomeHead(t.batches, f.sub.firstPrev)
      && (OwnRow(f.phase).Some? ==> OwnRow(f.phase).value < |t.batches|)
      && (Settled(t, f.sub) ==> Agrees(ck, t, f))
  }

  // ---- What other submissions commit ----

  lemma PrefixBetween<T>(a: seq<T>, b: seq<T>, c: seq<T>)
    requires a <= b <= c && |a| == |c|
    ensures b == c
  {
  }

  /** A head that is back where it was has never moved. */
  lemma HeadUnmoved(batches: seq<Batch>, m: nat, n: nat)
    requires ChainInv(batches) && m <= n <= |batches| && Head(batches[..m]) == Head(batches)
    ensures Head(batches[..n]) == Head(batches) && Stream(batches[..n]) == Stream(batches)
  {
    assert batches[..|batches|] == batches && batches[..n][..m] == batches[..m];
    assert |Stream(batches[..m])| == |Stream(batches)| by {
      HeadHeight(batches, m);
      HeadHeight(batches, |batches|);
    }
    StreamGrows(batches, n);
    StreamGrows(batches[..n], m);
    PrefixBetween(Stream(batches[..m]), Stream(batches[..n]), Stream(batches));
  }

  lemma UnmovedTables(ck: Checks, t: Tables, t': Tables, firstPrev: Option<Text>)
    requires TablesInv(ck, t) && TablesInv(ck, t') && t.batches <= t'.batches && t.events <= t'.events
    requires StartsAtSomeHead(t.batches, firstPrev) && Head(t'.batches) == firstPrev
    ensures Head(t.batches) == firstPrev && t'.events == t.events
  {
    var m :| 0 <= m <= |t.batches| && firstPrev == Head(t.batches[..m]);
    assert t'.batches[..|t.batches|] == t.batches && t'.batches[..m] == t.batches[..m];
    HeadUnmoved(t'.batches, m, |t.batches|);
    StreamRowsAreStream(t.batches);
    StreamRowsAreStream(t'.batches);
  }

  lemma OtherKeepsFaithful(ck: Checks, t: Tables, t': Tables, f: Flight)
    requires TablesInv(ck, t) && TablesInv(ck, t') && t.batches <= t'.batches && t.events <= t'.events
    requires FlightFaithful(ck, t, f)
    ensures FlightFaithful(ck, t', f)
  {
    if PastHead(f.phase) {
      StartsAtSomeHeadStable(t.batches, t'.batches, f.sub.firstPrev);
      if Settled(t', f.sub) {
        UnmovedTables(ck, t, t', f.sub.firstPrev);
      }
    }
  }

  // ---- What a submission does itself ----

  lemma VerifyTickAgrees(ck: Checks, t: Tables, sub: Submission, p: Progress, choice: nat)
    requires Unambiguous(t.events) && Agrees(ck, t, Flight(sub, Verifying(p)))
    ensures Agrees(ck, t, Flight(sub, VerifyTick(ck, t, sub, p, choice)))
  {
    if p.track.index < |sub.events| {
      LookupIgnoresChoice(t.events, DecisionRef(sub.events[p.track.index]), choice);
    }
  }

  /** A new rejected row carries the verdict's issues, and storing it leaves what verification reads as it was. */
  lemma RejectedInsert(t: Tables, sub: Submission, verdict: Verdict)
    ensures var (t', outcome) := Persist(t, sub, verdict);
      && t.batches <= t'.batches
      && (outcome.Inserted? ==> outcome.row < |t'.batches|)
      && (outcome.Inserted? && t'.batches[outcome.row].RejectedBatch? ==>
            && verdict == Rejected(t'.batches[outcome.row].issues)
            && t'.events == t.events && Stream(t'.batches) == Stream(t.batches))
  {
    if verdict.Rejected? {
      StreamSnoc(t.batches, RejectedBatch(sub.events, sub.firstPrev, verdict.issues));
    }
  }

  lemma PersistTickKeeps(ck: Checks, t: Tables, sub: Submission, verdict: Verdict)
    requires FlightFaithful(ck, t, Flight(sub, Persisting(verdict)))
    ensures var (t', outcome) := Persist(t, sub, verdict); FlightFaithful(ck, t', Flight(sub, AfterPersist(outcome)))
  {
    var (t', outcome) := Persist(t, sub, verdict);
    RejectedInsert(t, sub, verdict);
    StoredKeeps(ck, t, t', sub, verdict, outcome);
  }

  lemma StoredKeeps(ck: Checks, t: Tables, t': Tables, sub: Submission, verdict: Verdict, outcome: Outcome)
    requires FlightFaithful(ck, t, Flight(sub, Persisting(verdict))) && t.batches <= t'.batches
    requires outcome.Inserted? ==> outcome.row < |t'.batches|
    requires outcome.Inserted? && t'.batches[outcome.row].RejectedBatch? ==>
      && verdict == Rejected(t'.batches[outcome.row].issues)
      && t'.events == t.events && Stream(t'.batches) == Stream(t.batches)
    ensures FlightFaithful(ck, t', Flight(sub, AfterPersist(outcome)))
  {
    StartsAtSomeHeadStable(t.batches, t'.batches, sub.firstPrev);
  }

  lemma HeadTickKeeps(ck: Checks, t: Tables, sub: Submission, choice: nat)
    requires TablesInv(ck, t)
    ensures FlightFaithful(ck, t, Flight(sub, TickOne(ck, t, sub, CheckHead, choice).1))
  {
    ChainHeadIsHead(t.batches, choice);
    assert t.batches[..|t.batches|] == t.batches;
  }

  lemma VerifyTickKeeps(ck: Checks, t: Tables, sub: Submission, p: Progress, choice: nat)
    requires FlightFaithful(ck, t, Flight(sub, Verifying(p)))
    ensures FlightFaithful(ck, t, Flight(sub, VerifyTick(ck, t, sub, p, choice)))
  {
    assert VerifyTick(ck, t, sub, p, choice).Verifying? || VerifyTick(ck, t, sub, p, choice).Persisting?;
    if Settled(t, sub) {
      VerifyTickAgrees(ck, t, sub, p, choice);
    }
  }

  /** The other statements leave batches and events alone, and only a response leads on from them. */
  lemma OtherTickKeeps(ck: Checks, t: Tables, sub: Submission, phase: Phase, choice: nat)
    requires FlightFaithful(ck, t, Flight(sub, phase))
    requires !phase.CheckHead? && !phase.Verifying? && !phase.Persisting?
    ensures var (t', next) := TickOne(ck, t, sub, phase, choice); FlightFaithful(ck, t', Flight(sub, next))
  {
    var (t', next) := TickOne(ck, t, sub, phase, choice);
    assert t'.batches == t.batches && t'.events == t.events && (PastHead(next) ==> OwnRow(next) == OwnRow(phase));
  }

  lemma OwnTickKeeps(ck: Checks, t: Tables, sub: Submission, phase: Phase, choice: nat)
    requires TablesInv(ck, t) && FlightFaithful(ck, t, Flight(sub, phase))
    ensures var (t', next) := TickOne(ck, t, sub, phase, choice); FlightFaithful(ck, t', Flight(sub, next))
  {
    if phase.CheckHead? {
      HeadTickKeeps(ck, t, sub, choice);
    } else if phase.Verifying? {
      VerifyTickKeeps(ck, t, sub, phase.progress, choice);
    } else if phase.Persisting? {
      PersistTickKeeps(ck, t, sub, phase.verdict);
    } else {
      OtherTickKeeps(ck, t, sub, phase, choice);
    }
  }

  // ---- Every run ----

  ghost predicate AllFaithful(ck: Checks, s: State) {
    forall id :: id in s.flights ==> FlightFaithful(ck, s.tables, s.flights[id])
  }

  lemma TickKeepsFaithful(ck: Checks, s: State, id: nat, choice: nat)
    requires AllFaithful(ck, s) && id in s.flights && TablesInv(ck, s.tables)
    requires TablesInv(ck, Step(ck, s, Tick(id, choice)).tables)
    ensures AllFaithful(ck, Step(ck, s, Tick(id, choice)))
  {
    var f := s.flights[id];
    var s' := Step(ck, s, Tick(id, choice));
    OwnTickKeeps(ck, s.tables, f.sub, f.phase, choice);
    TickExtends(ck, s.tables, f.sub, f.phase, choice);
    forall other | other in s'.flights && other != id
      ensures FlightFaithful(ck, s'.tables, s'.flights[other])
    {
      OtherKeepsFaithful(ck, s.tables, s'.tables, s.flights[other]);
    }
  }

  lemma {:induction false} RunKeepsFaithful(ck: Checks, actions: seq<Action>)
    ensures AllFaithful(ck, Run(ck, INIT, actions))
    decreases |actions|
  {
    if actions != [] {
      var n := |actions| - 1;
      var s, a := Run(ck, INIT, actions[..n]), actions[n];
      RunKeepsFaithful(ck, actions[..n]);
      RunTables(ck, actions[..n]);
      RunTables(ck, actions);
      if a.Tick? && a.id in s.flights {
        TickKeepsFaithful(ck, s, a.id, a.choice);
      }
    }
  }

  lemma RunTables(ck: Checks, actions: seq<Action>)
    ensures TablesInv(ck, Run(ck, INIT, actions).tables)
  {
    RunKeepsInv(ck, actions);
  }

  // ---- Rows, also of requests that are gone ----

  /** The submission whose insert a step commits, if it commits one. */
  function StoredBy(ck: Checks, s: State, a: Action): seq<Submission> {
    if a.Tick? && a.id in s.flights && |Step(ck, s, a).tables.batches| > |s.tables.batches|
    then [s.flights[a.id].sub] else []
  }

  /** For every batch row of a run, the submission that stored it. */
  function Storers(ck: Checks, actions: seq<Action>): seq<Submission> {
    if actions == [] then []
    else
      var n := |actions| - 1;
      Storers(ck, actions[..n]) + StoredBy(ck, Run(ck, INIT, actions[..n]), actions[n])
  }

  /** The row holds this submission, and a rejection is what verifying it now would give. */
  ghost predicate RowFinal(ck: Checks, t: Tables, sub: Submission, b: Batch) {
    && b.content == sub.events && b.firstPrev == sub.firstPrev
    && (b.RejectedBatch? ==>
          && StartsAtSomeHead(t.batches, sub.firstPrev)
          && (Settled(t, sub) ==> VerdictNow(ck, t, sub) == Rejected(b.issues)))
  }

  ghost predicate RowsFinal(ck: Checks, t: Tables, subs: seq<Submission>) {
    |subs| == |t.batches| && forall i :: 0 <= i < |subs| ==> RowFinal(ck, t, subs[i], t.batches[i])
  }

  lemma RowStaysFinal(ck: Checks, t: Tables, t': Tables, sub: Submission, b: Batch)
    requires TablesInv(ck, t) && TablesInv(ck, t') && t.batches <= t'.batches && t.events <= t'.events
    requires RowFinal(ck, t, sub, b)
    ensures RowFinal(ck, t', sub, b)
  {
    if b.RejectedBatch? {
      StartsAtSomeHeadStable(t.batches, t'.batches, sub.firstPrev);
      if Settled(t', sub) {
        UnmovedTables(ck, t, t', sub.firstPrev);
      }
    }
  }

  /** A statement adds no row, or it is an insert that adds the submission's own. */
  lemma TickRows(ck: Checks, t: Tables, sub: Submission, phase: Phase, choice: nat)
    ensures var t' := TickOne(ck, t, sub, phase, choice).0;
      |t'.batches| > |t.batches| ==>
        && phase.Persisting? && |t'.batches| == |t.batches| + 1
        && t'.batches[|t.batches|].content == sub.events && t'.batches[|t.batches|].firstPrev == sub.firstPrev
        && (t'.batches[|t.batches|].RejectedBatch? ==>
              phase.verdict == Rejected(t'.batches[|t.batches|].issues)
              && t'.events == t.events && Stream(t'.batches) == Stream(t.batches))
  {
    if phase.Persisting? {
      RejectedInsert(t, sub, phase.verdict);
    }
  }

  lemma NewRowIsFinal(ck: Checks, t: Tables, t': Tables, sub: Submission, verdict: Verdict, b: Batch)
    requires FlightFaithful(ck, t, Flight(sub, Persisting(verdict))) && t.batches <= t'.batches
    requires b.content == sub.events && b.firstPrev == sub.firstPrev
    requires b.RejectedBatch? ==>
      verdict == Rejected(b.issues) && t'.events == t.events && Stream(t'.batches) == Stream(t.batches)
    ensures RowFinal(ck, t', sub, b)
  {
    StartsAtSomeHeadStable(t.batches, t'.batches, sub.firstPrev);
  }

  lemma OldRowsStayFinal(ck: Checks, t: Tables, t': Tables, subs: seq<Submission>)
    requires TablesInv(ck, t) && TablesInv(ck, t') && t.batches <= t'.batches && t.events <= t'.events
    requires RowsFinal(ck, t, subs)
    ensures forall i :: 0 <= i < |subs| ==> RowFinal(ck, t', subs[i], t'.batches[i])
  {
    forall i | 0 <= i < |subs| ensures RowFinal(ck, t', subs[i], t'.batches[i]) {
      RowStaysFinal(ck, t, t', subs[i], t.batches[i]);
    }
  }

  /** The insert of one submission. */
  lemma InsertKeepsRows(ck: Checks, t: Tables, f: Flight, choice: nat, subs: seq<Submission>)
    requires TablesInv(ck, t) && FlightFaithful(ck, t, f) && RowsFinal(ck, t, subs)
    requires var t' := TickOne(ck, t, f.sub, f.phase, choice).0;
      TablesInv(ck, t') && |t'.batches| > |t.batches|
    ensures RowsFinal(ck, TickOne(ck, t, f.sub, f.phase, choice).0, subs + [f.sub])
  {
    var t' := TickOne(ck, t, f.sub, f.phase, choice).0;
    TickExtends(ck, t, f.sub, f.phase, choice);
    TickRows(ck, t, f.sub, f.phase, choice);
    OldRowsStayFinal(ck, t, t', subs);
    assert f == Flight(f.sub, Persisting(f.phase.verdict));
    NewRowIsFinal(ck, t, t', f.sub, f.phase.verdict, t'.batches[|t.batches|]);
    RowsFinalSnoc(ck, t', subs, f.sub);
  }

  lemma RowsFinalSnoc(ck: Checks, t: Tables, subs: seq<Submission>, sub: Submission)
    requires |t.batches| == |subs| + 1 && RowFinal(ck, t, sub, t.batches[|subs|])
    requires forall i :: 0 <= i < |subs| ==> RowFinal(ck, t, subs[i], t.batches[i])
    ensures RowsFinal(ck, t, subs + [sub])
  {
  }

  lemma TickKeepsRows(ck: Checks, s: State, id: nat, choice: nat, subs: seq<Submission>)
    requires id in s.flights && FlightFaithful(ck, s.tables, s.flights[id]) && RowsFinal(ck, s.tables, subs)
    requires TablesInv(ck, s.tables) && TablesInv(ck, Step(ck, s, Tick(id, choice)).tables)
    ensures RowsFinal(ck, Step(ck, s, Tick(id, choice)).tables, subs + StoredBy(ck, s, Tick(id, choice)))
  {
    var f, t, t' := s.flights[id], s.tables, Step(ck, s, Tick(id, choice)).tables;
    if |t'.batches| > |t.batches| {
      InsertKeepsRows(ck, t, f, choice, subs);
    } else {
      TickExtends(ck, t, f.sub, f.phase, choice);
      OldRowsStayFinal(ck, t, t', subs);
      assert subs + StoredBy(ck, s, Tick(id, choice)) == subs;
    }
  }

  lemma {:induction false} RunKeepsRows(ck: Checks, actions: seq<Action>)
    ensures RowsFinal(ck, Run(ck, INIT, actions).tables, Storers(ck, actions))
    decreases |actions|
  {
    if actions != [] {
      var n := |actions| - 1;
      var s, a := Run(ck, INIT, actions[..n]), actions[n];
      RunKeepsRows(ck, actions[..n]);
      RunKeepsFaithful(ck, actions[..n]);
      RunTables(ck, actions[..n]);
      RunTables(ck, actions);
      if a.Tick? && a.id in s.flights {
        TickKeepsRows(ck, s, a.id, a.choice, Storers(ck, actions[..n]));
      } else {
        assert Storers(ck, actions) == Storers(ck, actions[..n]);
      }
    }
  }

  /** In every reachable state every stored rejection is exactly what verifying the submission that stored it,
      whether or not that request still exists, gives now, as long as the stream ends where the batch starts and
      no decision id is stored with two values. */
  lemma StoredRejectionIsFinal(ck: Checks, actions: seq<Action>, row: nat)
    requires var t := Run(ck, INIT, actions).tables;
      && row < |t.batches| && t.batches[row].RejectedBatch?
      && Head(t.batches) == t.batches[row].firstPrev && Unambiguous(t.events)
    ensures var t, subs := Run(ck, INIT, actions).tables, Storers(ck, actions);
      && |subs| == |t.batches| && subs[row].events == t.batches[row].content
      && subs[row].firstPrev == t.batches[row].firstPrev
      && VerdictNow(ck, t, subs[row]) == Rejected(t.batches[row].issues)
  {
    RunKeepsRows(ck, actions);
    var t, subs := Run(ck, INIT, actions).tables, Storers(ck, actions);
    assert RowFinal(ck, t, subs[row], t.batches[row]);
  }
}
