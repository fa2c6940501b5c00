/**
 The evidence tables as the mutable object the handler works on, and the handler run by one
 request alone (igris-overture/api/evidence_store.go, routes_evidence.go).
 */
module EvidenceStore {
  import opened Options
  import opened EvidenceEvents
  import opened EvidenceVerify
  import opened EvidenceAcceptance
  import opened EvidenceTables
  import opened EvidenceChain
  import opened EvidenceProtocol

  /** The stored-decision query of the handler against fixed tables. */
  function LookupIn(rows: seq<EventRow>): Text -> Lookup {
    id => StoredDecision(rows, id, |rows|)
  }

  /** The insert transaction for a verdict and the answer that follows. */
  function Conclude(t: Tables, sub: Submission, verdict: Verdict): (Tables, Answer) {
    var (t', outcome) := Persist(t, sub, verdict);
    match AfterPersist(outcome)
    case Responding(body) => (RecordReplay(t', sub, body), Reported(body))
    case Answered(answer) => (t', answer)
    case _ => (t', Mismatch(ChainHead(t'.batches, |t'.batches|)))
  }

  /** The second half of Serve: the head comparison and everything after it. */
  function ServeNew(ck: Checks, t: Tables, sub: Submission): (Tables, Answer) {
    var expected := ChainHead(t.batches, |t.batches|);
    if sub.firstPrev != expected then (t, Mismatch(expected))
    else Conclude(t, sub, Verify(ck, sub.key, sub.events, sub.firstPrev, LookupIn(t.events)))
  }

  /** handleEvidenceBatchSubmit after decoding, with nothing else running. */
  function Serve(ck: Checks, t: Tables, sub: Submission): (Tables, Answer) {
    if t.key.Some? && t.key.value != sub.key then (t, KeyConflict)
    else
      var replay := ReplayCheck(t, sub);
      if replay.Answered? then (t, replay.answer)
      else
        var row := FindContent(t.batches, sub.events);
        if row.Some? then (RecordReplay(t, sub, Body(row.value, false)), Reported(Body(row.value, false)))
        else ServeNew(ck, t, sub)
  }

  // ---- The handler alone is a run of the protocol ----

  /** n consecutive statements of one submission, nothing in between. */
  function Ticks(ck: Checks, t: Tables, sub: Submission, phase: Phase, choice: nat, n: nat): (Tables, Phase)
    decreases n
  {
    if n == 0 then (t, phase)
    else
      var (t', phase') := TickOne(ck, t, sub, phase, choice);
      Ticks(ck, t', sub, phase', choice, n - 1)
  }

  lemma {:induction false} TicksCompose(
    ck: Checks, t: Tables, sub: Submission, phase: Phase, choice: nat, m: nat, n: nat)
    ensures var (t', phase') := Ticks(ck, t, sub, phase, choice, m);
            Ticks(ck, t, sub, phase, choice, m + n) == Ticks(ck, t', sub, phase', choice, n)
    decreases m
  {
    if m > 0 {
      var (t', phase') := TickOne(ck, t, sub, phase, choice);
      TicksCompose(ck, t', sub, phase', choice, m - 1, n);
    }
  }

  /** Undisturbed, the verification ticks reach the verdict of the whole loop. */
  lemma {:induction false} SoloVerify(ck: Checks, t: Tables, sub: Submission, p: Progress, choice: nat) returns (n: nat)
    requires choice >= |t.events|
    ensures Ticks(ck, t, sub, Verifying(p), choice, n)
         == (t, Persisting(VerifyFrom(ck, sub.key, sub.events, p, LookupIn(t.events))))
    decreases |sub.events| - p.track.index
  {
    var phase := VerifyTick(ck, t, sub, p, choice);
    if p.track.index < |sub.events| {
      var e := sub.events[p.track.index];
      assert StoredDecision(t.events, DecisionRef(e), choice) == LookupIn(t.events)(DecisionRef(e));
    }
    if phase.Verifying? {
      n := SoloVerify(ck, t, sub, phase.progress, choice);
      n := n + 1;
    } else {
      assert Ticks(ck, t, sub, phase, choice, 0) == (t, phase);
      n := 1;
    }
  }

  /** From the insert transaction on. */
  lemma SoloPersist(ck: Checks, t: Tables, sub: Submission, verdict: Verdict, choice: nat) returns (n: nat)
    requires choice >= |t.batches|
    ensures var (t', answer) := Conclude(t, sub, verdict);
            Ticks(ck, t, sub, Persisting(verdict), choice, n) == (t', Answered(answer))
  {
    var (t', outcome) := Persist(t, sub, verdict);
    var phase := AfterPersist(outcome);
    var (t'', last) := TickOne(ck, t', sub, phase, choice);
    assert Ticks(ck, t', sub, phase, choice, 0) == (t', phase);
    assert Ticks(ck, t'', sub, last, choice, 0) == (t'', last);
    assert Ticks(ck, t', sub, phase, choice, 1) == (t'', last);
    n := if phase.Answered? then 1 else 2;
  }

  /** Verification and insert, back to back. */
  lemma SoloStore(ck: Checks, t: Tables, sub: Submission, choice: nat) returns (n: nat)
    requires choice >= |t.batches| && choice >= |t.events|
    requires sub.firstPrev == ChainHead(t.batches, |t.batches|)
    ensures Ticks(ck, t, sub, Verifying(Start(sub.firstPrev)), choice, n)
         == (ServeNew(ck, t, sub).0, Answered(ServeNew(ck, t, sub).1))
  {
    var phase := Verifying(Start(sub.firstPrev));
    var verdict := Verify(ck, sub.key, sub.events, sub.firstPrev, LookupIn(t.events));
    var v := SoloVerify(ck, t, sub, Start(sub.firstPrev), choice);
    var w := SoloPersist(ck, t, sub, verdict, choice);
    TicksCompose(ck, t, sub, phase, choice, v, w);
    n := v + w;
  }

  lemma SoloNew(ck: Checks, t: Tables, sub: Submission, choice: nat) returns (n: nat)
    requires choice >= |t.batches| && choice >= |t.events|
    requires FindContent(t.batches, sub.events).None?
    ensures Ticks(ck, t, sub, CheckHead, choice, n) == (ServeNew(ck, t, sub).0, Answered(ServeNew(ck, t, sub).1))
  {
    var expected := ChainHead(t.batches, |t.batches|);
    if sub.firstPrev == expected {
      n := SoloStore(ck, t, sub, choice);
      n := n + 1;
    } else {
      var last := Answered(Mismatch(expected));
      assert Ticks(ck, t, sub, last, choice, 0) == (t, last);
      assert Ticks(ck, t, sub, Recheck(expected), choice, 1) == (t, last);
      n := 2;
    }
  }

  /** Serve is what the protocol does for a submission that runs without interference. */
  lemma ServeIsSoloRun(ck: Checks, t: Tables, sub: Submission) returns (choice: nat, n: nat)
    ensures Ticks(ck, t, sub, CheckKey, choice, n) == (Serve(ck, t, sub).0, Answered(Serve(ck, t, sub).1))
  {
    choice := |t.batches| + |t.events|;
    var (_, p1) := TickOne(ck, t, sub, CheckKey, choice);
    var p2 := ReplayCheck(t, sub);
    if p1.Answered? {
      assert Ticks(ck, t, sub, p1, choice, 0) == (t, p1);
      n := 1;
    } else if p2.Answered? {
      assert Ticks(ck, t, sub, p2, choice, 0) == (t, p2);
      assert Ticks(ck, t, sub, p1, choice, 1) == (t, p2);
      n := 2;
    } else {
      var (_, p3) := TickOne(ck, t, sub, CheckContent, choice);
      if p3.Responding? {
        var (t4, p4) := TickOne(ck, t, sub, p3, choice);
        assert Ticks(ck, t4, sub, p4, choice, 0) == (t4, p4);
        assert Ticks(ck, t, sub, p3, choice, 1) == (t4, p4);
        n := 1;
      } else {
        n := SoloNew(ck, t, sub, choice);
      }
      assert Ticks(ck, t, sub, CheckContent, choice, n + 1) == Ticks(ck, t, sub, p3, choice, n);
      assert Ticks(ck, t, sub, CheckReplay, choice, n + 2) == Ticks(ck, t, sub, CheckContent, choice, n + 1);
      n := n + 3;
    }
  }

  /** Ticks are steps of the protocol in which only this submission moves. */
  lemma {:induction false} TicksAreARun(ck: Checks, s: State, id: nat, choice: nat, n: nat)
    requires id in s.flights
    ensures var r := Run(ck, s, seq(n, _ => Tick(id, choice)));
            && r.flights.Keys == s.flights.Keys && r.flights[id].sub == s.flights[id].sub
            && (forall other :: other in s.flights && other != id ==> r.flights[other] == s.flights[other])
            && (r.tables, r.flights[id].phase) == Ticks(ck, s.tables, s.flights[id].sub, s.flights[id].phase, choice, n)
    decreases n
  {
    var f := s.flights[id];
    if n > 0 {
      var acts := seq(n, _ => Tick(id, choice));
      assert acts[..n - 1] == seq(n - 1, _ => Tick(id, choice));
      TicksAreARun(ck, s, id, choice, n - 1);
      TicksCompose(ck, s.tables, f.sub, f.phase, choice, n - 1, 1);
      var (t, phase) := Ticks(ck, s.tables, f.sub, f.phase, choice, n - 1);
      var (t', phase') := TickOne(ck, t, f.sub, phase, choice);
      assert Ticks(ck, t', f.sub, phase', choice, 0) == (t', phase');
      assert Ticks(ck, t, f.sub, phase, choice, 1) == (t', phase');
    }
  }

  /** After any run, a new submission can be taken through n statements with nothing in between. */
  lemma TicksExtendRun(ck: Checks, before: seq<Action>, id: nat, sub: Submission, choice: nat, n: nat)
    returns (more: seq<Action>)
    requires Decodes(sub) && id !in Run(ck, INIT, before).flights
    ensures var t := Run(ck, INIT, before).tables;
            var r := Run(ck, INIT, before + more);
            && r.tables == Ticks(ck, t, sub, CheckKey, choice, n).0
            && r.flights.Keys == Run(ck, INIT, before).flights.Keys + {id}
            && r.flights[id] == Flight(sub, Ticks(ck, t, sub, CheckKey, choice, n).1)
  {
    var s := Run(ck, INIT, before);
    var ticks := seq(n, _ => Tick(id, choice));
    more := [Submit(id, sub)] + ticks;
    var begun := Step(ck, s, Submit(id, sub));
    assert [Submit(id, sub)][..0] == [];
    assert Run(ck, s, [Submit(id, sub)]) == begun;
    RunCompose(ck, INIT, before, more);
    RunCompose(ck, s, [Submit(id, sub)], ticks);
    TicksAreARun(ck, begun, id, choice, n);
  }

  /** After any run, one more request can be served with nothing in between. */
  lemma ServeExtendsRun(ck: Checks, before: seq<Action>, id: nat, sub: Submission) returns (more: seq<Action>)
    requires Decodes(sub) && id !in Run(ck, INIT, before).flights
    ensures var t := Run(ck, INIT, before).tables;
            var r := Run(ck, INIT, before + more);
            && r.tables == Serve(ck, t, sub).0
            && r.flights.Keys == Run(ck, INIT, before).flights.Keys + {id}
            && r.flights[id] == Flight(sub, Answered(Serve(ck, t, sub).1))
  {
    var choice, n := ServeIsSoloRun(ck, Run(ck, INIT, before).tables, sub);
    more := TicksExtendRun(ck, before, id, sub, choice, n);
  }

  // ---- What the handler stores ----

  /** The slot after the present head is free. */
  lemma HeadSlotIsFree(batches: seq<Batch>)
    requires ChainInv(batches)
    ensures !SlotTaken(batches, Head(batches))
  {
    forall i | 0 <= i < |batches| && batches[i].VerifiedBatch? ensures batches[i].firstPrev != Head(batches) {
      assert RowExtends(batches, i);
      RowHead(batches, i);
      HeadHeight(batches, i);
      HeadHeight(batches, |batches|);
      assert batches[..|batches|] == batches;
      StreamGrows(batches, i + 1);
    }
  }

  /** A query against the tables never fails, so verification always reaches accept or reject. */
  lemma {:induction false} TableLookupsAnswer(
    ck: Checks, key: nat, events: seq<Event>, p: Progress, rows: seq<EventRow>)
    ensures !VerifyFrom(ck, key, events, p, LookupIn(rows)).LookupFailed?
    decreases |events| - p.track.index
  {
    if p.track.index < |events| {
      var e := events[p.track.index];
      var step := Advance(ck, key, e, p, LookupIn(rows)(DecisionRef(e)));
      if step.Continue? {
        TableLookupsAnswer(ck, key, events, step.progress, rows);
      }
    }
  }

  // ---- The answer and the tables after any request ----

  /** The Idempotency-Key records after a response: this one is added, under a key that had none. */
  ghost predicate Bound(before: map<string, Replay>, after: map<string, Replay>, sub: Submission, body: Body) {
    && (forall k :: k in after <==> k in before || sub.idempotencyKey == Some(k))
    && (forall k :: k in after ==> after[k] == if k in before then before[k] else Replay(sub.events, body))
  }

  /** The rows of a new batch, in its order. */
  ghost predicate EventsAdded(before: seq<EventRow>, after: seq<EventRow>, batch: nat, events: seq<Event>) {
    && |after| == |before| + |events| && before == after[..|before|]
    && forall j :: 0 <= j < |events| ==> after[|before| + j] == EventRow(SubmittedHash(events[j]), batch, events[j])
  }

  /** What storing a new batch leaves behind. */
  ghost predicate Stored(ck: Checks, t: Tables, sub: Submission, t': Tables) {
    var verdict := Verify(ck, sub.key, sub.events, sub.firstPrev, LookupIn(t.events));
    if Acceptable(ck, sub.key, sub.events, sub.firstPrev, LookupIn(t.events)) then
      && sub.events != []
      && t'.batches == t.batches + [VerifiedBatch(
           sub.events, sub.firstPrev, SubmittedHash(sub.events[|sub.events| - 1]), |sub.events|)]
      && EventsAdded(t.events, t'.events, |t.batches|, sub.events) && t'.key == Some(sub.key)
    else
      && verdict.Rejected?
      && t'.batches == t.batches + [RejectedBatch(sub.events, sub.firstPrev, verdict.issues)]
      && t'.events == t.events && t'.key == t.key
  }

  /** The row that stores this content. */
  predicate Holds(t: Tables, row: nat, content: seq<Event>) { row < |t.batches| && t.batches[row].content == content }

  /** The answer to a request and the tables it leaves. */
  ghost predicate Served(ck: Checks, t: Tables, sub: Submission, t': Tables, answer: Answer) {
    if t.key.Some? && t.key.value != sub.key then t' == t && answer == KeyConflict
    else if sub.idempotencyKey.Some? && sub.idempotencyKey.value in t.replays then
      var record := t.replays[sub.idempotencyKey.value];
      t' == t && answer == if record.content == sub.events then Replayed(record.body) else ReplayConflict
    else if exists row :: Holds(t, row, sub.events) then
      && answer.Reported? && Holds(t, answer.body.row, sub.events) && !answer.body.created
      && t'.batches == t.batches && t'.events == t.events && t'.key == t.key
      && Bound(t.replays, t'.replays, sub, answer.body)
    else if sub.firstPrev != Head(t.batches) then t' == t && answer == Mismatch(Head(t.batches))
    else
      && answer == Reported(Body(|t.batches|, true)) && Bound(t.replays, t'.replays, sub, answer.body)
      && Stored(ck, t, sub, t')
  }

  /** Every request is answered, and changes the tables, as the table above says. */
  lemma ServeMeans(ck: Checks, t: Tables, sub: Submission)
    requires TablesInv(ck, t) && Decodes(sub)
    ensures var (t', answer) := Serve(ck, t, sub); Served(ck, t, sub, t', answer)
  {
    var row := FindContent(t.batches, sub.events);
    if row.Some? {
      assert Holds(t, row.value, sub.events);
    } else {
      assert !exists r :: Holds(t, r, sub.events);
      ChainHeadIsHead(t.batches, |t.batches|);
      if sub.firstPrev == Head(t.batches) && (t.key.None? || t.key.value == sub.key) {
        StoreMeans(ck, t, sub);
      }
    }
  }

  lemma RecordBinds(t: Tables, sub: Submission, body: Body)
    ensures var t' := RecordReplay(t, sub, body);
      Bound(t.replays, t'.replays, sub, body) && t' == Tables(t.batches, t.events, t.key, t'.replays)
  {
  }

  lemma StoreMeans(ck: Checks, t: Tables, sub: Submission)
    requires TablesInv(ck, t) && Decodes(sub) && FindContent(t.batches, sub.events).None?
    requires sub.firstPrev == Head(t.batches) && (t.key.None? || t.key.value == sub.key)
    ensures var (t', answer) := Conclude(t, sub, Verify(ck, sub.key, sub.events, sub.firstPrev, LookupIn(t.events)));
      && answer == Reported(Body(|t.batches|, true)) && Bound(t.replays, t'.replays, sub, answer.body)
      && Stored(ck, t, sub, t')
  {
    var verdict := Verify(ck, sub.key, sub.events, sub.firstPrev, LookupIn(t.events));
    HeadSlotIsFree(t.batches);
    AcceptedIffAcceptable(ck, sub.key, sub.events, sub.firstPrev, LookupIn(t.events));
    TableLookupsAnswer(ck, sub.key, sub.events, Start(sub.firstPrev), t.events);
    if verdict.Accepted? {
      AcceptableIsLinked(ck, sub.key, sub.events, sub.firstPrev, LookupIn(t.events));
      ConcludeAccepted(ck, t, sub);
    } else {
      ConcludeRejected(t, sub, verdict.issues);
    }
  }

  lemma ConcludeAccepted(ck: Checks, t: Tables, sub: Submission)
    requires FindContent(t.batches, sub.events).None? && !SlotTaken(t.batches, sub.firstPrev) && sub.events != []
    requires t.key.None? || t.key.value == sub.key
    requires TablesInv(ck, t) && sub.firstPrev == Head(t.batches) && Linked(sub.firstPrev, sub.events)
    ensures var (t', answer) := Conclude(t, sub, Accepted(sub.events));
      var head := SubmittedHash(sub.events[|sub.events| - 1]);
      && answer == Reported(Body(|t.batches|, true)) && Bound(t.replays, t'.replays, sub, answer.body)
      && t'.batches == t.batches + [VerifiedBatch(sub.events, sub.firstPrev, head, |sub.events|)]
      && EventsAdded(t.events, t'.events, |t.batches|, sub.events) && t'.key == Some(sub.key)
  {
    NewRowsAreAdded(ck, t, sub);
    var stored := Persist(t, sub, Accepted(sub.events)).0;
    RecordBinds(stored, sub, Body(|t.batches|, true));
  }

  lemma ConcludeRejected(t: Tables, sub: Submission, issues: seq<Issue>)
    requires FindContent(t.batches, sub.events).None?
    ensures var (t', answer) := Conclude(t, sub, Rejected(issues));
      && answer == Reported(Body(|t.batches|, true)) && Bound(t.replays, t'.replays, sub, answer.body)
      && t'.batches == t.batches + [RejectedBatch(sub.events, sub.firstPrev, issues)]
      && t'.events == t.events && t'.key == t.key
  {
    var stored := Persist(t, sub, Rejected(issues)).0;
    RecordBinds(stored, sub, Body(|t.batches|, true));
  }

  lemma AcceptableIsLinked(ck: Checks, key: nat, events: seq<Event>, firstPrev: Option<Text>, lookup: Text -> Lookup)
    requires Acceptable(ck, key, events, firstPrev, lookup)
    ensures Linked(firstPrev, events)
  {
    forall i | 0 <= i < |events| ensures LinkAt(firstPrev, events, i) {
      assert GoodAt(ck, key, events, firstPrev, lookup, i);
    }
  }

  lemma NewRowsAreAdded(ck: Checks, t: Tables, sub: Submission)
    requires TablesInv(ck, t) && sub.firstPrev == Head(t.batches) && Linked(sub.firstPrev, sub.events)
    ensures EventsAdded(t.events, InsertEvents(t.events, |t.batches|, sub.events), |t.batches|, sub.events)
    ensures forall i :: 0 <= i < |sub.events| ==> RecomputedHash(sub.events[i]) == SubmittedHash(sub.events[i])
  {
    StreamRowsAreStream(t.batches);
    LinkedAppend(None, Stream(t.batches), sub.events);
    InsertEventsAppends(t.events, Stream(t.batches), |t.batches|, sub.events);
    forall i | 0 <= i < |sub.events| ensures RecomputedHash(sub.events[i]) == SubmittedHash(sub.events[i]) {
      assert LinkAt(sub.firstPrev, sub.events, i);
    }
  }

  // ---- The tables as an object ----

  class Store {
    var batches: seq<Batch>
    var events: seq<EventRow>
    var key: Option<nat>
    var replays: map<string, Replay>

    function View(): Tables
      reads this
    {
      Tables(batches, events, key, replays)
    }

    constructor ()
      ensures View() == EMPTY
    {
      batches, events, key, replays := [], [], None, map[];
    }

    /** currentEvidenceChainHead: newest row first, the first that nothing extends. */
    method CurrentChainHead() returns (head: Option<Text>)
      ensures head == ChainHead(batches, |batches|)
    {
      var row := |batches|;
      while row > 0
        invariant 0 <= row <= |batches|
        invariant LastHeadRow(batches, |batches|) == LastHeadRow(batches, row)
      {
        row := row - 1;
        if IsHeadRow(batches, row) {
          return Some(batches[row].chainHead);
        }
      }
      head := None;
    }

    /** insertEvidenceEvent. */
    method InsertEventRow(row: EventRow)
      modifies this`events
      ensures events == InsertEvent(old(events), row)
    {
      var i := 0;
      while i < |events|
        invariant 0 <= i <= |events| && events == old(events)
        invariant forall k :: 0 <= k < i ==> events[k].hash != row.hash
      {
        if events[i].hash == row.hash {
          return;
        }
        i := i + 1;
      }
      events := events + [row];
    }

    /** persistEvidenceBatch: everything of one transaction, or nothing. */
    method PersistEvidenceBatch(sub: Submission, verdict: Verdict) returns (outcome: Outcome)
      modifies this`batches, this`events, this`key
      ensures (View(), outcome) == Persist(old(View()), sub, verdict)
    {
      var raced := FindContent(batches, sub.events);
      match verdict {
        case LookupFailed =>
          return QueryFailed;
        case Rejected(issues) =>
          if raced.Some? {
            return Raced(raced.value);
          }
          batches := batches + [RejectedBatch(sub.events, sub.firstPrev, issues)];
          outcome := Inserted(|batches| - 1);
        case Accepted(verified) =>
          if key.Some? && key.value != sub.key {
            return KeyTaken;
          }
          if raced.Some? {
            return Raced(raced.value);
          }
          if SlotTaken(batches, sub.firstPrev) {
            return SlotLost;
          }
          if verified == [] {
            return QueryFailed;
          }
          var id := |batches|;
          key := Some(sub.key);
          var head := RecomputedHash(verified[|verified| - 1]);
          batches := batches + [VerifiedBatch(sub.events, sub.firstPrev, head, |verified|)];
          for i := 0 to |verified|
            invariant events == InsertEvents(old(events), id, verified[..i])
            invariant batches == old(batches) + [VerifiedBatch(sub.events, sub.firstPrev, head, |verified|)]
            invariant key == Some(sub.key) && replays == old(replays)
          {
            assert verified[..i + 1][..i] == verified[..i];
            InsertEventRow(EventRow(RecomputedHash(verified[i]), id, verified[i]));
          }
          assert verified[..|verified|] == verified;
          outcome := Inserted(id);
      }
    }

    /** respondEvidenceBatch: bind the Idempotency-Key to this response, if it is not bound yet. */
    method Respond(sub: Submission, body: Body) returns (answer: Answer)
      modifies this`replays
      ensures View() == RecordReplay(old(View()), sub, body) && answer == Reported(body)
      ensures Bound(old(replays), replays, sub, body)
    {
      if sub.idempotencyKey.Some? && sub.idempotencyKey.value !in replays {
        replays := replays[sub.idempotencyKey.value := Replay(sub.events, body)];
      }
      answer := Reported(body);
    }

    /** handleEvidenceBatchSubmit for a decoded request. */
    method SubmitBatch(ck: Checks, sub: Submission) returns (answer: Answer)
      modifies this
      ensures (View(), answer) == Serve(ck, old(View()), sub)
      ensures TablesInv(ck, old(View())) && Decodes(sub) ==> Served(ck, old(View()), sub, View(), answer)
    {
      ghost var before := View();
      if TablesInv(ck, before) && Decodes(sub) {
        ServeMeans(ck, before, sub);
      }
      if key.Some? && key.value != sub.key {
        return KeyConflict;
      }
      var replay := ReplayCheck(View(), sub);
      if replay.Answered? {
        return replay.answer;
      }
      var row := FindContent(batches, sub.events);
      if row.Some? {
        answer := Respond(sub, Body(row.value, false));
        return;
      }
      var expected := CurrentChainHead();
      if sub.firstPrev != expected {
        return Mismatch(expected);
      }
      var verdict := VerifyEvidenceEvents(ck, sub.key, sub.events, sub.firstPrev, LookupIn(events));
      var outcome := PersistEvidenceBatch(sub, verdict);
      if outcome.Inserted? || outcome.Raced? {
        answer := Respond(sub, Body(outcome.row, outcome.Inserted?));
        return;
      }
      match outcome {
        case KeyTaken => answer := KeyConflict;
        case QueryFailed => answer := DbError;
        case _ =>
          var head := CurrentChainHead();
          answer := Mismatch(head);
      }
    }
  }
}
