/**
 Idempotency-Key records and signing keys, over whole runs (igris-overture/api/routes_evidence.go,
 handleEvidenceBatchSubmit and respondEvidenceBatch).
 */
module EvidenceReplay {
  import opened Options
  import opened EvidenceEvents
  import opened EvidenceTables
  import opened EvidenceChain
  import opened EvidenceProtocol
  import opened EvidenceAnswers

  // ---- What is recorded under a key ----

  /** A response, not itself a replay, to a submission with this Idempotency-Key. */
  predicate UnderKey(e: Told, k: string) { e.answer.Reported? && e.sub.idempotencyKey == Some(k) }

  predicate IsFirstUnder(h: seq<Told>, k: string, i: nat) {
    i < |h| && UnderKey(h[i], k) && forall j :: 0 <= j < i ==> !UnderKey(h[j], k)
  }

  /** The record of key k, given every answer so far: the first response under it, with the events that
      response was for. */
  ghost predicate RecordOf(h: seq<Told>, records: map<string, Replay>, k: string) {
    && (k in records ==> exists i: nat :: IsFirstUnder(h, k, i))
    && forall i: nat :: IsFirstUnder(h, k, i) ==>
         k in records && records[k].content == h[i].sub.events && records[k].body == h[i].answer.body
  }

  lemma OneStepRecords(ck: Checks, s: State, a: Action, k: string)
    ensures var told, r, r' := AnswersOf(ck, s, a), s.tables.replays, Step(ck, s, a).tables.replays;
      && |told| <= 1
      && (k in r' <==> k in r || (told != [] && UnderKey(told[0], k)))
      && (k in r ==> r'[k] == r[k])
      && (k in r' && k !in r ==> r'[k].content == told[0].sub.events && r'[k].body == told[0].answer.body)
  {
    if a.Tick? && a.id in s.flights {
      var f := s.flights[a.id];
      if !f.phase.Responding? && !f.phase.CheckReplay? && !f.phase.Answered? {
        TickIsQuiet(ck, s.tables, f.sub, f.phase, a.choice);
      }
    }
  }

  lemma RecordStep(h: seq<Told>, told: seq<Told>, r: map<string, Replay>, r': map<string, Replay>, k: string)
    requires RecordOf(h, r, k) && |told| <= 1
    requires k in r' <==> k in r || (told != [] && UnderKey(told[0], k))
    requires k in r ==> r'[k] == r[k]
    requires k in r' && k !in r ==> r'[k].content == told[0].sub.events && r'[k].body == told[0].answer.body
    ensures RecordOf(h + told, r', k)
  {
    var all := h + told;
    forall i: nat | IsFirstUnder(all, k, i)
      ensures k in r' && r'[k].content == all[i].sub.events && r'[k].body == all[i].answer.body
    {
      assert forall j :: 0 <= j < |h| ==> all[j] == h[j];
      if i < |h| {
        assert IsFirstUnder(h, k, i);
      } else {
        assert forall j: nat :: !IsFirstUnder(h, k, j);
      }
    }
    if k in r {
      var i: nat :| IsFirstUnder(h, k, i);
      assert forall j :: 0 <= j <= i ==> all[j] == h[j];
      assert IsFirstUnder(all, k, i);
    } else if k in r' {
      NoneUnder(h, r, k, |h|);
      assert IsFirstUnder(all, k, |h|);
    }
  }

  /** Without a record nothing was answered under the key. */
  lemma {:induction false} NoneUnder(h: seq<Told>, r: map<string, Replay>, k: string, n: nat)
    requires RecordOf(h, r, k) && k !in r && n <= |h|
    ensures forall j :: 0 <= j < n ==> !UnderKey(h[j], k)
    decreases n
  {
    if n > 0 {
      NoneUnder(h, r, k, n - 1);
      assert !IsFirstUnder(h, k, n - 1);
    }
  }

  /** In every run, a key is recorded exactly when some submission was answered under it, and what is recorded is
      the events and the body of the first such answer. */
  lemma {:induction false} RecordIsFirstAnswer(ck: Checks, actions: seq<Action>, k: string)
    ensures RecordOf(History(ck, actions), Run(ck, INIT, actions).tables.replays, k)
    decreases |actions|
  {
    if actions != [] {
      var n := |actions| - 1;
      var s, a := Run(ck, INIT, actions[..n]), actions[n];
      RecordIsFirstAnswer(ck, actions[..n], k);
      OneStepRecords(ck, s, a, k);
      RecordStep(History(ck, actions[..n]), AnswersOf(ck, s, a), s.tables.replays, Step(ck, s, a).tables.replays, k);
    }
  }

  /** In every run, a submission answered under its key finds that key recorded ever after. */
  lemma AnsweredKeyIsRecorded(ck: Checks, actions: seq<Action>, i: nat, k: string)
    requires i < |History(ck, actions)| && UnderKey(History(ck, actions)[i], k)
    ensures k in Run(ck, INIT, actions).tables.replays
  {
    RecordIsFirstAnswer(ck, actions, k);
    if k !in Run(ck, INIT, actions).tables.replays {
      NoneUnder(History(ck, actions), Run(ck, INIT, actions).tables.replays, k, i + 1);
    }
  }

  // ---- What the record answers ----

  /** A submission that gets past the signing-key check with a recorded key is answered from the record, whatever
      happens afterwards. */
  lemma RecordAnswers(ck: Checks, s: State, id: nat, choice: nat, after: seq<Action>, k: string)
    requires id in s.flights && s.flights[id].phase.CheckReplay? && Abort(id) !in after
    requires s.flights[id].sub.idempotencyKey == Some(k) && k in s.tables.replays
    ensures var r := Run(ck, s, [Tick(id, choice)] + after);
      && id in r.flights
      && r.flights[id].phase ==
         Answered(if s.flights[id].sub.events == s.tables.replays[k].content then Replayed(s.tables.replays[k].body)
                  else ReplayConflict)
  {
    var checked := Step(ck, s, Tick(id, choice));
    RunCompose(ck, s, [Tick(id, choice)], after);
    assert [Tick(id, choice)][..0] == [];
    assert Run(ck, s, [Tick(id, choice)]) == checked;
    AnswerStays(ck, checked, after, id);
  }

  /** The first answer under a key decides what every later submission under that key is told: the same body for
      the same events, a conflict for any other. */
  lemma FirstAnswerBindsKey(
    ck: Checks, actions: seq<Action>, i: nat, k: string, id: nat, choice: nat, after: seq<Action>)
    requires IsFirstUnder(History(ck, actions), k, i)
    requires var s := Run(ck, INIT, actions);
      id in s.flights && s.flights[id].phase.CheckReplay? && s.flights[id].sub.idempotencyKey == Some(k)
    requires Abort(id) !in after
    ensures var first, sub := History(ck, actions)[i], Run(ck, INIT, actions).flights[id].sub;
      var r := Run(ck, INIT, actions + ([Tick(id, choice)] + after));
      && id in r.flights
      && r.flights[id].phase ==
         Answered(if sub.events == first.sub.events then Replayed(first.answer.body) else ReplayConflict)
  {
    RecordIsFirstAnswer(ck, actions, k);
    RecordAnswers(ck, Run(ck, INIT, actions), id, choice, after, k);
    RunCompose(ck, INIT, actions, [Tick(id, choice)] + after);
  }

  // ---- Signing keys ----

  /** A submission that is refused for its signing key came with another one than the stream's. */
  predicate ConflictTrue(t: Tables, f: Flight) {
    f.phase == Answered(KeyConflict) ==> t.key.Some? && t.key.value != f.sub.key
  }

  lemma TickKeepsConflict(ck: Checks, t: Tables, sub: Submission, phase: Phase, choice: nat)
    requires ConflictTrue(t, Flight(sub, phase))
    ensures var (t', next) := TickOne(ck, t, sub, phase, choice); ConflictTrue(t', Flight(sub, next))
  {
    if phase.Verifying? {
      var next := VerifyTick(ck, t, sub, phase.progress, choice);
      assert next.Verifying? || next.Persisting?;
    }
  }

  /** In every run, whoever is told of a signing-key conflict did come with another key than the one the stream
      has, and still has. */
  lemma {:induction false} KeyConflictIsTrue(ck: Checks, actions: seq<Action>, id: nat)
    requires id in Run(ck, INIT, actions).flights
    ensures ConflictTrue(Run(ck, INIT, actions).tables, Run(ck, INIT, actions).flights[id])
    decreases |actions|
  {
    if actions != [] {
      var n := |actions| - 1;
      var s, a := Run(ck, INIT, actions[..n]), actions[n];
      if id in s.flights {
        KeyConflictIsTrue(ck, actions[..n], id);
      }
      if a.Tick? && a.id in s.flights {
        var f := s.flights[a.id];
        if a.id == id {
          TickKeepsConflict(ck, s.tables, f.sub, f.phase, a.choice);
        }
        TickExtends(ck, s.tables, f.sub, f.phase, a.choice);
      }
    }
  }

  /** A submission with another key than the stream's is told so at its first check; any other one gets on to the
      Idempotency-Key check. */
  lemma OtherKeyIsRefused(ck: Checks, s: State, id: nat, choice: nat, after: seq<Action>)
    requires id in s.flights && s.flights[id].phase.CheckKey? && Abort(id) !in after
    ensures var other := s.tables.key.Some? && s.tables.key.value != s.flights[id].sub.key;
      var r := Run(ck, s, [Tick(id, choice)] + after);
      && (other ==> id in r.flights && r.flights[id].phase == Answered(KeyConflict))
      && (!other ==> Step(ck, s, Tick(id, choice)) ==
                     s.(flights := s.flights[id := Flight(s.flights[id].sub, CheckReplay)]))
  {
    var checked := Step(ck, s, Tick(id, choice));
    RunCompose(ck, s, [Tick(id, choice)], after);
    assert [Tick(id, choice)][..0] == [];
    assert Run(ck, s, [Tick(id, choice)]) == checked;
    if checked.flights[id].phase.Answered? {
      AnswerStays(ck, checked, after, id);
    }
  }

  // ---- Bytes that are stored already ----

  /** On its way to being told about the stored row, with nothing else left to be told but a signing-key conflict. */
  predicate WillBeReported(f: Flight, row: nat) {
    match f.phase
    case CheckContent => true
    case CheckHead => true
    case Recheck(_) => true
    case Verifying(_) => true
    case Persisting(verdict) => !verdict.LookupFailed?
    case Responding(body) => body == Body(row, false)
    case Answered(answer) => answer == Reported(Body(row, false)) || answer == KeyConflict
    case _ => false
  }

  lemma ContentIsFound(ck: Checks, t: Tables, row: nat)
    requires TablesInv(ck, t) && row < |t.batches|
    ensures FindContent(t.batches, t.batches[row].content) == Some(row)
  {
  }

  lemma TickOnStored(ck: Checks, t: Tables, sub: Submission, phase: Phase, choice: nat, row: nat)
    requires TablesInv(ck, t) && row < |t.batches| && t.batches[row].content == sub.events
    requires WillBeReported(Flight(sub, phase), row)
    ensures var (t', next) := TickOne(ck, t, sub, phase, choice);
      && t'.batches == t.batches && WillBeReported(Flight(sub, next), row)
  {
    ContentIsFound(ck, t, row);
    if phase.Verifying? {
      var next := VerifyTick(ck, t, sub, phase.progress, choice);
      assert next.Verifying? || (next.Persisting? && !next.verdict.LookupFailed?);
    }
  }

  /** Row `row` holds the submission's bytes, and the submission will be told so. */
  predicate OnTheWay(s: State, id: nat, sub: Submission, row: nat) {
    && id in s.flights && s.flights[id].sub == sub && WillBeReported(s.flights[id], row)
    && row < |s.tables.batches| && s.tables.batches[row].content == sub.events
  }

  lemma {:induction false} StaysOnTheWay(
    ck: Checks, s: State, after: seq<Action>, id: nat, sub: Submission, row: nat)
    requires EvidenceProtocol.Inv(ck, s) && OnTheWay(s, id, sub, row) && Abort(id) !in after
    ensures EvidenceProtocol.Inv(ck, Run(ck, s, after)) && OnTheWay(Run(ck, s, after), id, sub, row)
    decreases |after|
  {
    if after != [] {
      var n := |after| - 1;
      StaysOnTheWay(ck, s, after[..n], id, sub, row);
      var r, a := Run(ck, s, after[..n]), after[n];
      assert a != Abort(id);
      EvidenceProtocol.StepKeepsInv(ck, r, a);
      StoredStep(ck, r, a, id, sub, row);
    }
  }

  /** Once a submission's bytes are stored, by whichever request, a submission of the same bytes that has passed the
      Idempotency-Key check and has not lost its slot is never told of a mismatch and never creates another row: it
      is told about that row, unless it turns out to have another signing key. */
  lemma StoredBytesAreReported(
    ck: Checks, before: seq<Action>, after: seq<Action>, id: nat, sub: Submission, row: nat)
    requires OnTheWay(Run(ck, INIT, before), id, sub, row) && Abort(id) !in after
    ensures OnTheWay(Run(ck, INIT, before + after), id, sub, row)
  {
    RunKeepsInv(ck, before);
    StaysOnTheWay(ck, Run(ck, INIT, before), after, id, sub, row);
    RunCompose(ck, INIT, before, after);
  }

  lemma StoredStep(ck: Checks, s: State, a: Action, id: nat, sub: Submission, row: nat)
    requires TablesInv(ck, s.tables) && OnTheWay(s, id, sub, row) && a != Abort(id)
    ensures OnTheWay(Step(ck, s, a), id, sub, row)
  {
    if a.Tick? && a.id in s.flights {
      var f := s.flights[a.id];
      TickExtends(ck, s.tables, f.sub, f.phase, a.choice);
      if a.id == id {
        TickOnStored(ck, s.tables, f.sub, f.phase, a.choice, row);
      }
    }
  }

  // ---- Losing the slot ----

  /** A verified submission whose place in the chain has been taken, by other bytes, changes nothing. */
  lemma TakenSlotIsLost(ck: Checks, s: State, id: nat, choice: nat)
    requires id in s.flights && s.flights[id].phase.Persisting? && s.flights[id].phase.verdict.Accepted?
    requires var sub := s.flights[id].sub;
      && (s.tables.key.None? || s.tables.key.value == sub.key)
      && (forall b <- s.tables.batches :: b.content != sub.events)
      && (exists b <- s.tables.batches :: b.VerifiedBatch? && b.firstPrev == sub.firstPrev)
    ensures Step(ck, s, Tick(id, choice)) == s.(flights := s.flights[id := Flight(s.flights[id].sub, LostSlot)])
  {
    var b :| b in s.tables.batches && b.VerifiedBatch? && b.firstPrev == s.flights[id].sub.firstPrev;
    var i :| 0 <= i < |s.tables.batches| && s.tables.batches[i] == b;
    assert SlotTaken(s.tables.batches, s.flights[id].sub.firstPrev);
  }

  /** A verified submission under another key than the one registered meanwhile changes nothing either, even if its
      bytes are stored. */
  lemma OtherKeyLosesInsert(ck: Checks, s: State, id: nat, choice: nat)
    requires id in s.flights && s.flights[id].phase.Persisting? && s.flights[id].phase.verdict.Accepted?
    requires s.tables.key.Some? && s.tables.key.value != s.flights[id].sub.key
    ensures Step(ck, s, Tick(id, choice)) ==
      s.(flights := s.flights[id := Flight(s.flights[id].sub, Answered(KeyConflict))])
  {
  }

  /** In every run, whoever has lost its slot is told where the chain ends now. */
  lemma LostSlotIsToldTheHead(ck: Checks, actions: seq<Action>, id: nat, choice: nat, after: seq<Action>)
    requires var s := Run(ck, INIT, actions); id in s.flights && s.flights[id].phase.LostSlot?
    requires Abort(id) !in after
    ensures var s, r := Run(ck, INIT, actions), Run(ck, INIT, actions + ([Tick(id, choice)] + after));
      id in r.flights && r.flights[id].phase == Answered(Mismatch(Head(s.tables.batches)))
  {
    var s := Run(ck, INIT, actions);
    var told := Step(ck, s, Tick(id, choice));
    RunKeepsInv(ck, actions);
    ChainHeadIsHead(s.tables.batches, choice);
    RunCompose(ck, INIT, actions, [Tick(id, choice)] + after);
    RunCompose(ck, s, [Tick(id, choice)], after);
    assert [Tick(id, choice)][..0] == [];
    assert Run(ck, s, [Tick(id, choice)]) == told;
    AnswerStays(ck, told, after, id);
  }

  // ---- What can be stored at all ----

  /** One to 500 events, each with a well-formed hash, starting where they say. */
  predicate Fits(b: Batch) {
    && 1 <= |b.content| <= 500 && b.firstPrev == TextField(b.content[0], PreviousEventHashField)
    && forall e <- b.content :: HashShaped(TextOrEmpty(e, EventHashField))
  }

  /** In every run, every stored batch fits. */
  lemma {:induction false} StoredBatchesFit(ck: Checks, actions: seq<Action>, b: Batch)
    requires b in Run(ck, INIT, actions).tables.batches
    ensures Fits(b)
    decreases |actions|
  {
    if actions != [] {
      var n := |actions| - 1;
      var s, a := Run(ck, INIT, actions[..n]), actions[n];
      if b in s.tables.batches {
        StoredBatchesFit(ck, actions[..n], b);
      } else {
        RunKeepsInv(ck, actions[..n]);
        NewBatchFits(ck, s, a, b);
      }
    }
  }

  lemma NewBatchFits(ck: Checks, s: State, a: Action, b: Batch)
    requires EvidenceProtocol.Inv(ck, s) && b in Step(ck, s, a).tables.batches && b !in s.tables.batches
    ensures Fits(b)
  {
    var f := s.flights[a.id];
    assert FlightInv(ck, s.tables, f);
    assert b.content == f.sub.events && b.firstPrev == f.sub.firstPrev;
  }
}
