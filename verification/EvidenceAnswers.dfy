/**
 What submissions are told (igris-overture/api/routes_evidence.go): over the whole history of a run, who is
 told that a batch was created, and which reuse of an Idempotency-Key is answered as a conflict.
 */
module EvidenceAnswers {
  import opened Options
  import opened EvidenceEvents
  import opened EvidenceTables
  import opened EvidenceChain
  import opened EvidenceProtocol
  import opened EvidenceStore

  // ---- The history of answers ----

  /** An answer and the submission that got it. */
  datatype Told = Told(sub: Submission, answer: Answer)

  /** The answer a step gives, if it gives one. */
  function AnswersOf(ck: Checks, s: State, a: Action): seq<Told> {
    if a.Tick? && a.id in s.flights && !s.flights[a.id].phase.Answered? then
      var f := s.flights[a.id];
      var next := TickOne(ck, s.tables, f.sub, f.phase, a.choice).1;
      if next.Answered? then [Told(f.sub, next.answer)] else []
    else []
  }

  /** Every answer given in a run, in order, also to submissions that are gone. */
  function History(ck: Checks, actions: seq<Action>): seq<Told> {
    if actions == [] then []
    else
      var n := |actions| - 1;
      History(ck, actions[..n]) + AnswersOf(ck, Run(ck, INIT, actions[..n]), actions[n])
  }

  // ---- Who is told "created" ----

  /** Told first-hand that it created this row. */
  predicate FirstHand(e: Told, row: nat) { e.answer == Reported(Body(row, true)) }

  /** Told so by replaying a recorded response. */
  predicate SecondHand(e: Told, row: nat) { e.answer == Replayed(Body(row, true)) }

  predicate SameRequest(a: Submission, b: Submission) {
    a.events == b.events && a.idempotencyKey == b.idempotencyKey && a.idempotencyKey.Some?
  }

  predicate Stores(t: Tables, row: nat, content: seq<Event>) {
    row < |t.batches| && t.batches[row].content == content
  }

  ghost predicate FirstHandApart(h: seq<Told>) {
    forall i, j, row :: 0 <= i < j < |h| && FirstHand(h[i], row) ==> !FirstHand(h[j], row)
  }

  /** Entry j repeats what an earlier submission with the same key and content was told first-hand. */
  ghost predicate RepeatsEarlier(h: seq<Told>, j: nat, row: nat)
    requires j < |h|
  {
    exists i :: 0 <= i < j && FirstHand(h[i], row) && SameRequest(h[i].sub, h[j].sub)
  }

  ghost predicate SecondHandRepeats(h: seq<Told>) {
    forall j, row :: 0 <= j < |h| && SecondHand(h[j], row) ==> RepeatsEarlier(h, j, row)
  }

  /** First-hand answers name rows that hold their own events. */
  ghost predicate FirstHandStored(h: seq<Told>, t: Tables) {
    forall i, row :: 0 <= i < |h| && FirstHand(h[i], row) ==> Stores(t, row, h[i].sub.events)
  }

  /** About to be told first-hand. */
  predicate Claims(f: Flight, row: nat) { f.phase == Responding(Body(row, true)) }

  ghost predicate ClaimFresh(h: seq<Told>, t: Tables, f: Flight) {
    forall row :: Claims(f, row) ==>
      Stores(t, row, f.sub.events) && forall i :: 0 <= i < |h| ==> !FirstHand(h[i], row)
  }

  ghost predicate ClaimsApart(flights: map<nat, Flight>) {
    forall a, b, row :: a in flights && b in flights && a != b && Claims(flights[a], row) ==> !Claims(flights[b], row)
  }

  /** A recorded "created" was told first-hand to the submission that recorded it. */
  ghost predicate RecordTold(h: seq<Told>, t: Tables, k: string)
    requires k in t.replays
  {
    forall row :: t.replays[k].body == Body(row, true) ==>
      exists i :: 0 <= i < |h| && FirstHand(h[i], row)
               && h[i].sub.idempotencyKey == Some(k) && h[i].sub.events == t.replays[k].content
  }

  ghost predicate Inv(h: seq<Told>, s: State) {
    && FirstHandApart(h) && SecondHandRepeats(h) && FirstHandStored(h, s.tables)
    && (forall id :: id in s.flights ==> ClaimFresh(h, s.tables, s.flights[id]))
    && ClaimsApart(s.flights)
    && (forall k :: k in s.tables.replays ==> RecordTold(h, s.tables, k))
  }

  // ---- Every step keeps the invariant ----

  lemma AnswerKeepsRecords(h: seq<Told>, t: Tables, k: string, e: Told)
    requires k in t.replays && RecordTold(h, t, k)
    ensures RecordTold(h + [e], t, k)
  {
    forall row | t.replays[k].body == Body(row, true)
      ensures exists i :: 0 <= i < |h + [e]| && FirstHand((h + [e])[i], row)
                       && (h + [e])[i].sub.idempotencyKey == Some(k) && (h + [e])[i].sub.events == t.replays[k].content
    {
      var i :| 0 <= i < |h| && FirstHand(h[i], row)
            && h[i].sub.idempotencyKey == Some(k) && h[i].sub.events == t.replays[k].content;
      assert (h + [e])[i] == h[i];
    }
  }

  lemma AnswerKeepsRepeats(h: seq<Told>, e: Told)
    requires SecondHandRepeats(h)
    requires forall row :: SecondHand(e, row) ==>
      exists i :: 0 <= i < |h| && FirstHand(h[i], row) && SameRequest(h[i].sub, e.sub)
    ensures SecondHandRepeats(h + [e])
  {
    var all := h + [e];
    forall j, row | 0 <= j < |all| && SecondHand(all[j], row)
      ensures RepeatsEarlier(all, j, row)
    {
      if j < |h| {
        assert RepeatsEarlier(h, j, row);
        var i :| 0 <= i < j && FirstHand(h[i], row) && SameRequest(h[i].sub, h[j].sub);
        assert all[i] == h[i];
      } else {
        var i :| 0 <= i < |h| && FirstHand(h[i], row) && SameRequest(h[i].sub, e.sub);
        assert all[i] == h[i];
      }
    }
  }

  /** An answer that says nothing about creation. */
  predicate Neutral(told: seq<Told>) {
    |told| <= 1 && forall e <- told :: !e.answer.Reported? && !e.answer.Replayed?
  }

  lemma NeutralKeepsHistory(h: seq<Told>, t: Tables, told: seq<Told>)
    requires Neutral(told) && FirstHandApart(h) && SecondHandRepeats(h) && FirstHandStored(h, t)
    requires forall k :: k in t.replays ==> RecordTold(h, t, k)
    ensures FirstHandApart(h + told) && SecondHandRepeats(h + told) && FirstHandStored(h + told, t)
    ensures forall k :: k in t.replays ==> RecordTold(h + told, t, k)
  {
    if told == [] {
      assert h + told == h;
    } else {
      assert told == [told[0]];
      AnswerKeepsRepeats(h, told[0]);
      forall k | k in t.replays ensures RecordTold(h + told, t, k) {
        AnswerKeepsRecords(h, t, k, told[0]);
      }
    }
  }

  /** A step of one submission that neither records nor reports a creation. */
  lemma QuietTickKeeps(h: seq<Told>, s: State, id: nat, t: Tables, f: Flight, told: seq<Told>)
    requires Inv(h, s) && id in s.flights && Neutral(told)
    requires s.tables.batches <= t.batches && t.replays == s.tables.replays
    requires forall row :: Claims(f, row) ==> row == |s.tables.batches| && Stores(t, row, f.sub.events)
    ensures Inv(h + told, State(t, s.flights[id := f]))
  {
    assert FirstHandStored(h, t);
    assert forall k :: k in t.replays ==> RecordTold(h, s.tables, k);
    assert forall k :: k in t.replays ==> RecordTold(h, t, k);
    NeutralKeepsHistory(h, t, told);
    var flights := s.flights[id := f];
    forall other | other in flights
      ensures ClaimFresh(h + told, t, flights[other])
    {
      if other != id {
        assert ClaimFresh(h, s.tables, s.flights[other]);
      }
    }
    assert forall other, row: nat :: other in s.flights && Claims(s.flights[other], row) ==>
      ClaimFresh(h, s.tables, s.flights[other]) && row < |s.tables.batches|;
  }

  /** The response: told first-hand, and recorded under an unused key. */
  lemma RespondKeeps(h: seq<Told>, s: State, id: nat, body: Body)
    requires Inv(h, s) && id in s.flights && s.flights[id].phase == Responding(body)
    ensures var sub := s.flights[id].sub;
      Inv(h + [Told(sub, Reported(body))],
          State(RecordReplay(s.tables, sub, body), s.flights[id := Flight(sub, Answered(Reported(body)))]))
  {
    var sub := s.flights[id].sub;
    var e := Told(sub, Reported(body));
    var t := RecordReplay(s.tables, sub, body);
    var flights := s.flights[id := Flight(sub, Answered(Reported(body)))];
    assert ClaimFresh(h, s.tables, s.flights[id]);
    assert body.created ==> Claims(s.flights[id], body.row);
    AnswerKeepsRepeats(h, e);
    forall k | k in t.replays ensures RecordTold(h + [e], t, k) {
      if k in s.tables.replays {
        AnswerKeepsRecords(h, s.tables, k, e);
      } else {
        assert (h + [e])[|h|] == e;
      }
    }
    forall other | other in flights ensures ClaimFresh(h + [e], t, flights[other]) {
      if other != id {
        assert ClaimFresh(h, s.tables, s.flights[other]);
      }
    }
  }

  /** A replay repeats what the recording submission was told. */
  lemma ReplayKeeps(h: seq<Told>, s: State, id: nat, k: string)
    requires Inv(h, s) && id in s.flights && k in s.tables.replays
    requires s.flights[id].sub.idempotencyKey == Some(k) && s.tables.replays[k].content == s.flights[id].sub.events
    ensures var sub := s.flights[id].sub;
      var answer := Replayed(s.tables.replays[k].body);
      Inv(h + [Told(sub, answer)], State(s.tables, s.flights[id := Flight(sub, Answered(answer))]))
  {
    var sub := s.flights[id].sub;
    var e := Told(sub, Replayed(s.tables.replays[k].body));
    var flights := s.flights[id := Flight(sub, Answered(e.answer))];
    assert RecordTold(h, s.tables, k);
    AnswerKeepsRepeats(h, e);
    forall l | l in s.tables.replays ensures RecordTold(h + [e], s.tables, l) {
      AnswerKeepsRecords(h, s.tables, l, e);
    }
    forall other | other in flights ensures ClaimFresh(h + [e], s.tables, flights[other]) {
      if other != id {
        assert ClaimFresh(h, s.tables, s.flights[other]);
      }
    }
  }

  /** Every statement but the replay lookup and the response is quiet. */
  lemma TickIsQuiet(ck: Checks, t: Tables, sub: Submission, phase: Phase, choice: nat)
    requires !phase.Responding? && !phase.CheckReplay? && !phase.Answered?
    ensures var (t', next) := TickOne(ck, t, sub, phase, choice);
            && t.batches <= t'.batches && t'.replays == t.replays
            && (forall row :: Claims(Flight(sub, next), row) ==> row == |t.batches| && Stores(t', row, sub.events))
            && (next.Answered? ==> !next.answer.Reported? && !next.answer.Replayed?)
  {
    match phase {
      case Verifying(p) =>
        assert VerifyTick(ck, t, sub, p, choice).Verifying? || VerifyTick(ck, t, sub, p, choice).Persisting?;
      case _ =>
    }
  }

  lemma TickKeepsInv(ck: Checks, h: seq<Told>, s: State, id: nat, choice: nat)
    requires Inv(h, s) && id in s.flights
    ensures Inv(h + AnswersOf(ck, s, Tick(id, choice)), Step(ck, s, Tick(id, choice)))
  {
    var f := s.flights[id];
    var (t, next) := TickOne(ck, s.tables, f.sub, f.phase, choice);
    var told := AnswersOf(ck, s, Tick(id, choice));
    if f.phase.Responding? {
      RespondKeeps(h, s, id, f.phase.body);
    } else if f.phase.CheckReplay? && next.Answered? && next.answer.Replayed? {
      ReplayKeeps(h, s, id, f.sub.idempotencyKey.value);
    } else {
      if !f.phase.CheckReplay? && !f.phase.Answered? {
        TickIsQuiet(ck, s.tables, f.sub, f.phase, choice);
      }
      QuietTickKeeps(h, s, id, t, Flight(f.sub, next), told);
    }
  }

  lemma StepKeepsInv(ck: Checks, h: seq<Told>, s: State, a: Action)
    requires Inv(h, s)
    ensures Inv(h + AnswersOf(ck, s, a), Step(ck, s, a))
  {
    if a.Tick? && a.id in s.flights {
      TickKeepsInv(ck, h, s, a.id, a.choice);
    } else {
      assert h + AnswersOf(ck, s, a) == h;
    }
  }

  lemma {:induction false} HistoryKeepsInv(ck: Checks, actions: seq<Action>)
    ensures Inv(History(ck, actions), Run(ck, INIT, actions))
    decreases |actions|
  {
    if actions != [] {
      var n := |actions| - 1;
      HistoryKeepsInv(ck, actions[..n]);
      StepKeepsInv(ck, History(ck, actions[..n]), Run(ck, INIT, actions[..n]), actions[n]);
    }
  }

  /** Over the whole history of a run, a row is reported as created first-hand at most once, to a submission
      whose own events it stores; and every other report of its creation is a later replay to a submission
      with the same Idempotency-Key and the same content. */
  lemma CreatedIsReportedOnce(ck: Checks, actions: seq<Action>, i: nat, j: nat, row: nat)
    requires i < |History(ck, actions)| && j < |History(ck, actions)|
    ensures var h, t := History(ck, actions), Run(ck, INIT, actions).tables;
      && (FirstHand(h[i], row) && FirstHand(h[j], row) ==> i == j)
      && (FirstHand(h[i], row) ==> Stores(t, row, h[i].sub.events))
      && (FirstHand(h[i], row) && SecondHand(h[j], row) ==> i < j && SameRequest(h[i].sub, h[j].sub))
      && (SecondHand(h[j], row) ==> RepeatsEarlier(h, j, row))
  {
    HistoryKeepsInv(ck, actions);
    var h := History(ck, actions);
    FirstHandIsOne(h, i, j, row);
    SecondHandIsLater(h, i, j, row);
  }

  lemma FirstHandIsOne(h: seq<Told>, i: nat, j: nat, row: nat)
    requires FirstHandApart(h) && i < |h| && j < |h|
    ensures FirstHand(h[i], row) && FirstHand(h[j], row) ==> i == j
  {
  }

  lemma SecondHandIsLater(h: seq<Told>, i: nat, j: nat, row: nat)
    requires FirstHandApart(h) && SecondHandRepeats(h) && i < |h| && j < |h|
    ensures SecondHand(h[j], row) ==> RepeatsEarlier(h, j, row)
    ensures FirstHand(h[i], row) && SecondHand(h[j], row) ==> i < j && SameRequest(h[i].sub, h[j].sub)
  {
    if FirstHand(h[i], row) && SecondHand(h[j], row) {
      assert RepeatsEarlier(h, j, row);
      var k :| 0 <= k < j && FirstHand(h[k], row) && SameRequest(h[k].sub, h[j].sub);
      FirstHandIsOne(h, i, k, row);
    }
  }

  // ---- Reusing an Idempotency-Key ----

  /** The key is recorded for other content. */
  predicate KeyTakenByOther(t: Tables, sub: Submission) {
    sub.idempotencyKey.Some? && sub.idempotencyKey.value in t.replays
    && t.replays[sub.idempotencyKey.value].content != sub.events
  }

  /** Not waiting for the key check any more, and not refused by it. */
  predicate PastKeyCheck(phase: Phase) {
    !phase.CheckKey? && !phase.CheckReplay? && phase != Answered(ReplayConflict)
  }

  lemma TickStaysPastKeyCheck(ck: Checks, t: Tables, sub: Submission, phase: Phase, choice: nat)
    requires PastKeyCheck(phase)
    ensures PastKeyCheck(TickOne(ck, t, sub, phase, choice).1)
  {
    match phase {
      case Verifying(p) =>
        assert VerifyTick(ck, t, sub, p, choice).Verifying? || VerifyTick(ck, t, sub, p, choice).Persisting?;
      case _ =>
    }
  }

  /** A submission that passed its key check is never answered an Idempotency-Key conflict again, whatever is
      recorded for its key afterwards. */
  lemma {:induction false} PastKeyCheckIsNeverRefused(ck: Checks, s: State, actions: seq<Action>, id: nat)
    requires id in s.flights && PastKeyCheck(s.flights[id].phase) && Abort(id) !in actions
    ensures id in Run(ck, s, actions).flights && PastKeyCheck(Run(ck, s, actions).flights[id].phase)
    decreases |actions|
  {
    if actions != [] {
      var n := |actions| - 1;
      PastKeyCheckIsNeverRefused(ck, s, actions[..n], id);
      var r, a := Run(ck, s, actions[..n]), actions[n];
      assert a != Abort(id);
      if a.Tick? && a.id == id {
        TickStaysPastKeyCheck(ck, r.tables, r.flights[id].sub, r.flights[id].phase, a.choice);
      }
    }
  }

  lemma {:induction false} AnswerStays(ck: Checks, s: State, actions: seq<Action>, id: nat)
    requires id in s.flights && s.flights[id].phase.Answered? && Abort(id) !in actions
    ensures id in Run(ck, s, actions).flights && Run(ck, s, actions).flights[id] == s.flights[id]
    decreases |actions|
  {
    if actions != [] {
      var n := |actions| - 1;
      AnswerStays(ck, s, actions[..n], id);
      assert actions[n] != Abort(id);
    }
  }

  /** From its key check on, whatever else happens, a submission is answered an Idempotency-Key conflict exactly
      when its key was recorded for other content before that check. */
  lemma ReuseIsRefusedIff(ck: Checks, s: State, id: nat, choice: nat, after: seq<Action>)
    requires id in s.flights && s.flights[id].phase.CheckReplay? && Abort(id) !in after
    ensures var r := Run(ck, s, [Tick(id, choice)] + after);
      && id in r.flights
      && (r.flights[id].phase == Answered(ReplayConflict) <==> KeyTakenByOther(s.tables, s.flights[id].sub))
  {
    var checked := Step(ck, s, Tick(id, choice));
    RunCompose(ck, s, [Tick(id, choice)], after);
    assert [Tick(id, choice)][..0] == [];
    assert Run(ck, s, [Tick(id, choice)]) == checked;
    if checked.flights[id].phase.Answered? {
      AnswerStays(ck, checked, after, id);
    } else {
      PastKeyCheckIsNeverRefused(ck, checked, after, id);
    }
  }

  /** Before the key check, or refused by it or by the signing-key check before it. */
  predicate NotPastKeyCheck(phase: Phase) {
    phase.CheckKey? || phase.CheckReplay? || phase == Answered(ReplayConflict) || phase == Answered(KeyConflict)
  }

  /** A submission that finds its key recorded for other content, however many others escaped, can only wait
      or be refused. */
  lemma {:induction false} RecordedKeyIsRefused(ck: Checks, s: State, actions: seq<Action>, id: nat)
    requires id in s.flights && NotPastKeyCheck(s.flights[id].phase) && Abort(id) !in actions
    requires KeyTakenByOther(s.tables, s.flights[id].sub)
    ensures var r := Run(ck, s, actions);
      && id in r.flights && r.flights[id].sub == s.flights[id].sub && NotPastKeyCheck(r.flights[id].phase)
      && KeyTakenByOther(r.tables, r.flights[id].sub)
    decreases |actions|
  {
    if actions != [] {
      var n := |actions| - 1;
      RecordedKeyIsRefused(ck, s, actions[..n], id);
      var r, a := Run(ck, s, actions[..n]), actions[n];
      assert a != Abort(id);
      if a.Tick? && a.id in r.flights {
        TickExtends(ck, r.tables, r.flights[a.id].sub, r.flights[a.id].phase, a.choice);
      }
    }
  }

  // ---- Mismatch answers ----

  /** A submission that is or will be told of a mismatch does not start at the head it is told. */
  ghost predicate MismatchTrue(t: Tables, f: Flight) {
    && (f.phase.Recheck? ==> f.phase.expected != f.sub.firstPrev)
    && (f.phase.LostSlot? ==> SlotTaken(t.batches, f.sub.firstPrev))
    && (f.phase.Answered? && f.phase.answer.Mismatch? ==> f.phase.answer.expected != f.sub.firstPrev)
  }

  lemma MismatchStaysTrue(t: Tables, t': Tables, f: Flight)
    requires MismatchTrue(t, f) && t.batches <= t'.batches
    ensures MismatchTrue(t', f)
  {
    if f.phase.LostSlot? {
      var i :| 0 <= i < |t.batches| && t.batches[i].VerifiedBatch? && t.batches[i].firstPrev == f.sub.firstPrev;
      assert t'.batches[i] == t.batches[i];
    }
  }

  /** The head read after a lost slot is past the slot that was lost. */
  lemma LostSlotIsPast(ck: Checks, t: Tables, sub: Submission, choice: nat)
    requires TablesInv(ck, t) && SlotTaken(t.batches, sub.firstPrev)
    ensures ChainHead(t.batches, choice) != sub.firstPrev
  {
    ChainHeadIsHead(t.batches, choice);
    HeadSlotIsFree(t.batches);
  }

  lemma TickKeepsMismatch(ck: Checks, t: Tables, sub: Submission, phase: Phase, choice: nat)
    requires TablesInv(ck, t) && MismatchTrue(t, Flight(sub, phase))
    ensures var (t', next) := TickOne(ck, t, sub, phase, choice); MismatchTrue(t', Flight(sub, next))
  {
    if phase.LostSlot? {
      LostSlotIsPast(ck, t, sub, choice);
    } else if phase.Verifying? {
      var next := VerifyTick(ck, t, sub, phase.progress, choice);
      assert next.Verifying? || next.Persisting?;
    }
  }

  /** In every run, a submission told of a mismatch is told a head that is not its own start, also after a lost
      slot: resynchronizing never leads back to the same batch. */
  lemma {:induction false} MismatchIsTrue(ck: Checks, actions: seq<Action>, id: nat)
    requires id in Run(ck, INIT, actions).flights
    ensures MismatchTrue(Run(ck, INIT, actions).tables, Run(ck, INIT, actions).flights[id])
    decreases |actions|
  {
    if actions != [] {
      var n := |actions| - 1;
      var s, a := Run(ck, INIT, actions[..n]), actions[n];
      if id in s.flights {
        MismatchIsTrue(ck, actions[..n], id);
      }
      if a.Tick? && a.id in s.flights {
        RunKeepsInv(ck, actions[..n]);
        MismatchStep(ck, s, a, id);
      }
    }
  }

  lemma MismatchStep(ck: Checks, s: State, a: Action, id: nat)
    requires a.Tick? && a.id in s.flights && id in s.flights && TablesInv(ck, s.tables)
    requires MismatchTrue(s.tables, s.flights[id])
    ensures var r := Step(ck, s, a); MismatchTrue(r.tables, r.flights[id])
  {
    var f := s.flights[a.id];
    if a.id == id {
      TickKeepsMismatch(ck, s.tables, f.sub, f.phase, a.choice);
    } else {
      TickExtends(ck, s.tables, f.sub, f.phase, a.choice);
      MismatchStaysTrue(s.tables, Step(ck, s, a).tables, s.flights[id]);
    }
  }
}
