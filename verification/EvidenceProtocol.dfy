/**
 Evidence ingestion as a protocol: any number of submissions to one stream, each advancing
 through handleEvidenceBatchSubmit one database statement at a time (one loop iteration at a
 time during verification), interleaved arbitrarily, any of them failing at any point.
 */
module EvidenceProtocol {
  import opened Options
  import opened EvidenceEvents
  import opened EvidenceVerify
  import opened EvidenceAcceptance
  import opened EvidenceTables
  import opened EvidenceChain
  import opened Sequences

  datatype Answer =
    | KeyConflict
    | ReplayConflict
    | Replayed(body: Body)
    | Mismatch(expected: Option<Text>)
    | Reported(body: Body)
    | DbError

  /** Where a submission is in the handler; the payload is its local variables. */
  datatype Phase =
    | CheckKey
    | CheckReplay
    | CheckContent
    | CheckHead
    | Recheck(expected: Option<Text>)
    | Verifying(progress: Progress)
    | Persisting(verdict: Verdict)
    | LostSlot
    | Responding(body: Body)
    | Answered(answer: Answer)

  datatype Flight = Flight(sub: Submission, phase: Phase)

  datatype State = State(tables: Tables, flights: map<nat, Flight>)

  /** `choice` resolves which row an unordered or tied LIMIT 1 returns. */
  datatype Action =
    | Submit(id: nat, sub: Submission)
    | Tick(id: nat, choice: nat)
    | Abort(id: nat)

  function RecordReplay(t: Tables, sub: Submission, body: Body): Tables {
    if sub.idempotencyKey.None? || sub.idempotencyKey.value in t.replays then t
    else t.(replays := t.replays[sub.idempotencyKey.value := Replay(sub.events, body)])
  }

  /** The lookup against Idempotency-Key records. */
  function ReplayCheck(t: Tables, sub: Submission): Phase {
    if sub.idempotencyKey.None? || sub.idempotencyKey.value !in t.replays then CheckContent
    else
      var record := t.replays[sub.idempotencyKey.value];
      if record.content != sub.events then Answered(ReplayConflict) else Answered(Replayed(record.body))
  }

  function AfterPersist(outcome: Outcome): Phase {
    match outcome
    case Inserted(row) => Responding(Body(row, true))
    case Raced(row) => Responding(Body(row, false))
    case SlotLost => LostSlot
    case KeyTaken => Answered(KeyConflict)
    case QueryFailed => Answered(DbError)
  }

  function VerifyTick(ck: Checks, t: Tables, sub: Submission, p: Progress, choice: nat): Phase {
    if p.track.index < |sub.events| then
      var e := sub.events[p.track.index];
      match Advance(ck, sub.key, e, p, StoredDecision(t.events, DecisionRef(e), choice))
      case Continue(next) => Verifying(next)
      case Stop(verdict) => Persisting(verdict)
    else
      Persisting(Finish(p))
  }

  /** One statement of the handler for one submission. */
  function TickOne(ck: Checks, t: Tables, sub: Submission, phase: Phase, choice: nat): (Tables, Phase) {
    match phase
    case CheckKey =>
      (t, if t.key.Some? && t.key.value != sub.key then Answered(KeyConflict) else CheckReplay)
    case CheckReplay => (t, ReplayCheck(t, sub))
    case CheckContent =>
      var row := FindContent(t.batches, sub.events);
      (t, if row.Some? then Responding(Body(row.value, false)) else CheckHead)
    case CheckHead =>
      var expected := ChainHead(t.batches, choice);
      (t, if sub.firstPrev == expected then Verifying(Start(sub.firstPrev)) else Recheck(expected))
    case Recheck(expected) =>
      var row := FindContent(t.batches, sub.events);
      (t, if row.Some? then Responding(Body(row.value, false)) else Answered(Mismatch(expected)))
    case Verifying(p) => (t, VerifyTick(ck, t, sub, p, choice))
    case Persisting(verdict) =>
      var (t', outcome) := Persist(t, sub, verdict);
      (t', AfterPersist(outcome))
    case LostSlot => (t, Answered(Mismatch(ChainHead(t.batches, choice))))
    case Responding(body) => (RecordReplay(t, sub, body), Answered(Reported(body)))
    case Answered(_) => (t, phase)
  }

  function Step(ck: Checks, s: State, a: Action): State {
    match a
    case Submit(id, sub) =>
      if id in s.flights || !Decodes(sub) then s
      else s.(flights := s.flights[id := Flight(sub, CheckKey)])
    case Tick(id, choice) =>
      if id !in s.flights then s
      else
        var f := s.flights[id];
        var (t, phase) := TickOne(ck, s.tables, f.sub, f.phase, choice);
        State(t, s.flights[id := Flight(f.sub, phase)])
    case Abort(id) => s.(flights := s.flights - {id})
  }

  const INIT := State(EMPTY, map[])

  function Run(ck: Checks, s: State, actions: seq<Action>): State {
    if actions == [] then s
    else Step(ck, Run(ck, s, actions[..|actions| - 1]), actions[|actions| - 1])
  }

  lemma {:induction false} RunCompose(ck: Checks, s: State, a: seq<Action>, b: seq<Action>)
    ensures Run(ck, s, a + b) == Run(ck, Run(ck, s, a), b)
    decreases |b|
  {
    if b == [] {
      assert a + b == a;
    } else {
      RunCompose(ck, s, a, b[..|b| - 1]);
      assert (a + b)[..|a + b| - 1] == a + b[..|b| - 1];
    }
  }

  // ---- Invariant ----

  /** A decision the loop remembers was made by an event it has passed. */
  ghost predicate DecisionsSeen(tr: Track, events: seq<Event>, i: nat)
    requires i <= |events|
  {
    forall id :: id in tr.decisions ==>
      exists j :: 0 <= j < i && IsDecision(events[j]) && EventId(events[j]) == id
              && DecisionValue(events[j]) == tr.decisions[id]
  }

  ghost predicate ProgressInv(ck: Checks, t: Tables, sub: Submission, p: Progress) {
    && StartsAtSomeHead(t.batches, sub.firstPrev)
    && p.track.index <= |sub.events|
    && (p.issues == [] ==>
         && p.verified == sub.events[..p.track.index]
         && p.track.expectedPrev == HeadAfter(sub.firstPrev, sub.events[..p.track.index])
         && DecisionsSeen(p.track, sub.events, p.track.index)
         && VerifiedRun(ck, sub.key, Stream(t.batches), sub.firstPrev, sub.events[..p.track.index]))
  }

  ghost predicate VerdictInv(ck: Checks, t: Tables, sub: Submission, verdict: Verdict) {
    verdict.Accepted? ==>
      && verdict.verified == sub.events
      && StartsAtSomeHead(t.batches, sub.firstPrev)
      && VerifiedRun(ck, sub.key, Stream(t.batches), sub.firstPrev, sub.events)
  }

  /** A reported row is the one that stores exactly the submitted content. */
  ghost predicate BodyInv(t: Tables, sub: Submission, body: Body) {
    body.row < |t.batches| && t.batches[body.row].content == sub.events
  }

  ghost predicate PhaseInv(ck: Checks, t: Tables, sub: Submission, phase: Phase) {
    match phase
    case Verifying(p) => ProgressInv(ck, t, sub, p)
    case Persisting(verdict) => VerdictInv(ck, t, sub, verdict)
    case Responding(body) => BodyInv(t, sub, body)
    case Answered(Reported(body)) => BodyInv(t, sub, body)
    case Answered(Replayed(body)) => BodyInv(t, sub, body)
    case _ => true
  }

  ghost predicate FlightInv(ck: Checks, t: Tables, f: Flight) {
    Decodes(f.sub) && PhaseInv(ck, t, f.sub, f.phase)
  }

  ghost predicate Inv(ck: Checks, s: State) {
    TablesInv(ck, s.tables) && forall id :: id in s.flights ==> FlightInv(ck, s.tables, s.flights[id])
  }

  // ---- Verification steps keep their invariant ----

  /** The event at i continues a verified run: sound, linked and grounded. */
  ghost predicate Continues(
    ck: Checks, key: nat, stream: seq<Event>, firstPrev: Option<Text>, events: seq<Event>, i: nat)
    requires i < |events|
  {
    && Sound(ck, key, events[i])
    && LinkAt(firstPrev, events, i)
    && (IsOutcome(events[i]) ==> Grounded(stream, events, i))
  }

  /** An event without any code is sound, linked and grounded. */
  lemma CleanEvent(ck: Checks, t: Tables, sub: Submission, p: Progress, choice: nat)
    requires TablesInv(ck, t) && ProgressInv(ck, t, sub, p)
    requires p.track.index < |sub.events| && p.issues == []
    requires ShapeIssue(ck, sub.events[p.track.index]).None?
    requires var e := sub.events[p.track.index];
             Codes(ck, sub.key, p.track, e, StoredDecision(t.events, DecisionRef(e), choice)) == []
    ensures Continues(ck, sub.key, Stream(t.batches), sub.firstPrev, sub.events, p.track.index)
  {
    var e := sub.events[p.track.index];
    ShapeIssueIsWellShaped(ck, e);
    if IsOutcome(e) {
      var ref := DecisionRef(e);
      if ref in p.track.decisions {
        assert Sound(ck, sub.key, e);
        SeenDecisionIsAllowed(ck, t, sub, p, ref);
      } else {
        StoredDecisionIsAllowed(ck, t, ref, choice);
      }
    }
  }

  lemma SeenDecisionIsAllowed(ck: Checks, t: Tables, sub: Submission, p: Progress, ref: Text)
    requires ProgressInv(ck, t, sub, p) && p.issues == []
    requires ref in p.track.decisions && p.track.decisions[ref] != Plain("denied")
    ensures AllowedBefore(sub.events, p.track.index, ref)
  {
    var j :| 0 <= j < p.track.index && IsDecision(sub.events[j]) && EventId(sub.events[j]) == ref
          && DecisionValue(sub.events[j]) == p.track.decisions[ref];
    assert Sound(ck, sub.key, sub.events[..p.track.index][j]);
  }

  lemma StoredDecisionIsAllowed(ck: Checks, t: Tables, ref: Text, choice: nat)
    requires TablesInv(ck, t)
    requires StoredDecision(t.events, ref, choice).Row?
    requires StoredDecision(t.events, ref, choice).decision != Plain("denied")
    ensures AllowedBefore(Stream(t.batches), |Stream(t.batches)|, ref)
  {
    StreamRowsAreStream(t.batches);
    var k := if choice < |t.events| && IsDecisionRow(t.events[choice], ref) then choice
             else LastDecisionRow(t.events, ref).value;
    assert IsDecisionRow(t.events[k], ref);
    assert Sound(ck, t.key.value, Stream(t.batches)[k]);
  }

  lemma VerifiedRunSnoc(ck: Checks, key: nat, stream: seq<Event>, firstPrev: Option<Text>, events: seq<Event>, i: nat)
    requires i < |events| && VerifiedRun(ck, key, stream, firstPrev, events[..i])
    requires Continues(ck, key, stream, firstPrev, events, i)
    ensures VerifiedRun(ck, key, stream, firstPrev, events[..i + 1])
  {
    var done := events[..i + 1];
    forall k | 0 <= k < |done|
      ensures LinkAt(firstPrev, done, k)
      ensures Sound(ck, key, done[k])
      ensures IsOutcome(done[k]) ==> Grounded(stream, done, k)
    {
      assert done[..k] == events[..i][..k];
      assert k < i ==> done[k] == events[..i][k] && LinkAt(firstPrev, events[..i], k);
      if IsOutcome(done[k]) {
        if k < i {
          assert Grounded(stream, events[..i], k);
        }
        GroundedPrefix(stream, events, done, if k < i then events[..i] else events, k);
      }
    }
  }

  /** Whether an event is grounded depends only on the events before it. */
  lemma GroundedPrefix(stream: seq<Event>, events: seq<Event>, done: seq<Event>, from: seq<Event>, k: nat)
    requires k < |done| <= |events| && k < |from| <= |events|
    requires done == events[..|done|] && from == events[..|from|]
    requires Grounded(stream, from, k)
    ensures Grounded(stream, done, k)
  {
    var ref := DecisionRef(from[k]);
    if AllowedBefore(from, k, ref) {
      var j :| 0 <= j < k && IsDecision(from[j]) && EventId(from[j]) == ref
              && DecisionValue(from[j]) == Plain("allowed");
      assert done[j] == from[j];
    }
  }

  lemma NextDecisionsSeen(tr: Track, events: seq<Event>, answer: Lookup)
    requires tr.index < |events| && DecisionsSeen(tr, events, tr.index)
    ensures DecisionsSeen(NextTrack(tr, events[tr.index], answer), events, tr.index + 1)
  {
  }

  /** The invariant moves on by one event that continues the run. */
  lemma ProgressSnoc(ck: Checks, t: Tables, sub: Submission, p: Progress, next: Track)
    requires ProgressInv(ck, t, sub, p) && p.track.index < |sub.events| && p.issues == []
    requires Continues(ck, sub.key, Stream(t.batches), sub.firstPrev, sub.events, p.track.index)
    requires next.index == p.track.index + 1 && next.expectedPrev == Some(SubmittedHash(sub.events[p.track.index]))
    requires DecisionsSeen(next, sub.events, next.index)
    ensures ProgressInv(ck, t, sub, Progress(next, [], p.verified + [sub.events[p.track.index]]))
  {
    PrefixSnoc(sub.events, p.track.index);
    VerifiedRunSnoc(ck, sub.key, Stream(t.batches), sub.firstPrev, sub.events, p.track.index);
  }

  /** An iteration that reports nothing extends the verified run by its event. */
  lemma CleanAdvanceKeeps(ck: Checks, t: Tables, sub: Submission, p: Progress, choice: nat)
    requires TablesInv(ck, t) && ProgressInv(ck, t, sub, p)
    requires p.track.index < |sub.events| && p.issues == []
    requires ShapeIssue(ck, sub.events[p.track.index]).None?
    requires var e := sub.events[p.track.index];
             Codes(ck, sub.key, p.track, e, StoredDecision(t.events, DecisionRef(e), choice)) == []
    ensures var e := sub.events[p.track.index];
            var track := NextTrack(p.track, e, StoredDecision(t.events, DecisionRef(e), choice));
            ProgressInv(ck, t, sub, Progress(track, [], p.verified + [e]))
  {
    var e := sub.events[p.track.index];
    var next := NextTrack(p.track, e, StoredDecision(t.events, DecisionRef(e), choice));
    CleanEvent(ck, t, sub, p, choice);
    NextDecisionsSeen(p.track, sub.events, StoredDecision(t.events, DecisionRef(e), choice));
    ProgressSnoc(ck, t, sub, p, next);
  }

  lemma VerifyTickKeeps(ck: Checks, t: Tables, sub: Submission, p: Progress, choice: nat)
    requires TablesInv(ck, t) && Decodes(sub) && ProgressInv(ck, t, sub, p)
    ensures PhaseInv(ck, t, sub, VerifyTick(ck, t, sub, p, choice))
  {
    if p.track.index < |sub.events| {
      var e := sub.events[p.track.index];
      var answer := StoredDecision(t.events, DecisionRef(e), choice);
      if ShapeIssue(ck, e).None? {
        var codes := Codes(ck, sub.key, p.track, e, answer);
        AddedIssues(p.issues, p.track.index, codes);
        if p.issues == [] && codes == [] {
          CleanAdvanceKeeps(ck, t, sub, p, choice);
        }
      }
    } else {
      assert sub.events[..|sub.events|] == sub.events;
    }
  }

  /** An issue once reported stays; an empty list means nothing was added. */
  lemma {:induction false} AddedIssues(issues: seq<Issue>, index: nat, codes: seq<Code>)
    ensures AddIssues(issues, index, codes) == [] ==> issues == [] && codes == []
    decreases |codes|
  {
    if codes != [] {
      AddedIssues(AddIssue(issues, index, codes[0]), index, codes[1..]);
    }
  }

  // ---- Every action keeps the invariant ----

  /** Rows and records are only ever added. */
  ghost predicate Extends(t: Tables, t': Tables) {
    && t.batches <= t'.batches
    && t.events <= t'.events
    && (t.key.Some? ==> t'.key == t.key)
    && (forall k :: k in t.replays ==> k in t'.replays && t'.replays[k] == t.replays[k])
  }

  lemma {:induction false} InsertEventsExtends(rows: seq<EventRow>, batch: nat, events: seq<Event>)
    ensures rows <= InsertEvents(rows, batch, events)
    decreases |events|
  {
    if events != [] {
      InsertEventsExtends(rows, batch, events[..|events| - 1]);
    }
  }

  lemma TickExtends(ck: Checks, t: Tables, sub: Submission, phase: Phase, choice: nat)
    ensures Extends(t, TickOne(ck, t, sub, phase, choice).0)
  {
    if phase.Persisting? && phase.verdict.Accepted? {
      InsertEventsExtends(t.events, |t.batches|, phase.verdict.verified);
    }
  }

  /** What a submission knows survives any commit by another one. */
  lemma PhaseStable(ck: Checks, t: Tables, t': Tables, sub: Submission, phase: Phase)
    requires PhaseInv(ck, t, sub, phase) && t.batches <= t'.batches
    ensures PhaseInv(ck, t', sub, phase)
  {
    StreamGrows(t'.batches, |t.batches|);
    assert t'.batches[..|t.batches|] == t.batches;
    match phase {
      case Verifying(p) =>
        StartsAtSomeHeadStable(t.batches, t'.batches, sub.firstPrev);
        if p.issues == [] {
          var done := sub.events[..p.track.index];
          VerifiedRunStable(ck, sub.key, Stream(t.batches), Stream(t'.batches), sub.firstPrev, done);
        }
      case Persisting(verdict) =>
        if verdict.Accepted? {
          StartsAtSomeHeadStable(t.batches, t'.batches, sub.firstPrev);
          VerifiedRunStable(ck, sub.key, Stream(t.batches), Stream(t'.batches), sub.firstPrev, sub.events);
        }
      case _ =>
    }
  }

  lemma TickKeepsTables(ck: Checks, t: Tables, sub: Submission, phase: Phase, choice: nat)
    requires TablesInv(ck, t) && Decodes(sub) && PhaseInv(ck, t, sub, phase)
    ensures TablesInv(ck, TickOne(ck, t, sub, phase, choice).0)
  {
    match phase {
      case Persisting(verdict) => PersistKeepsTables(ck, t, sub, verdict);
      case _ =>
    }
  }

  lemma TickKeepsPhase(ck: Checks, t: Tables, sub: Submission, phase: Phase, choice: nat)
    requires TablesInv(ck, t) && Decodes(sub) && PhaseInv(ck, t, sub, phase)
    ensures var (t', phase') := TickOne(ck, t, sub, phase, choice); PhaseInv(ck, t', sub, phase')
  {
    if phase.Verifying? {
      VerifyTickKeeps(ck, t, sub, phase.progress, choice);
    } else if phase.CheckHead? {
      HeadCheckKeeps(ck, t, sub, choice);
    } else if phase.Persisting? {
      PersistTickKeeps(ck, t, sub, phase.verdict, choice);
    }
  }

  lemma PersistTickKeeps(ck: Checks, t: Tables, sub: Submission, verdict: Verdict, choice: nat)
    ensures var (t', phase') := TickOne(ck, t, sub, Persisting(verdict), choice); PhaseInv(ck, t', sub, phase')
  {
  }

  lemma HeadCheckKeeps(ck: Checks, t: Tables, sub: Submission, choice: nat)
    requires TablesInv(ck, t)
    ensures sub.firstPrev == ChainHead(t.batches, choice) ==> ProgressInv(ck, t, sub, Start(sub.firstPrev))
  {
    ChainHeadIsHead(t.batches, choice);
    assert t.batches[..|t.batches|] == t.batches;
    assert sub.events[..0] == [];
  }

  lemma StepKeepsInv(ck: Checks, s: State, a: Action)
    requires Inv(ck, s)
    ensures Inv(ck, Step(ck, s, a))
  {
    if a.Tick? && a.id in s.flights {
      var f := s.flights[a.id];
      assert FlightInv(ck, s.tables, f);
      var s' := Step(ck, s, a);
      TickExtends(ck, s.tables, f.sub, f.phase, a.choice);
      TickKeepsTables(ck, s.tables, f.sub, f.phase, a.choice);
      TickKeepsPhase(ck, s.tables, f.sub, f.phase, a.choice);
      forall id | id in s'.flights ensures FlightInv(ck, s'.tables, s'.flights[id]) {
        if id != a.id {
          PhaseStable(ck, s.tables, s'.tables, s.flights[id].sub, s.flights[id].phase);
        }
      }
    }
  }

  lemma {:induction false} RunKeepsInv(ck: Checks, actions: seq<Action>)
    ensures Inv(ck, Run(ck, INIT, actions))
    decreases |actions|
  {
    if actions != [] {
      RunKeepsInv(ck, actions[..|actions| - 1]);
      StepKeepsInv(ck, Run(ck, INIT, actions[..|actions| - 1]), actions[|actions| - 1]);
    }
  }
}
