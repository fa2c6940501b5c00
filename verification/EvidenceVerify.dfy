/**
 Server-side verification of a submitted batch
 (igris-overture/api/evidence_verify.go, verifyEvidenceEvents).

 `Verify` is the loop as a function, one `Advance` per event, so that the ingestion
 protocol can interleave other work between events. `Acceptable` says what a good batch
 is without mentioning the loop.
 */
module EvidenceVerify {
  import opened Options
  import opened EvidenceEvents

  /** Issue codes, in the alphabetical order of their names. */
  datatype Code =
    | BadSignature
    | ChainBreak
    | HashMismatch
    | InvalidField
    | InvalidTimestamp
    | InvalidTransition
    | MissingFields
    | UnknownDecisionReference
    | UnknownEventType
    | UnknownKey
    | UnknownSchema

  datatype Issue = Issue(index: nat, code: Code)

  /** What the stored-decision query answers: no row, a row's decision value, or an error. */
  datatype Lookup = NoRow | Row(decision: Text) | Failed

  const MAX_ISSUES := 20

  const SHARED_FIELDS := {
    SchemaVersionField, EventTypeField, EventIdField, ActionIdField, ActionNameField,
    ContractHashField, TimestampUtcField, KeyIdField, EventHashField, SignatureField,
    PreviousEventHashField}
  const DECISION_FIELDS := {DecisionField, RiskField, ApprovalModeField, RedactedInputSummaryField, InputHashField}
  const OUTCOME_FIELDS := {StatusField, DecisionEventIdField}

  // ---- Shape of one event ----

  predicate HasAll(e: Event, names: set<Field>) {
    names <= e.Keys
  }

  predicate HasRequired(e: Event) {
    HasAll(e, SHARED_FIELDS) && HasAll(e, if IsDecision(e) then DECISION_FIELDS else OUTCOME_FIELDS)
  }

  predicate IsText(e: Event, name: Field) { TextField(e, name).Some? }

  predicate NullOrText(e: Event, name: Field) { name in e && (e[name].Null? || e[name].Str?) }

  /** The first structural failure, which ends verification of the whole batch. */
  function ShapeIssue(ck: Checks, e: Event): Option<Code> {
    if TextOrEmpty(e, SchemaVersionField) != Plain("1") then Some(UnknownSchema)
    else if !IsDecision(e) && !IsOutcome(e) then Some(UnknownEventType)
    else if !HasRequired(e) then Some(MissingFields)
    else if !IsText(e, EventHashField) || !HashShaped(SubmittedHash(e)) then Some(InvalidField)
    else if !IsText(e, SignatureField) then Some(InvalidField)
    else if !IsText(e, EventIdField) || !IsText(e, ActionNameField) || !IsText(e, ContractHashField)
            || !IsText(e, KeyIdField) || !IsText(e, TimestampUtcField)
            || EventId(e) == Plain("") || TextLength(EventId(e)) > MAX_EVENT_ID_CHARS then Some(InvalidField)
    else if !ck.actionName(TextOrEmpty(e, ActionNameField))
            || !HashShaped(TextOrEmpty(e, ContractHashField)) then Some(InvalidField)
    else if !NullOrText(e, PreviousEventHashField) then Some(InvalidField)
    else if !ck.timestamp(TextOrEmpty(e, TimestampUtcField)) then Some(InvalidTimestamp)
    else None
  }

  // ---- Loop state that decides later events ----

  datatype Track = Track(
    index: nat,
    expectedPrev: Option<Text>,
    decisions: map<Text, Text>,
    outcomes: set<Text>)

  predicate ValidDecision(v: Text) { v == Plain("allowed") || v == Plain("denied") }
  predicate ValidStatus(v: Text) { v == Plain("succeeded") || v == Plain("failed") }

  predicate NeedsLookup(tr: Track, e: Event) {
    !IsDecision(e) && DecisionRef(e) != Plain("") && DecisionRef(e) !in tr.decisions
  }

  /** The decision an outcome refers to: this batch's, else a stored one. */
  function Resolve(tr: Track, ref: Text, answer: Lookup): Option<Text> {
    if ref in tr.decisions then Some(tr.decisions[ref])
    else if answer.Row? then Some(answer.decision)
    else None
  }

  function LinkCodes(tr: Track, e: Event): seq<Code> {
    if PreviousHash(e) != tr.expectedPrev then [ChainBreak] else []
  }

  function HashCodes(e: Event): seq<Code> {
    if RecomputedHash(e) != SubmittedHash(e) then [HashMismatch] else []
  }

  function SignatureCodes(ck: Checks, key: nat, e: Event): seq<Code> {
    if TextOrEmpty(e, KeyIdField) != ck.keyId then [UnknownKey]
    else if !ck.signed(key, RecomputedHash(e), TextOrEmpty(e, SignatureField)) then [BadSignature]
    else []
  }

  function ReferenceCodes(tr: Track, e: Event, answer: Lookup): seq<Code> {
    var ref := DecisionRef(e);
    if ref == Plain("") then [InvalidField]
    else
      var decision := Resolve(tr, ref, answer);
      if decision.None? then [UnknownDecisionReference]
      else if decision.value == Plain("denied") then [InvalidTransition]
      else if ref in tr.outcomes then [InvalidTransition]
      else []
  }

  function TransitionCodes(tr: Track, e: Event, answer: Lookup): seq<Code> {
    if IsDecision(e) then
      if !ValidDecision(DecisionValue(e)) then [InvalidField] else []
    else
      (if !ValidStatus(TextOrEmpty(e, StatusField)) then [InvalidField] else [])
      + ReferenceCodes(tr, e, answer)
  }

  /** All codes one well-shaped event earns. */
  function Codes(ck: Checks, key: nat, tr: Track, e: Event, answer: Lookup): seq<Code> {
    LinkCodes(tr, e) + HashCodes(e) + SignatureCodes(ck, key, e) + TransitionCodes(tr, e, answer)
  }

  function NextTrack(tr: Track, e: Event, answer: Lookup): Track {
    Track(
      tr.index + 1,
      Some(SubmittedHash(e)),
      if IsDecision(e) && ValidDecision(DecisionValue(e)) then tr.decisions[EventId(e) := DecisionValue(e)]
      else tr.decisions,
      if !IsDecision(e) && ReferenceCodes(tr, e, answer) == [] then tr.outcomes + {DecisionRef(e)}
      else tr.outcomes)
  }

  function StartTrack(firstPrev: Option<Text>): Track {
    Track(0, firstPrev, map[], {})
  }

  // ---- The loop ----

  datatype Progress = Progress(track: Track, issues: seq<Issue>, verified: seq<Event>)

  datatype Verdict = Accepted(verified: seq<Event>) | Rejected(issues: seq<Issue>) | LookupFailed

  datatype Iteration = Continue(progress: Progress) | Stop(verdict: Verdict)

  function AddIssue(issues: seq<Issue>, index: nat, code: Code): seq<Issue> {
    if |issues| < MAX_ISSUES then issues + [Issue(index, code)] else issues
  }

  function AddIssues(issues: seq<Issue>, index: nat, codes: seq<Code>): seq<Issue>
    decreases |codes|
  {
    if codes == [] then issues
    else AddIssues(AddIssue(issues, index, codes[0]), index, codes[1..])
  }

  function Start(firstPrev: Option<Text>): Progress {
    Progress(StartTrack(firstPrev), [], [])
  }

  /** One iteration: the event at the progress's index, given the answer its lookup got. */
  function Advance(ck: Checks, key: nat, e: Event, p: Progress, answer: Lookup): Iteration {
    var shape := ShapeIssue(ck, e);
    if shape.Some? then
      Stop(Rejected(AddIssue(p.issues, p.track.index, shape.value)))
    else if NeedsLookup(p.track, e) && answer.Failed? then
      Stop(LookupFailed)
    else
      var codes := Codes(ck, key, p.track, e, answer);
      Continue(Progress(
        NextTrack(p.track, e, answer),
        AddIssues(p.issues, p.track.index, codes),
        if codes == [] then p.verified + [e] else p.verified))
  }

  function Finish(p: Progress): Verdict {
    if p.issues == [] then Accepted(p.verified) else Rejected(p.issues)
  }

  function VerifyFrom(ck: Checks, key: nat, events: seq<Event>, p: Progress, lookup: Text -> Lookup): Verdict
    decreases |events| - p.track.index
  {
    if p.track.index >= |events| then Finish(p)
    else
      var e := events[p.track.index];
      match Advance(ck, key, e, p, lookup(DecisionRef(e)))
      case Stop(verdict) => verdict
      case Continue(next) => VerifyFrom(ck, key, events, next, lookup)
  }

  function Verify(ck: Checks, key: nat, events: seq<Event>, firstPrev: Option<Text>, lookup: Text -> Lookup): Verdict {
    VerifyFrom(ck, key, events, Start(firstPrev), lookup)
  }

  /** Event-type transition semantics of one iteration; `failed` is the query-error exit. */
  method CheckTransition(event: Event, tr: Track, lookup: Text -> Lookup)
    returns (codes: seq<Code>, batchDecisions: map<Text, Text>, outcomesSeen: set<Text>, failed: bool)
    ensures failed <==> NeedsLookup(tr, event) && lookup(DecisionRef(event)).Failed?
    ensures !failed ==> codes == TransitionCodes(tr, event, lookup(DecisionRef(event)))
    ensures !failed ==>
      NextTrack(tr, event, lookup(DecisionRef(event)))
      == Track(tr.index + 1, Some(SubmittedHash(event)), batchDecisions, outcomesSeen)
  {
    codes, batchDecisions, outcomesSeen, failed := [], tr.decisions, tr.outcomes, false;
    if IsDecision(event) {
      var decision := DecisionValue(event);
      if !ValidDecision(decision) {
        codes := [InvalidField];
      } else {
        batchDecisions := batchDecisions[EventId(event) := decision];
      }
      return;
    }
    if !ValidStatus(TextOrEmpty(event, StatusField)) {
      codes := [InvalidField];
    }
    var ref := DecisionRef(event);
    if ref == Plain("") {
      codes := codes + [InvalidField];
      return;
    }
    var decision := if ref in batchDecisions then Some(batchDecisions[ref]) else None;
    if decision.None? {
      match lookup(ref) {
        case Row(value) => decision := Some(value);
        case NoRow =>
        case Failed =>
          failed := true;
          return;
      }
    }
    if decision.None? {
      codes := codes + [UnknownDecisionReference];
    } else if decision.value == Plain("denied") {
      codes := codes + [InvalidTransition];
    } else if ref in outcomesSeen {
      codes := codes + [InvalidTransition];
    } else {
      outcomesSeen := outcomesSeen + {ref};
    }
  }

  /** One iteration of the verification loop. */
  method CheckEvent(ck: Checks, key: nat, event: Event, p: Progress, lookup: Text -> Lookup) returns (step: Iteration)
    ensures step == Advance(ck, key, event, p, lookup(DecisionRef(event)))
  {
    var shape := ShapeIssue(ck, event);
    if shape.Some? {
      return Stop(Rejected(AddIssue(p.issues, p.track.index, shape.value)));
    }
    var transition, batchDecisions, outcomesSeen, failed := CheckTransition(event, p.track, lookup);
    if failed {
      return Stop(LookupFailed);
    }
    var codes := LinkCodes(p.track, event) + HashCodes(event) + SignatureCodes(ck, key, event) + transition;
    step := Continue(Progress(
      Track(p.track.index + 1, Some(SubmittedHash(event)), batchDecisions, outcomesSeen),
      AddIssues(p.issues, p.track.index, codes),
      if codes == [] then p.verified + [event] else p.verified));
  }

  /** verifyEvidenceEvents: the whole loop. */
  method VerifyEvidenceEvents(ck: Checks, key: nat, events: seq<Event>, firstPrev: Option<Text>, lookup: Text -> Lookup)
    returns (verdict: Verdict)
    ensures verdict == Verify(ck, key, events, firstPrev, lookup)
  {
    var p := Start(firstPrev);
    while p.track.index < |events|
      invariant VerifyFrom(ck, key, events, p, lookup) == Verify(ck, key, events, firstPrev, lookup)
      decreases |events| - p.track.index
    {
      var step := CheckEvent(ck, key, events[p.track.index], p, lookup);
      match step {
        case Stop(v) => return v;
        case Continue(next) => p := next;
      }
    }
    verdict := if |p.issues| > 0 then Rejected(p.issues) else Accepted(p.verified);
  }
}
