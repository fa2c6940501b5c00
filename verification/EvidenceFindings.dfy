/**
 Which code each failure of an evidence batch is reported under (igris-overture/api/evidence_verify.go,
 verifyEvidenceEvents), stated on the events themselves.
 */
module EvidenceFindings {
  import opened Options
  import opened EvidenceEvents
  import opened EvidenceVerify
  import opened EvidenceAcceptance

  // ---- What the events before position i say ----

  /** The hash that event i should name as its predecessor. */
  function PrevOf(events: seq<Event>, firstPrev: Option<Text>, i: nat): Option<Text>
    requires i <= |events|
  {
    if i == 0 then firstPrev else Some(SubmittedHash(events[i - 1]))
  }

  /** The latest decision on this id among the first i events that has one of the two values. */
  ghost function LatestDecision(events: seq<Event>, i: nat, id: Text): Option<Text>
    requires i <= |events|
  {
    if i == 0 then None
    else
      var e := events[i - 1];
      if IsDecision(e) && EventId(e) == id && DecisionValue(e) in {Plain("allowed"), Plain("denied")}
      then Some(DecisionValue(e))
      else LatestDecision(events, i - 1, id)
  }

  /** The decision an outcome at position i refers to: the batch's latest, else the stored one. */
  ghost function DecisionFor(events: seq<Event>, i: nat, lookup: Text -> Lookup, ref: Text): Option<Text>
    requires i <= |events|
  {
    var own := LatestDecision(events, i, ref);
    if own.Some? then own else if lookup(ref).Row? then Some(lookup(ref).decision) else None
  }

  /** Event i is the outcome that uses up its decision. */
  ghost predicate Uses(events: seq<Event>, i: nat, lookup: Text -> Lookup)
    requires i < |events|
  {
    var e := events[i];
    var ref := DecisionRef(e);
    && !IsDecision(e) && ref != Plain("")
    && DecisionFor(events, i, lookup, ref).Some? && DecisionFor(events, i, lookup, ref) != Some(Plain("denied"))
    && forall j :: 0 <= j < i && DecisionRef(events[j]) == ref ==> !Uses(events, j, lookup)
  }

  ghost predicate UsedBefore(events: seq<Event>, i: nat, lookup: Text -> Lookup, ref: Text)
    requires i <= |events|
  {
    exists j :: 0 <= j < i && DecisionRef(events[j]) == ref && Uses(events, j, lookup)
  }

  // ---- The codes ----

  /** What a well-shaped event is reported for. */
  ghost predicate Fault(
    ck: Checks, key: nat, events: seq<Event>, firstPrev: Option<Text>, lookup: Text -> Lookup, i: nat, code: Code)
    requires i < |events|
  {
    var e := events[i];
    var ref := DecisionRef(e);
    match code
    case ChainBreak => PreviousHash(e) != PrevOf(events, firstPrev, i)
    case HashMismatch => SubmittedHash(e) != RecomputedHash(e)
    case UnknownKey => TextOrEmpty(e, KeyIdField) != ck.keyId
    case BadSignature =>
      TextOrEmpty(e, KeyIdField) == ck.keyId && !ck.signed(key, RecomputedHash(e), TextOrEmpty(e, SignatureField))
    case InvalidField =>
      if IsDecision(e) then DecisionValue(e) !in {Plain("allowed"), Plain("denied")}
      else TextOrEmpty(e, StatusField) !in {Plain("succeeded"), Plain("failed")} || ref == Plain("")
    case UnknownDecisionReference =>
      !IsDecision(e) && ref != Plain("") && DecisionFor(events, i, lookup, ref).None?
    case InvalidTransition =>
      && !IsDecision(e) && ref != Plain("") && DecisionFor(events, i, lookup, ref).Some?
      && (DecisionFor(events, i, lookup, ref).value == Plain("denied") || UsedBefore(events, i, lookup, ref))
    case _ => false
  }

  predicate SchemaKnown(e: Event) { TextField(e, SchemaVersionField) == Some(Plain("1")) }
  predicate TypeKnown(e: Event) { TextField(e, EventTypeField) in {Some(Plain("decision")), Some(Plain("outcome"))} }

  /** Every field of its kind is there. */
  predicate Complete(e: Event) {
    && {SchemaVersionField, EventTypeField, EventIdField, ActionIdField, ActionNameField, ContractHashField,
        TimestampUtcField, KeyIdField, EventHashField, SignatureField, PreviousEventHashField} <= e.Keys
    && (if TextField(e, EventTypeField) == Some(Plain("decision"))
        then {DecisionField, RiskField, ApprovalModeField, RedactedInputSummaryField, InputHashField} <= e.Keys
        else {StatusField, DecisionEventIdField} <= e.Keys)
  }

  /** A digest, or 64 lower-case hexadecimal digits. */
  predicate IsHash(t: Option<Text>) {
    t.Some? && (t.value.Digest? || (|t.value.chars| == 64 && forall c <- t.value.chars :: c in "0123456789abcdef"))
  }

  /** Every text field is text, and the constrained ones have their form. */
  predicate FieldsInOrder(ck: Checks, e: Event) {
    && IsHash(TextField(e, EventHashField)) && TextField(e, SignatureField).Some?
    && (match TextField(e, EventIdField)
        case Some(Plain(id)) => 1 <= |id| <= 128
        case Some(Digest(_)) => true
        case None => false)
    && TextField(e, ActionNameField).Some? && ck.actionName(TextField(e, ActionNameField).value)
    && IsHash(TextField(e, ContractHashField)) && TextField(e, KeyIdField).Some?
    && TextField(e, TimestampUtcField).Some?
    && PreviousEventHashField in e && (e[PreviousEventHashField].Null? || e[PreviousEventHashField].Str?)
  }

  /** What a misshapen event is reported for: the first thing wrong with it. */
  ghost predicate ShapeFault(ck: Checks, e: Event, code: Code) {
    match code
    case UnknownSchema => !SchemaKnown(e)
    case UnknownEventType => SchemaKnown(e) && !TypeKnown(e)
    case MissingFields => SchemaKnown(e) && TypeKnown(e) && !Complete(e)
    case InvalidField => SchemaKnown(e) && TypeKnown(e) && Complete(e) && !FieldsInOrder(ck, e)
    case InvalidTimestamp =>
      && SchemaKnown(e) && TypeKnown(e) && Complete(e) && FieldsInOrder(ck, e)
      && !ck.timestamp(TextField(e, TimestampUtcField).value)
    case _ => false
  }

  lemma HexDigitIff(c: char)
    ensures HexDigit(c) <==> c in "0123456789abcdef"
  {
    if '0' <= c <= '9' {
      assert "0123456789abcdef"[c as int - '0' as int] == c;
    } else if 'a' <= c <= 'f' {
      assert "0123456789abcdef"[10 + c as int - 'a' as int] == c;
    }
  }

  lemma IsHashIff(t: Text)
    ensures IsHash(Some(t)) <==> HashShaped(t)
  {
    if t.Plain? {
      forall c <- t.chars ensures HexDigit(c) <==> c in "0123456789abcdef" {
        HexDigitIff(c);
      }
      assert forall i :: 0 <= i < |t.chars| ==> t.chars[i] in t.chars;
    }
  }

  lemma CompleteIff(e: Event)
    requires TypeKnown(e)
    ensures Complete(e) <==> HasRequired(e)
  {
  }

  lemma FieldsInOrderIff(ck: Checks, e: Event)
    ensures FieldsInOrder(ck, e) <==>
      && IsText(e, EventHashField) && HashShaped(SubmittedHash(e)) && IsText(e, SignatureField)
      && IsText(e, EventIdField) && EventId(e) != Plain("") && TextLength(EventId(e)) <= MAX_EVENT_ID_CHARS
      && IsText(e, ActionNameField) && ck.actionName(TextOrEmpty(e, ActionNameField))
      && IsText(e, ContractHashField) && HashShaped(TextOrEmpty(e, ContractHashField))
      && IsText(e, KeyIdField) && IsText(e, TimestampUtcField) && NullOrText(e, PreviousEventHashField)
  {
    IsHashIff(SubmittedHash(e));
    IsHashIff(TextOrEmpty(e, ContractHashField));
  }

  /** The first structural failure is the one reported. */
  lemma ShapeFaultIff(ck: Checks, e: Event, code: Code)
    ensures ShapeIssue(ck, e) == Some(code) <==> ShapeFault(ck, e, code)
  {
    FieldsInOrderIff(ck, e);
    if TypeKnown(e) {
      CompleteIff(e);
    }
  }

  // ---- The loop's variables ----

  /** After i events the loop's variables hold what the events before position i say, whether or not those events
      were in order. */
  ghost predicate Holds(tr: Track, events: seq<Event>, firstPrev: Option<Text>, lookup: Text -> Lookup) {
    && tr.index <= |events| && tr.expectedPrev == PrevOf(events, firstPrev, tr.index)
    && (forall id :: LatestDecision(events, tr.index, id) ==
          if id in tr.decisions then Some(tr.decisions[id]) else None)
    && (forall ref :: ref in tr.outcomes <==> UsedBefore(events, tr.index, lookup, ref))
  }

  lemma ReferenceMeans(tr: Track, events: seq<Event>, firstPrev: Option<Text>, lookup: Text -> Lookup)
    requires Holds(tr, events, firstPrev, lookup) && tr.index < |events| && !IsDecision(events[tr.index])
    ensures var e := events[tr.index];
      ReferenceCodes(tr, e, lookup(DecisionRef(e))) == [] <==> Uses(events, tr.index, lookup)
  {
    var ref := DecisionRef(events[tr.index]);
    assert UsedBefore(events, tr.index, lookup, ref) <==> ref in tr.outcomes;
    assert DecisionFor(events, tr.index, lookup, ref) == Resolve(tr, ref, lookup(ref));
  }

  lemma UsedBeforeNext(events: seq<Event>, i: nat, lookup: Text -> Lookup, ref: Text)
    requires i < |events|
    ensures UsedBefore(events, i + 1, lookup, ref) <==>
      UsedBefore(events, i, lookup, ref) || (DecisionRef(events[i]) == ref && Uses(events, i, lookup))
  {
  }

  lemma NextHolds(tr: Track, events: seq<Event>, firstPrev: Option<Text>, lookup: Text -> Lookup)
    requires Holds(tr, events, firstPrev, lookup) && tr.index < |events|
    ensures var e := events[tr.index]; Holds(NextTrack(tr, e, lookup(DecisionRef(e))), events, firstPrev, lookup)
  {
    var i, e := tr.index, events[tr.index];
    var next := NextTrack(tr, e, lookup(DecisionRef(e)));
    if !IsDecision(e) {
      ReferenceMeans(tr, events, firstPrev, lookup);
    }
    forall ref ensures ref in next.outcomes <==> UsedBefore(events, i + 1, lookup, ref) {
      UsedBeforeNext(events, i, lookup, ref);
      assert UsedBefore(events, i, lookup, ref) <==> ref in tr.outcomes;
    }
  }

  lemma CheckFaults(
    ck: Checks, key: nat, events: seq<Event>, firstPrev: Option<Text>, lookup: Text -> Lookup, tr: Track, code: Code)
    requires Holds(tr, events, firstPrev, lookup) && tr.index < |events|
    ensures var e := events[tr.index];
      code in LinkCodes(tr, e) || code in HashCodes(e) || code in SignatureCodes(ck, key, e) <==>
      && code in {ChainBreak, HashMismatch, UnknownKey, BadSignature}
      && Fault(ck, key, events, firstPrev, lookup, tr.index, code)
  {
  }

  lemma TransitionFaults(
    ck: Checks, key: nat, events: seq<Event>, firstPrev: Option<Text>, lookup: Text -> Lookup, tr: Track, code: Code)
    requires Holds(tr, events, firstPrev, lookup) && tr.index < |events|
    ensures var e := events[tr.index];
      code in TransitionCodes(tr, e, lookup(DecisionRef(e))) <==>
      && code in {InvalidField, UnknownDecisionReference, InvalidTransition}
      && Fault(ck, key, events, firstPrev, lookup, tr.index, code)
  {
    var e := events[tr.index];
    var ref := DecisionRef(e);
    assert UsedBefore(events, tr.index, lookup, ref) <==> ref in tr.outcomes;
    assert DecisionFor(events, tr.index, lookup, ref) == Resolve(tr, ref, lookup(ref));
    assert !IsDecision(e) ==> (code in TransitionCodes(tr, e, lookup(ref)) <==>
      || (code == InvalidField && !ValidStatus(TextOrEmpty(e, StatusField)))
      || code in ReferenceCodes(tr, e, lookup(ref)));
  }

  lemma InFour(a: seq<Code>, b: seq<Code>, c: seq<Code>, d: seq<Code>, code: Code)
    ensures code in a + b + c + d <==> code in a || code in b || code in c || code in d
  {
  }

  /** The codes of one event are its faults. */
  lemma CodesAreFaults(
    ck: Checks, key: nat, events: seq<Event>, firstPrev: Option<Text>, lookup: Text -> Lookup, tr: Track, code: Code)
    requires Holds(tr, events, firstPrev, lookup) && tr.index < |events|
    ensures var e := events[tr.index];
      code in Codes(ck, key, tr, e, lookup(DecisionRef(e))) <==>
      Fault(ck, key, events, firstPrev, lookup, tr.index, code)
  {
    var e := events[tr.index];
    CheckFaults(ck, key, events, firstPrev, lookup, tr, code);
    TransitionFaults(ck, key, events, firstPrev, lookup, tr, code);
    InFour(LinkCodes(tr, e), HashCodes(e), SignatureCodes(ck, key, e),
           TransitionCodes(tr, e, lookup(DecisionRef(e))), code);
  }

  // ---- The findings of a batch ----

  predicate WellShapedUpTo(ck: Checks, events: seq<Event>, from: nat, i: nat)
    requires i <= |events|
  {
    forall j :: from <= j < i ==> WellShaped(ck, events[j])
  }

  /** Nothing is reported for an event before the one being looked at. */
  lemma {:induction false} FindingsComeLater(
    ck: Checks, key: nat, events: seq<Event>, tr: Track, lookup: Text -> Lookup, n: nat)
    requires n < |Findings(ck, key, events, tr, lookup)|
    ensures Findings(ck, key, events, tr, lookup)[n].index >= tr.index
    decreases |events| - tr.index
  {
    var e := events[tr.index];
    var codes := Codes(ck, key, tr, e, lookup(DecisionRef(e)));
    if ShapeIssue(ck, e).None? && n >= |codes| {
      FindingsComeLater(ck, key, events, NextTrack(tr, e, lookup(DecisionRef(e))), lookup, n - |codes|);
    }
  }

  /** Issue (i, code) is among the findings. */
  ghost predicate Reported(
    ck: Checks, key: nat, events: seq<Event>, tr: Track, lookup: Text -> Lookup, i: nat, code: Code)
  {
    Issue(i, code) in Findings(ck, key, events, tr, lookup)
  }

  lemma InLabel(i: nat, codes: seq<Code>, code: Code)
    ensures Issue(i, code) in Label(i, codes) <==> code in codes
  {
    if code in codes {
      var k :| 0 <= k < |codes| && codes[k] == code;
      assert Label(i, codes)[k] == Issue(i, code);
    }
  }

  lemma ReportedHere(ck: Checks, key: nat, events: seq<Event>, tr: Track, lookup: Text -> Lookup, code: Code)
    requires tr.index < |events| && ShapeIssue(ck, events[tr.index]).None?
    ensures var e := events[tr.index];
      Reported(ck, key, events, tr, lookup, tr.index, code) <==> code in Codes(ck, key, tr, e, lookup(DecisionRef(e)))
  {
    var i, e := tr.index, events[tr.index];
    var codes, next := Codes(ck, key, tr, e, lookup(DecisionRef(e))), NextTrack(tr, e, lookup(DecisionRef(e)));
    var rest := Findings(ck, key, events, next, lookup);
    assert Issue(i, code) !in rest by {
      forall n | 0 <= n < |rest| ensures rest[n].index != i {
        FindingsComeLater(ck, key, events, next, lookup, n);
      }
    }
    assert Findings(ck, key, events, tr, lookup) == Label(i, codes) + rest;
    InLabel(i, codes, code);
  }

  lemma ReportedLater(ck: Checks, key: nat, events: seq<Event>, tr: Track, lookup: Text -> Lookup, i: nat, code: Code)
    requires tr.index < i && tr.index < |events| && ShapeIssue(ck, events[tr.index]).None?
    ensures var e := events[tr.index];
      Reported(ck, key, events, tr, lookup, i, code) <==>
      Reported(ck, key, events, NextTrack(tr, e, lookup(DecisionRef(e))), lookup, i, code)
  {
    var e := events[tr.index];
    var codes := Codes(ck, key, tr, e, lookup(DecisionRef(e)));
    assert forall k :: 0 <= k < |codes| ==> Label(tr.index, codes)[k].index != i;
  }

  /** What is reported for an event once all before it are well shaped. */
  ghost predicate FaultOrShape(
    ck: Checks, key: nat, events: seq<Event>, firstPrev: Option<Text>, lookup: Text -> Lookup, i: nat, code: Code)
    requires i < |events|
  {
    if WellShaped(ck, events[i]) then Fault(ck, key, events, firstPrev, lookup, i, code)
    else ShapeFault(ck, events[i], code)
  }

  lemma {:induction false} ReportedFrom(
    ck: Checks, key: nat, events: seq<Event>, firstPrev: Option<Text>, lookup: Text -> Lookup, tr: Track, i: nat,
    code: Code)
    requires Holds(tr, events, firstPrev, lookup) && tr.index <= i < |events|
    requires WellShapedUpTo(ck, events, tr.index, i)
    ensures Reported(ck, key, events, tr, lookup, i, code)
       <==> FaultOrShape(ck, key, events, firstPrev, lookup, i, code)
    decreases i - tr.index
  {
    var e := events[tr.index];
    ShapeIssueIsWellShaped(ck, e);
    if tr.index < i {
      ReportedLater(ck, key, events, tr, lookup, i, code);
      NextHolds(tr, events, firstPrev, lookup);
      ReportedFrom(ck, key, events, firstPrev, lookup, NextTrack(tr, e, lookup(DecisionRef(e))), i, code);
    } else if WellShaped(ck, e) {
      ReportedHere(ck, key, events, tr, lookup, code);
      CodesAreFaults(ck, key, events, firstPrev, lookup, tr, code);
    } else {
      ShapeFaultIff(ck, e, code);
    }
  }

  lemma StartHolds(events: seq<Event>, firstPrev: Option<Text>, lookup: Text -> Lookup)
    ensures Holds(StartTrack(firstPrev), events, firstPrev, lookup)
  {
  }

  /** While all events before it are well shaped, an event is reported under a code exactly when it has that fault;
      for a misshapen one that is the first thing wrong with its shape. */
  lemma ReportedIff(
    ck: Checks, key: nat, events: seq<Event>, firstPrev: Option<Text>, lookup: Text -> Lookup, i: nat, code: Code)
    requires i < |events| && WellShapedUpTo(ck, events, 0, i)
    ensures Reported(ck, key, events, StartTrack(firstPrev), lookup, i, code)
       <==> FaultOrShape(ck, key, events, firstPrev, lookup, i, code)
  {
    StartHolds(events, firstPrev, lookup);
    ReportedFrom(ck, key, events, firstPrev, lookup, StartTrack(firstPrev), i, code);
  }

  predicate UpTo(found: seq<Issue>, bad: nat) { forall n :: 0 <= n < |found| ==> found[n].index <= bad }

  lemma UpToJoin(index: nat, codes: seq<Code>, rest: seq<Issue>, bad: nat)
    requires index <= bad && UpTo(rest, bad)
    ensures UpTo(Label(index, codes) + rest, bad)
  {
  }

  /** After a misshapen event nothing more is reported. */
  lemma {:induction false} NothingAfterMisshapen(
    ck: Checks, key: nat, events: seq<Event>, tr: Track, lookup: Text -> Lookup, bad: nat)
    requires tr.index <= bad < |events| && !WellShaped(ck, events[bad])
    ensures UpTo(Findings(ck, key, events, tr, lookup), bad)
    decreases bad - tr.index
  {
    ShapeIssueIsWellShaped(ck, events[bad]);
    var e := events[tr.index];
    if ShapeIssue(ck, e).None? {
      var next := NextTrack(tr, e, lookup(DecisionRef(e)));
      NothingAfterMisshapen(ck, key, events, next, lookup, bad);
      UpToJoin(tr.index, Codes(ck, key, tr, e, lookup(DecisionRef(e))), Findings(ck, key, events, next, lookup), bad);
    }
  }

  // ---- Their order ----

  /** The order in which one event is examined. */
  function Stage(code: Code): nat {
    match code
    case ChainBreak => 0
    case HashMismatch => 1
    case UnknownKey => 2
    case BadSignature => 2
    case InvalidField => 3
    case UnknownDecisionReference => 4
    case InvalidTransition => 4
    case _ => 5
  }

  /** `a` may stand before `b`: an earlier event, or a later stage of the same one; only an outcome's status and its
      reference can both be invalid. */
  predicate MayPrecede(a: Issue, b: Issue) {
    || a.index < b.index
    || (a.index == b.index && Stage(a.code) < Stage(b.code))
    || (a == b && a.code == InvalidField)
  }

  /** Codes of the stages from `low` up to but not `high`, in order. */
  predicate Staged(codes: seq<Code>, low: nat, high: nat) {
    && (forall m :: 0 <= m < |codes| ==> low <= Stage(codes[m]) < high)
    && (forall m, n :: 0 <= m < n < |codes| ==> MayPrecede(Issue(0, codes[m]), Issue(0, codes[n])))
  }

  lemma StagesJoin(a: seq<Code>, b: seq<Code>, low: nat, mid: nat, high: nat)
    requires low <= mid <= high && Staged(a, low, mid) && Staged(b, mid, high)
    ensures Staged(a + b, low, high)
  {
  }

  lemma TransitionsStaged(tr: Track, e: Event, answer: Lookup)
    ensures Staged(TransitionCodes(tr, e, answer), 3, 5)
  {
  }

  lemma ChecksStaged(ck: Checks, key: nat, tr: Track, e: Event)
    ensures Staged(LinkCodes(tr, e), 0, 1) && Staged(HashCodes(e), 1, 2) && Staged(SignatureCodes(ck, key, e), 2, 3)
  {
  }

  lemma AllStagesJoin(a: seq<Code>, b: seq<Code>, c: seq<Code>, d: seq<Code>)
    requires Staged(a, 0, 1) && Staged(b, 1, 2) && Staged(c, 2, 3) && Staged(d, 3, 5)
    ensures Staged(a + b + c + d, 0, 5)
  {
    StagesJoin(a, b, 0, 1, 2);
    StagesJoin(a + b, c, 0, 2, 3);
    StagesJoin(a + b + c, d, 0, 3, 5);
  }

  lemma CodesInOrder(ck: Checks, key: nat, tr: Track, e: Event, answer: Lookup)
    ensures Staged(Codes(ck, key, tr, e, answer), 0, 5)
  {
    ChecksStaged(ck, key, tr, e);
    TransitionsStaged(tr, e, answer);
    AllStagesJoin(LinkCodes(tr, e), HashCodes(e), SignatureCodes(ck, key, e), TransitionCodes(tr, e, answer));
  }

  predicate InSequence(found: seq<Issue>) {
    forall m, n :: 0 <= m < n < |found| ==> MayPrecede(found[m], found[n])
  }

  predicate After(found: seq<Issue>, i: nat) { forall n :: 0 <= n < |found| ==> found[n].index > i }

  lemma EventThenRest(i: nat, codes: seq<Code>, rest: seq<Issue>)
    requires Staged(codes, 0, 5) && InSequence(rest) && After(rest, i)
    ensures InSequence(Label(i, codes) + rest)
  {
    var all := Label(i, codes) + rest;
    forall m, n | 0 <= m < n < |all| ensures MayPrecede(all[m], all[n]) {
      if n < |codes| {
        assert MayPrecede(Issue(0, codes[m]), Issue(0, codes[n]));
      } else if m >= |codes| {
        assert MayPrecede(rest[m - |codes|], rest[n - |codes|]);
      }
    }
  }

  /** Findings come event by event and stage by stage. */
  lemma {:induction false} FindingsInOrder(
    ck: Checks, key: nat, events: seq<Event>, tr: Track, lookup: Text -> Lookup)
    ensures InSequence(Findings(ck, key, events, tr, lookup))
    decreases |events| - tr.index
  {
    if tr.index < |events| && ShapeIssue(ck, events[tr.index]).None? {
      var e := events[tr.index];
      var answer := lookup(DecisionRef(e));
      var next := NextTrack(tr, e, answer);
      var rest := Findings(ck, key, events, next, lookup);
      FindingsInOrder(ck, key, events, next, lookup);
      forall n | 0 <= n < |rest| ensures rest[n].index > tr.index {
        FindingsComeLater(ck, key, events, next, lookup, n);
      }
      CodesInOrder(ck, key, tr, e, answer);
      EventThenRest(tr.index, Codes(ck, key, tr, e, answer), rest);
    }
  }

  // ---- The verdict ----

  /** A rejection lists only faults of events the loop reached, and a fault it leaves out comes after the
      twenty that it lists. */
  lemma RejectionReports(
    ck: Checks, key: nat, events: seq<Event>, firstPrev: Option<Text>, lookup: Text -> Lookup, i: nat, code: Code)
    requires Verify(ck, key, events, firstPrev, lookup).Rejected?
    requires i < |events| && WellShapedUpTo(ck, events, 0, i)
    ensures var issues := Verify(ck, key, events, firstPrev, lookup).issues;
      && (Issue(i, code) in issues ==> FaultOrShape(ck, key, events, firstPrev, lookup, i, code))
      && (FaultOrShape(ck, key, events, firstPrev, lookup, i, code) && Issue(i, code) !in issues ==>
            |issues| == 20 && forall x <- issues :: MayPrecede(x, Issue(i, code)))
  {
    RejectionIsBounded(ck, key, events, firstPrev, lookup);
    ReportedIff(ck, key, events, firstPrev, lookup, i, code);
    var issues := Verify(ck, key, events, firstPrev, lookup).issues;
    var all := Findings(ck, key, events, StartTrack(firstPrev), lookup);
    if Reported(ck, key, events, StartTrack(firstPrev), lookup, i, code) && Issue(i, code) !in issues {
      var n :| 0 <= n < |all| && all[n] == Issue(i, code);
      assert issues == all[..|issues|];
      assert n >= |issues|;
      FindingsInOrder(ck, key, events, StartTrack(firstPrev), lookup);
      assert forall m :: 0 <= m < |issues| ==> MayPrecede(all[m], all[n]);
    }
  }

  /** Event i asks for a stored decision, and the query fails. */
  ghost predicate QueryFailsAt(ck: Checks, events: seq<Event>, lookup: Text -> Lookup, from: nat, i: nat) {
    && from <= i < |events| && WellShapedUpTo(ck, events, from, i + 1)
    && !IsDecision(events[i]) && DecisionRef(events[i]) != Plain("")
    && LatestDecision(events, i, DecisionRef(events[i])).None? && lookup(DecisionRef(events[i])).Failed?
  }

  ghost predicate SomeQueryFails(ck: Checks, events: seq<Event>, lookup: Text -> Lookup, from: nat) {
    exists i :: QueryFailsAt(ck, events, lookup, from, i)
  }

  lemma QueryFailsLater(ck: Checks, events: seq<Event>, lookup: Text -> Lookup, from: nat)
    requires from < |events| && WellShaped(ck, events[from]) && !QueryFailsAt(ck, events, lookup, from, from)
    ensures SomeQueryFails(ck, events, lookup, from) <==> SomeQueryFails(ck, events, lookup, from + 1)
  {
    var next := from + 1;
    if i :| QueryFailsAt(ck, events, lookup, from, i) {
      assert QueryFailsAt(ck, events, lookup, next, i);
    }
    if i :| QueryFailsAt(ck, events, lookup, next, i) {
      assert QueryFailsAt(ck, events, lookup, from, i);
    }
  }

  lemma QueryFailsHere(
    ck: Checks, key: nat, events: seq<Event>, firstPrev: Option<Text>, lookup: Text -> Lookup, p: Progress)
    requires Holds(p.track, events, firstPrev, lookup) && p.track.index < |events|
    ensures var from, e := p.track.index, events[p.track.index];
      var step := Advance(ck, key, e, p, lookup(DecisionRef(e)));
      && (step.Continue? ==> WellShaped(ck, e))
      && (step == Stop(LookupFailed) <==> QueryFailsAt(ck, events, lookup, from, from))
      && (step.Stop? && !step.verdict.LookupFailed? ==> !SomeQueryFails(ck, events, lookup, from))
  {
    ShapeIssueIsWellShaped(ck, events[p.track.index]);
  }

  lemma AdvanceHolds(
    ck: Checks, key: nat, events: seq<Event>, firstPrev: Option<Text>, lookup: Text -> Lookup, p: Progress)
    requires Holds(p.track, events, firstPrev, lookup) && p.track.index < |events|
    ensures var e := events[p.track.index];
      var step := Advance(ck, key, e, p, lookup(DecisionRef(e)));
      step.Continue? ==>
        step.progress.track.index == p.track.index + 1 && Holds(step.progress.track, events, firstPrev, lookup)
  {
    NextHolds(p.track, events, firstPrev, lookup);
  }

  /** What one iteration says about the queries to come. */
  lemma QueryStep(
    ck: Checks, key: nat, events: seq<Event>, firstPrev: Option<Text>, lookup: Text -> Lookup, p: Progress)
    requires Holds(p.track, events, firstPrev, lookup) && p.track.index < |events|
    ensures var from, e := p.track.index, events[p.track.index];
      match Advance(ck, key, e, p, lookup(DecisionRef(e)))
      case Stop(verdict) => verdict.LookupFailed? <==> SomeQueryFails(ck, events, lookup, from)
      case Continue(_) => SomeQueryFails(ck, events, lookup, from) <==> SomeQueryFails(ck, events, lookup, from + 1)
  {
    QueryFailsHere(ck, key, events, firstPrev, lookup, p);
    var e := events[p.track.index];
    if Advance(ck, key, e, p, lookup(DecisionRef(e))).Continue? {
      QueryFailsLater(ck, events, lookup, p.track.index);
    }
  }

  lemma {:induction false} QueryFailsFrom(
    ck: Checks, key: nat, events: seq<Event>, firstPrev: Option<Text>, lookup: Text -> Lookup, p: Progress)
    requires Holds(p.track, events, firstPrev, lookup)
    ensures VerifyFrom(ck, key, events, p, lookup).LookupFailed?
       <==> SomeQueryFails(ck, events, lookup, p.track.index)
    decreases |events| - p.track.index
  {
    if p.track.index < |events| {
      QueryStep(ck, key, events, firstPrev, lookup, p);
      AdvanceHolds(ck, key, events, firstPrev, lookup, p);
      var e := events[p.track.index];
      var step := Advance(ck, key, e, p, lookup(DecisionRef(e)));
      if step.Continue? {
        QueryFailsFrom(ck, key, events, firstPrev, lookup, step.progress);
      }
    }
  }

  /** Verification ends in a query error exactly when the loop reaches an outcome whose decision it has to look up
      and that query fails. */
  lemma QueryErrorIff(ck: Checks, key: nat, events: seq<Event>, firstPrev: Option<Text>, lookup: Text -> Lookup)
    ensures Verify(ck, key, events, firstPrev, lookup).LookupFailed?
       <==> exists i :: QueryFailsAt(ck, events, lookup, 0, i)
  {
    StartHolds(events, firstPrev, lookup);
    QueryFailsFrom(ck, key, events, firstPrev, lookup, Start(firstPrev));
  }
}
