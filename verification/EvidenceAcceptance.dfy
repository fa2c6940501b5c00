/**
 What the verification loop decides, stated without the loop: a batch is accepted exactly
 when it is `Acceptable`, the bounded issue list is a prefix of all findings, and altering
 one event's payload only ever blames that event.
 */
module EvidenceAcceptance {
  import opened Options
  import opened EvidenceEvents
  import opened EvidenceVerify

  // ---- The declarative specification ----

  predicate WellShaped(ck: Checks, e: Event) {
    && TextOrEmpty(e, SchemaVersionField) == Plain("1")
    && (IsDecision(e) || IsOutcome(e))
    && HasRequired(e)
    && IsText(e, EventHashField) && HashShaped(SubmittedHash(e))
    && IsText(e, SignatureField)
    && IsText(e, EventIdField) && EventId(e) != Plain("") && TextLength(EventId(e)) <= MAX_EVENT_ID_CHARS
    && IsText(e, ActionNameField) && ck.actionName(TextOrEmpty(e, ActionNameField))
    && IsText(e, ContractHashField) && HashShaped(TextOrEmpty(e, ContractHashField))
    && IsText(e, KeyIdField)
    && IsText(e, TimestampUtcField) && ck.timestamp(TextOrEmpty(e, TimestampUtcField))
    && NullOrText(e, PreviousEventHashField)
  }

  /** The value of the latest decision with this id among the first i events. */
  ghost function LastDecision(events: seq<Event>, i: nat, id: Text): Option<Text>
    requires i <= |events|
  {
    if i == 0 then None
    else if IsDecision(events[i - 1]) && EventId(events[i - 1]) == id then Some(DecisionValue(events[i - 1]))
    else LastDecision(events, i - 1, id)
  }

  /** An outcome names a decision that is not a denial, and no earlier outcome of the batch names it. */
  ghost predicate OutcomePermitted(events: seq<Event>, i: nat, ref: Text, lookup: Text -> Lookup)
    requires i <= |events|
  {
    && ref != Plain("")
    && (match LastDecision(events, i, ref)
        case Some(d) => d != Plain("denied")
        case None => lookup(ref).Row? && lookup(ref).decision != Plain("denied"))
    && forall j :: 0 <= j < i && !IsDecision(events[j]) ==> DecisionRef(events[j]) != ref
  }

  ghost predicate GoodAt(
    ck: Checks, key: nat, events: seq<Event>, firstPrev: Option<Text>, lookup: Text -> Lookup, i: nat)
    requires i < |events|
  {
    var e := events[i];
    && WellShaped(ck, e)
    && PreviousHash(e) == HeadAfter(firstPrev, events[..i])
    && SubmittedHash(e) == RecomputedHash(e)
    && TextOrEmpty(e, KeyIdField) == ck.keyId
    && ck.signed(key, SubmittedHash(e), TextOrEmpty(e, SignatureField))
    && (IsDecision(e) ==> ValidDecision(DecisionValue(e)))
    && (IsOutcome(e) ==>
          ValidStatus(TextOrEmpty(e, StatusField)) && OutcomePermitted(events, i, DecisionRef(e), lookup))
  }

  ghost predicate Acceptable(
    ck: Checks, key: nat, events: seq<Event>, firstPrev: Option<Text>, lookup: Text -> Lookup)
  {
    forall i :: 0 <= i < |events| ==> GoodAt(ck, key, events, firstPrev, lookup, i)
  }

  // ---- Everything the loop would report without the cap ----

  function Label(index: nat, codes: seq<Code>): (r: seq<Issue>)
    ensures |r| == |codes|
  {
    seq(|codes|, i requires 0 <= i < |codes| => Issue(index, codes[i]))
  }

  ghost function Findings(ck: Checks, key: nat, events: seq<Event>, tr: Track, lookup: Text -> Lookup): seq<Issue>
    decreases |events| - tr.index
  {
    if tr.index >= |events| then []
    else
      var e := events[tr.index];
      var answer := lookup(DecisionRef(e));
      var shape := ShapeIssue(ck, e);
      if shape.Some? then [Issue(tr.index, shape.value)]
      else Label(tr.index, Codes(ck, key, tr, e, answer))
           + Findings(ck, key, events, NextTrack(tr, e, answer), lookup)
  }

  function Cap(issues: seq<Issue>): seq<Issue> {
    if |issues| <= MAX_ISSUES then issues else issues[..MAX_ISSUES]
  }

  lemma {:induction false} AddIssuesIsCap(issues: seq<Issue>, index: nat, codes: seq<Code>)
    requires |issues| <= MAX_ISSUES
    ensures AddIssues(issues, index, codes) == Cap(issues + Label(index, codes))
    decreases |codes|
  {
    if codes != [] {
      AddIssuesIsCap(AddIssue(issues, index, codes[0]), index, codes[1..]);
      assert Label(index, codes) == [Issue(index, codes[0])] + Label(index, codes[1..]);
      assert issues + Label(index, codes) == (issues + [Issue(index, codes[0])]) + Label(index, codes[1..]);
    } else {
      assert issues + Label(index, codes) == issues;
    }
  }

  lemma CapCap(a: seq<Issue>, b: seq<Issue>)
    ensures Cap(Cap(a) + b) == Cap(a + b)
  {
  }

  /** What a verdict says about the complete list of findings. */
  ghost predicate Decided(v: Verdict, all: seq<Issue>, verified: seq<Event>) {
    match v
    case LookupFailed => all != []
    case Accepted(events) => all == [] && events == verified
    case Rejected(issues) => all != [] && issues == Cap(all)
  }

  lemma DecidedRegroup(v: Verdict, issues: seq<Issue>, found: seq<Issue>, rest: seq<Issue>, verified: seq<Event>)
    requires Decided(v, Cap(issues + found) + rest, verified)
    ensures Decided(v, issues + (found + rest), verified)
  {
    CapCap(issues + found, rest);
    assert issues + (found + rest) == (issues + found) + rest;
  }

  /** One continuing iteration adds the event's findings, under the cap. */
  lemma AdvanceAddsFindings(ck: Checks, key: nat, e: Event, p: Progress, answer: Lookup)
    requires |p.issues| <= MAX_ISSUES
    requires Advance(ck, key, e, p, answer).Continue?
    ensures var next := Advance(ck, key, e, p, answer).progress;
            && next.issues == Cap(p.issues + Label(p.track.index, Codes(ck, key, p.track, e, answer)))
            && (next.issues == [] ==> p.issues == [] && next.verified == p.verified + [e])
  {
    AddIssuesIsCap(p.issues, p.track.index, Codes(ck, key, p.track, e, answer));
  }

  lemma FailedLookupIsAFinding(ck: Checks, key: nat, events: seq<Event>, tr: Track, lookup: Text -> Lookup)
    requires tr.index < |events|
    requires NeedsLookup(tr, events[tr.index]) && lookup(DecisionRef(events[tr.index])).Failed?
    ensures Findings(ck, key, events, tr, lookup) != []
  {
    var e := events[tr.index];
    assert UnknownDecisionReference in ReferenceCodes(tr, e, lookup(DecisionRef(e)));
  }

  /** The verdict carries the first 20 findings, and accepts only when there is none. */
  lemma {:induction false} VerdictIsCappedFindings(
    ck: Checks, key: nat, events: seq<Event>, p: Progress, lookup: Text -> Lookup)
    requires |p.issues| <= MAX_ISSUES && p.track.index <= |events|
    requires p.issues == [] ==> p.verified == events[..p.track.index]
    ensures Decided(VerifyFrom(ck, key, events, p, lookup),
                    p.issues + Findings(ck, key, events, p.track, lookup), events)
    decreases |events| - p.track.index
  {
    if p.track.index < |events| {
      var e := events[p.track.index];
      var step := Advance(ck, key, e, p, lookup(DecisionRef(e)));
      if step.Stop? {
        StopIsDecided(ck, key, events, p, lookup);
      } else {
        AdvanceAddsFindings(ck, key, e, p, lookup(DecisionRef(e)));
        assert events[..p.track.index + 1] == events[..p.track.index] + [e];
        VerdictIsCappedFindings(ck, key, events, step.progress, lookup);
        ContinueIsDecided(ck, key, events, p, lookup);
      }
    }
  }

  lemma StopIsDecided(ck: Checks, key: nat, events: seq<Event>, p: Progress, lookup: Text -> Lookup)
    requires |p.issues| <= MAX_ISSUES && p.track.index < |events|
    requires Advance(ck, key, events[p.track.index], p, lookup(DecisionRef(events[p.track.index]))).Stop?
    ensures Decided(VerifyFrom(ck, key, events, p, lookup),
                    p.issues + Findings(ck, key, events, p.track, lookup), events)
  {
    if VerifyFrom(ck, key, events, p, lookup).LookupFailed? {
      FailedLookupIsAFinding(ck, key, events, p.track, lookup);
    }
  }

  lemma ContinueIsDecided(ck: Checks, key: nat, events: seq<Event>, p: Progress, lookup: Text -> Lookup)
    requires |p.issues| <= MAX_ISSUES && p.track.index < |events|
    requires var e := events[p.track.index];
             var step := Advance(ck, key, e, p, lookup(DecisionRef(e)));
             && step.Continue?
             && Decided(VerifyFrom(ck, key, events, step.progress, lookup),
                        step.progress.issues + Findings(ck, key, events, step.progress.track, lookup), events)
    ensures Decided(VerifyFrom(ck, key, events, p, lookup),
                    p.issues + Findings(ck, key, events, p.track, lookup), events)
  {
    var e := events[p.track.index];
    var answer := lookup(DecisionRef(e));
    var next := Advance(ck, key, e, p, answer).progress;
    AdvanceAddsFindings(ck, key, e, p, answer);
    DecidedRegroup(VerifyFrom(ck, key, events, next, lookup), p.issues,
                   Label(p.track.index, Codes(ck, key, p.track, e, answer)),
                   Findings(ck, key, events, next.track, lookup), events);
  }

  // ---- Acceptance ----

  /** The loop's variables, after i good events, hold what the specification asks about. */
  ghost predicate Tracks(tr: Track, events: seq<Event>, firstPrev: Option<Text>, i: nat)
    requires i <= |events|
  {
    && tr.index == i
    && tr.expectedPrev == HeadAfter(firstPrev, events[..i])
    && (forall id :: LastDecision(events, i, id) == if id in tr.decisions then Some(tr.decisions[id]) else None)
    && (forall ref :: ref in tr.outcomes <==>
          exists j :: 0 <= j < i && !IsDecision(events[j]) && DecisionRef(events[j]) == ref)
  }

  lemma ShapeIssueIsWellShaped(ck: Checks, e: Event)
    ensures ShapeIssue(ck, e).None? <==> WellShaped(ck, e)
  {
  }

  lemma GoodIffNoCodes(
    ck: Checks, key: nat, events: seq<Event>, firstPrev: Option<Text>, lookup: Text -> Lookup, tr: Track, i: nat)
    requires i < |events| && Tracks(tr, events, firstPrev, i)
    ensures GoodAt(ck, key, events, firstPrev, lookup, i)
       <==> ShapeIssue(ck, events[i]).None? && Codes(ck, key, tr, events[i], lookup(DecisionRef(events[i]))) == []
  {
    ShapeIssueIsWellShaped(ck, events[i]);
  }

  lemma GoodKeepsTracks(
    ck: Checks, key: nat, events: seq<Event>, firstPrev: Option<Text>, lookup: Text -> Lookup, tr: Track, i: nat)
    requires i < |events| && Tracks(tr, events, firstPrev, i)
    requires GoodAt(ck, key, events, firstPrev, lookup, i)
    ensures Tracks(NextTrack(tr, events[i], lookup(DecisionRef(events[i]))), events, firstPrev, i + 1)
  {
  }

  ghost predicate GoodFrom(
    ck: Checks, key: nat, events: seq<Event>, firstPrev: Option<Text>, lookup: Text -> Lookup, i: nat)
  {
    forall j :: i <= j < |events| ==> GoodAt(ck, key, events, firstPrev, lookup, j)
  }

  lemma GoodFromStep(
    ck: Checks, key: nat, events: seq<Event>, firstPrev: Option<Text>, lookup: Text -> Lookup, i: nat)
    requires i < |events|
    ensures GoodFrom(ck, key, events, firstPrev, lookup, i) <==>
      GoodAt(ck, key, events, firstPrev, lookup, i) && GoodFrom(ck, key, events, firstPrev, lookup, i + 1)
  {
  }

  lemma NoFindingsStep(ck: Checks, key: nat, events: seq<Event>, tr: Track, lookup: Text -> Lookup)
    requires tr.index < |events|
    ensures var e := events[tr.index];
      var answer := lookup(DecisionRef(e));
      Findings(ck, key, events, tr, lookup) == [] <==>
        && ShapeIssue(ck, e).None? && Codes(ck, key, tr, e, answer) == []
        && Findings(ck, key, events, NextTrack(tr, e, answer), lookup) == []
  {
  }

  lemma {:induction false} NoFindingsIffGood(
    ck: Checks, key: nat, events: seq<Event>, firstPrev: Option<Text>, lookup: Text -> Lookup, tr: Track, i: nat)
    requires i <= |events| && Tracks(tr, events, firstPrev, i)
    ensures Findings(ck, key, events, tr, lookup) == [] <==> GoodFrom(ck, key, events, firstPrev, lookup, i)
    decreases |events| - i
  {
    if i < |events| {
      GoodIffNoCodes(ck, key, events, firstPrev, lookup, tr, i);
      GoodFromStep(ck, key, events, firstPrev, lookup, i);
      NoFindingsStep(ck, key, events, tr, lookup);
      if GoodAt(ck, key, events, firstPrev, lookup, i) {
        GoodKeepsTracks(ck, key, events, firstPrev, lookup, tr, i);
        var next := NextTrack(tr, events[i], lookup(DecisionRef(events[i])));
        NoFindingsIffGood(ck, key, events, firstPrev, lookup, next, i + 1);
      }
    }
  }

  /** The loop accepts a batch exactly when the specification holds, and then returns all of it. */
  lemma AcceptedIffAcceptable(ck: Checks, key: nat, events: seq<Event>, firstPrev: Option<Text>, lookup: Text -> Lookup)
    ensures Verify(ck, key, events, firstPrev, lookup).Accepted? <==> Acceptable(ck, key, events, firstPrev, lookup)
    ensures Verify(ck, key, events, firstPrev, lookup).Accepted? ==>
              Verify(ck, key, events, firstPrev, lookup) == Accepted(events)
  {
    VerdictIsCappedFindings(ck, key, events, Start(firstPrev), lookup);
    NoFindingsIffGood(ck, key, events, firstPrev, lookup, StartTrack(firstPrev), 0);
  }

  /** The cap shortens a rejection; it never empties one. */
  lemma RejectionIsBounded(ck: Checks, key: nat, events: seq<Event>, firstPrev: Option<Text>, lookup: Text -> Lookup)
    requires Verify(ck, key, events, firstPrev, lookup).Rejected?
    ensures var issues := Verify(ck, key, events, firstPrev, lookup).issues;
            && 0 < |issues| <= 20
            && issues <= Findings(ck, key, events, StartTrack(firstPrev), lookup)
            && (|issues| < 20 ==> issues == Findings(ck, key, events, StartTrack(firstPrev), lookup))
  {
    VerdictIsCappedFindings(ck, key, events, Start(firstPrev), lookup);
    var all := Findings(ck, key, events, StartTrack(firstPrev), lookup);
    assert [] + all == all;
  }

  // ---- Tampering ----

  predicate SameField(e: Event, f: Event, name: Field) {
    (name in e <==> name in f) && (name in e ==> e[name] == f[name])
  }

  /** `f` is `e` with other payload fields changed: the fields that steer the rest of the batch are kept. */
  predicate KeepsProtocolFields(e: Event, f: Event) {
    && SameField(e, f, EventHashField) && SameField(e, f, PreviousEventHashField)
    && SameField(e, f, EventTypeField) && SameField(e, f, EventIdField)
    && SameField(e, f, DecisionField) && SameField(e, f, DecisionEventIdField)
  }

  /** Two events have the same hash exactly when they agree on everything but the hash and the signature. */
  lemma HashCoversPayload(e: Event, f: Event)
    ensures RecomputedHash(e) == RecomputedHash(f) <==>
      forall name :: name !in {EventHashField, SignatureField} ==> SameField(e, f, name)
  {
    var a, b := Unsigned(e), Unsigned(f);
    if forall name :: name !in {EventHashField, SignatureField} ==> SameField(e, f, name) {
      forall name ensures SameField(a, b, name) {
        assert name !in {EventHashField, SignatureField} ==> SameField(e, f, name);
      }
      assert a.Keys == b.Keys by {
        assert forall name :: SameField(a, b, name) ==> (name in a.Keys <==> name in b.Keys);
      }
      assert forall name :: name in a ==> SameField(a, b, name);
      assert a == b;
    }
    forall name | Unsigned(e) == Unsigned(f) && name !in {EventHashField, SignatureField}
      ensures SameField(e, f, name)
    {
      assert name in e <==> name in Unsigned(e);
      assert name in f <==> name in Unsigned(f);
      assert name in e ==> Unsigned(e)[name] == e[name];
      assert name in f ==> Unsigned(f)[name] == f[name];
    }
  }

  lemma KeptFieldsKeepTrack(tr: Track, e: Event, f: Event, answer: Lookup)
    requires KeepsProtocolFields(e, f)
    ensures NextTrack(tr, f, answer) == NextTrack(tr, e, answer)
    ensures SubmittedHash(f) == SubmittedHash(e) && DecisionRef(f) == DecisionRef(e)
  {
  }

  lemma {:induction false} TamperFindings(
    ck: Checks, key: nat, events: seq<Event>, tr: Track, lookup: Text -> Lookup, k: nat, f: Event)
    requires k < |events| && KeepsProtocolFields(events[k], f)
    requires Findings(ck, key, events, tr, lookup) == []
    ensures var found := Findings(ck, key, events[k := f], tr, lookup);
            && (forall x :: x in found ==> x.index == k)
            && (tr.index <= k && Unsigned(f) != Unsigned(events[k]) ==> found != [])
    decreases |events| - tr.index
  {
    if tr.index < |events| {
      var e := events[tr.index];
      var answer := lookup(DecisionRef(e));
      TamperFindings(ck, key, events, NextTrack(tr, e, answer), lookup, k, f);
      if tr.index == k {
        KeptFieldsKeepTrack(tr, e, f, answer);
        if Unsigned(f) != Unsigned(e) && ShapeIssue(ck, f).None? {
          assert HashCodes(f) == [HashMismatch];
        }
      }
    }
  }

  /** The altered batch asks for the same stored decisions, so no query error appears either. */
  lemma {:induction false} TamperKeepsLookups(
    ck: Checks, key: nat, events: seq<Event>, p: Progress, lookup: Text -> Lookup, k: nat, f: Event)
    requires k < |events| && KeepsProtocolFields(events[k], f)
    requires Findings(ck, key, events, p.track, lookup) == []
    ensures !VerifyFrom(ck, key, events[k := f], p, lookup).LookupFailed?
    decreases |events| - p.track.index
  {
    if p.track.index < |events| {
      var e := events[p.track.index];
      var g := events[k := f][p.track.index];
      var answer := lookup(DecisionRef(e));
      if NeedsLookup(p.track, e) && answer.Failed? {
        FailedLookupIsAFinding(ck, key, events, p.track, lookup);
      }
      if p.track.index == k {
        KeptFieldsKeepTrack(p.track, e, f, answer);
      }
      var step := Advance(ck, key, g, p, answer);
      if step.Continue? {
        TamperKeepsLookups(ck, key, events, step.progress, lookup, k, f);
      }
    }
  }

  /** Altering one event's payload under its old hash is always caught, and every reported issue
      carries that event's index. */
  lemma TamperIsLocalised(
    ck: Checks, key: nat, events: seq<Event>, firstPrev: Option<Text>, lookup: Text -> Lookup, k: nat, f: Event)
    requires Verify(ck, key, events, firstPrev, lookup).Accepted?
    requires k < |events| && KeepsProtocolFields(events[k], f) && Unsigned(f) != Unsigned(events[k])
    ensures var v := Verify(ck, key, events[k := f], firstPrev, lookup);
            v.Rejected? && forall x :: x in v.issues ==> x.index == k
  {
    VerdictIsCappedFindings(ck, key, events, Start(firstPrev), lookup);
    VerdictIsCappedFindings(ck, key, events[k := f], Start(firstPrev), lookup);
    TamperFindings(ck, key, events, StartTrack(firstPrev), lookup, k, f);
    TamperKeepsLookups(ck, key, events, Start(firstPrev), lookup, k, f);
  }
}
