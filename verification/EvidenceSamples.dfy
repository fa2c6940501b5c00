/**
 Concrete well-formed evidence events, for runs that show what the verification rules
 (igris-overture/api/evidence_verify.go) let through.
 */
module EvidenceSamples {
  import opened Options
  import opened EvidenceEvents
  import opened EvidenceVerify
  import opened EvidenceAcceptance

  /** Every name and timestamp passes; only signatures under this public key verify. */
  function ChecksFor(key: nat): Checks {
    Checks(Plain("k"), _ => true, _ => true, (k, _, _) => k == key)
  }

  /** What a sample event of this kind holds in a field; `about` is its decision value or its decision's id. */
  function Content(f: Field, kind: string, id: string, about: string, prev: Option<Text>): Json {
    match f
    case SchemaVersionField => Str(Plain("1"))
    case EventTypeField => Str(Plain(kind))
    case EventIdField => Str(Plain(id))
    case ContractHashField => Str(Digest(map[]))
    case KeyIdField => Str(Plain("k"))
    case PreviousEventHashField => if prev.None? then Null else Str(prev.value)
    case DecisionField => Str(Plain(about))
    case DecisionEventIdField => Str(Plain(about))
    case StatusField => Str(Plain("succeeded"))
    case _ => Str(Plain("x"))
  }

  const PAYLOAD_FIELDS := SHARED_FIELDS + DECISION_FIELDS + OUTCOME_FIELDS - {EventHashField, SignatureField}

  function PayloadOver(fields: set<Field>, kind: string, id: string, about: string, prev: Option<Text>): Event {
    map f | f in fields :: Content(f, kind, id, about, prev)
  }

  /** A payload with the fields of both kinds; those of the other kind do no harm. */
  function Payload(kind: string, id: string, about: string, prev: Option<Text>): Event {
    PayloadOver(PAYLOAD_FIELDS, kind, id, about, prev)
  }

  /** The payload with its hash and a signature. */
  function Seal(payload: Event): Event {
    payload[EventHashField := Str(Digest(payload))][SignatureField := Str(Plain("s"))]
  }

  /** The fields that verification reads from either kind of event. */
  predicate ReadableFields(fields: set<Field>) {
    && EventHashField !in fields && SignatureField !in fields
    && SchemaVersionField in fields && EventTypeField in fields && EventIdField in fields
    && ActionNameField in fields && ContractHashField in fields && TimestampUtcField in fields
    && KeyIdField in fields && PreviousEventHashField in fields
    && DecisionField in fields && DecisionEventIdField in fields && StatusField in fields
  }

  lemma FieldsPresent()
    ensures ReadableFields(PAYLOAD_FIELDS)
    ensures SHARED_FIELDS + DECISION_FIELDS + OUTCOME_FIELDS <= PAYLOAD_FIELDS + {EventHashField, SignatureField}
  {
  }

  predicate Reads(e: Event, kind: string, id: string, about: string, prev: Option<Text>) {
    && TextOrEmpty(e, SchemaVersionField) == Plain("1") && TextOrEmpty(e, EventTypeField) == Plain(kind)
    && TextField(e, EventIdField) == Some(Plain(id)) && IsText(e, ActionNameField)
    && TextField(e, ContractHashField) == Some(Digest(map[])) && IsText(e, TimestampUtcField)
    && TextField(e, KeyIdField) == Some(Plain("k"))
    && NullOrText(e, PreviousEventHashField) && PreviousHash(e) == prev
    && DecisionValue(e) == DecisionRef(e) == Plain(about) && TextOrEmpty(e, StatusField) == Plain("succeeded")
  }

  lemma PayloadReads(fields: set<Field>, kind: string, id: string, about: string, prev: Option<Text>)
    requires ReadableFields(fields)
    ensures Reads(PayloadOver(fields, kind, id, about, prev), kind, id, about, prev)
  {
  }

  /** Sealing adds the two fields and changes no other. */
  lemma SealKeepsFields(p: Event)
    requires EventHashField !in p && SignatureField !in p
    ensures RecomputedHash(Seal(p)) == Digest(p) == SubmittedHash(Seal(p)) && IsText(Seal(p), SignatureField)
    ensures forall f :: f != EventHashField && f != SignatureField ==> TextField(Seal(p), f) == TextField(p, f)
    ensures Seal(p).Keys == p.Keys + {EventHashField, SignatureField}
  {
    assert Unsigned(Seal(p)) == p;
  }

  lemma SealKeepsReads(p: Event, kind: string, id: string, about: string, prev: Option<Text>)
    requires EventHashField !in p && SignatureField !in p && Reads(p, kind, id, about, prev)
    ensures Reads(Seal(p), kind, id, about, prev)
  {
    SealKeepsFields(p);
  }

  lemma ReadableIsWellShaped(key: nat, e: Event, kind: string, id: string, about: string, prev: Option<Text>)
    requires Reads(e, kind, id, about, prev) && 0 < |id| <= MAX_EVENT_ID_CHARS && kind in ["decision", "outcome"]
    requires HasRequired(e) && IsText(e, EventHashField) && SubmittedHash(e).Digest? && IsText(e, SignatureField)
    ensures WellShaped(ChecksFor(key), e)
  {
  }

  lemma SealedHasRequired(kind: string, id: string, about: string, prev: Option<Text>)
    ensures HasRequired(Seal(Payload(kind, id, about, prev)))
  {
    var p := Payload(kind, id, about, prev);
    FieldsPresent();
    SealKeepsFields(p);
    assert p.Keys == PAYLOAD_FIELDS;
  }

  /** What a sealed sample event reads as. */
  lemma SealedReads(key: nat, kind: string, id: string, about: string, prev: Option<Text>)
    requires 0 < |id| <= MAX_EVENT_ID_CHARS && kind in ["decision", "outcome"]
    ensures var e := Seal(Payload(kind, id, about, prev));
      && WellShaped(ChecksFor(key), e) && TextOrEmpty(e, EventTypeField) == Plain(kind) && EventId(e) == Plain(id)
      && DecisionValue(e) == DecisionRef(e) == Plain(about) && TextOrEmpty(e, StatusField) == Plain("succeeded")
      && PreviousHash(e) == prev && SubmittedHash(e) == RecomputedHash(e) && TextOrEmpty(e, KeyIdField) == Plain("k")
  {
    var p := Payload(kind, id, about, prev);
    FieldsPresent();
    PayloadReads(PAYLOAD_FIELDS, kind, id, about, prev);
    SealedHasRequired(kind, id, about, prev);
    SealKeepsFields(p);
    SealKeepsReads(p, kind, id, about, prev);
    ReadableIsWellShaped(key, Seal(p), kind, id, about, prev);
  }

  function Decision(id: string, value: string, prev: Option<Text>): Event { Seal(Payload("decision", id, value, prev)) }
  function Outcome(id: string, ref: string, prev: Option<Text>): Event { Seal(Payload("outcome", id, ref, prev)) }

  lemma SealedDecision(key: nat, id: string, value: string, prev: Option<Text>)
    requires 0 < |id| <= MAX_EVENT_ID_CHARS
    ensures var e := Decision(id, value, prev);
      && WellShaped(ChecksFor(key), e) && IsDecision(e) && EventId(e) == Plain(id) && DecisionValue(e) == Plain(value)
      && PreviousHash(e) == prev && SubmittedHash(e) == RecomputedHash(e) && TextOrEmpty(e, KeyIdField) == Plain("k")
  {
    SealedReads(key, "decision", id, value, prev);
  }

  lemma SealedOutcome(key: nat, id: string, ref: string, prev: Option<Text>)
    requires 0 < |id| <= MAX_EVENT_ID_CHARS
    ensures var e := Outcome(id, ref, prev);
      && WellShaped(ChecksFor(key), e) && IsOutcome(e) && DecisionRef(e) == Plain(ref)
      && TextOrEmpty(e, StatusField) == Plain("succeeded")
      && PreviousHash(e) == prev && SubmittedHash(e) == RecomputedHash(e) && TextOrEmpty(e, KeyIdField) == Plain("k")
  {
    SealedReads(key, "outcome", id, ref, prev);
  }

  /** A lone decision at genesis is acceptable under the right key and no other. */
  lemma LoneDecision(key: nat, other: nat, id: string, lookup: Text -> Lookup)
    requires 0 < |id| <= MAX_EVENT_ID_CHARS
    ensures Acceptable(ChecksFor(key), other, [Decision(id, "allowed", None)], None, lookup) <==> other == key
  {
    SealedDecision(key, id, "allowed", None);
    LoneEvent(key, other, Decision(id, "allowed", None), lookup);
  }

  lemma LoneEvent(key: nat, other: nat, e: Event, lookup: Text -> Lookup)
    requires WellShaped(ChecksFor(key), e) && IsDecision(e) && ValidDecision(DecisionValue(e))
    requires PreviousHash(e) == None && SubmittedHash(e) == RecomputedHash(e)
    requires TextOrEmpty(e, KeyIdField) == Plain("k")
    ensures Acceptable(ChecksFor(key), other, [e], None, lookup) <==> other == key
  {
    assert [e][..0] == [];
    assert GoodAt(ChecksFor(key), other, [e], None, lookup, 0) <==> other == key;
  }

  /** A denial, an approval under the same id, and an outcome that names the id. */
  function Reopened(): seq<Event> {
    var a := Decision("d", "denied", None);
    var b := Decision("d", "allowed", Some(SubmittedHash(a)));
    [a, b, Outcome("o", "d", Some(SubmittedHash(b)))]
  }

  lemma ReopenedIsAcceptable(key: nat, lookup: Text -> Lookup)
    ensures Acceptable(ChecksFor(key), key, Reopened(), None, lookup)
    ensures IsDecision(Reopened()[0]) && EventId(Reopened()[0]) == Plain("d") == DecisionRef(Reopened()[2])
    ensures DecisionValue(Reopened()[0]) == Plain("denied") && IsOutcome(Reopened()[2])
  {
    ReopenedIsChained(key);
    AllowedAgain(ChecksFor(key), key, Reopened()[0], Reopened()[1], Reopened()[2], lookup);
  }

  lemma ReopenedIsChained(key: nat)
    ensures var ck, events := ChecksFor(key), Reopened();
      && Chained(ck, key, events[0], None) && Chained(ck, key, events[1], Some(SubmittedHash(events[0])))
      && Chained(ck, key, events[2], Some(SubmittedHash(events[1])))
      && IsDecision(events[0]) && DecisionValue(events[0]) == Plain("denied")
      && IsDecision(events[1]) && DecisionValue(events[1]) == Plain("allowed")
      && IsOutcome(events[2]) && TextOrEmpty(events[2], StatusField) == Plain("succeeded")
      && EventId(events[0]) == EventId(events[1]) == DecisionRef(events[2]) == Plain("d")
  {
    var events := Reopened();
    SealedDecision(key, "d", "denied", None);
    SealedDecision(key, "d", "allowed", Some(SubmittedHash(events[0])));
    SealedOutcome(key, "o", "d", Some(SubmittedHash(events[1])));
  }

  /** Two chained decisions are acceptable whatever their ids. */
  lemma TwoDecisions(ck: Checks, key: nat, a: Event, b: Event, lookup: Text -> Lookup)
    requires Chained(ck, key, a, None) && Chained(ck, key, b, Some(SubmittedHash(a)))
    requires IsDecision(a) && ValidDecision(DecisionValue(a)) && IsDecision(b) && ValidDecision(DecisionValue(b))
    ensures Acceptable(ck, key, [a, b], None, lookup)
  {
    var events := [a, b];
    assert events[..0] == [] && events[..1] == [a];
    assert GoodAt(ck, key, events, None, lookup, 0);
    assert GoodAt(ck, key, events, None, lookup, 1);
  }

  ghost predicate Chained(ck: Checks, key: nat, e: Event, prev: Option<Text>) {
    && WellShaped(ck, e) && PreviousHash(e) == prev && SubmittedHash(e) == RecomputedHash(e)
    && TextOrEmpty(e, KeyIdField) == ck.keyId && ck.signed(key, SubmittedHash(e), TextOrEmpty(e, SignatureField))
  }

  /** The verification rules look at the latest decision only. */
  lemma AllowedAgain(ck: Checks, key: nat, a: Event, b: Event, o: Event, lookup: Text -> Lookup)
    requires Chained(ck, key, a, None) && Chained(ck, key, b, Some(SubmittedHash(a)))
    requires Chained(ck, key, o, Some(SubmittedHash(b)))
    requires IsDecision(a) && ValidDecision(DecisionValue(a)) && IsDecision(b) && DecisionValue(b) == Plain("allowed")
    requires IsOutcome(o) && ValidStatus(TextOrEmpty(o, StatusField))
    requires DecisionRef(o) == EventId(a) == EventId(b) != Plain("")
    ensures Acceptable(ck, key, [a, b, o], None, lookup)
  {
    var events := [a, b, o];
    assert events[..0] == [] && events[..1] == [a] && events[..2] == [a, b];
    assert LastDecision(events, 2, DecisionRef(o)) == Some(Plain("allowed"));
    assert OutcomePermitted(events, 2, DecisionRef(o), lookup);
    assert GoodAt(ck, key, events, None, lookup, 0);
    assert GoodAt(ck, key, events, None, lookup, 1);
    assert GoodAt(ck, key, events, None, lookup, 2);
  }
}
