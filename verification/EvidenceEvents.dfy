/**
 Evidence events as they arrive in a journal segment: decoded JSON objects
 (igris-overture/api/evidence_verify.go).

 Hashing is ideal. The SHA-256 of a canonical payload is the term `Digest(payload)`,
 so equal digests mean equal payloads, and a payload can never contain its own digest.
 Any other string is `Plain`.
 */
module EvidenceEvents {
  import opened Options

  /** The keys of a JSON object: the protocol's own field names, and any other name. */
  datatype Field =
    | SchemaVersionField
    | EventTypeField
    | EventIdField
    | ActionIdField
    | ActionNameField
    | ContractHashField
    | TimestampUtcField
    | KeyIdField
    | EventHashField
    | SignatureField
    | PreviousEventHashField
    | DecisionField
    | RiskField
    | ApprovalModeField
    | RedactedInputSummaryField
    | InputHashField
    | StatusField
    | DecisionEventIdField
    | Other(key: string)

  datatype Text = Plain(chars: string) | Digest(payload: map<Field, Json>)

  datatype Json =
    | Null
    | Bool(b: bool)
    | Number(literal: string)
    | Str(text: Text)
    | Array(elems: seq<Json>)
    | Object(fields: map<Field, Json>)

  type Event = map<Field, Json>

  const MAX_DEPTH := 64
  const MAX_EVENT_ID_CHARS := 128

  // ---- Field access ----

  function TextField(e: Event, name: Field): Option<Text> {
    if name in e && e[name].Str? then Some(e[name].text) else None
  }

  /** Go's `value, _ := event[name].(string)`: the empty string when absent or not a string. */
  function TextOrEmpty(e: Event, name: Field): Text {
    var t := TextField(e, name);
    if t.Some? then t.value else Plain("")
  }

  function PreviousHash(e: Event): Option<Text> { TextField(e, PreviousEventHashField) }
  function SubmittedHash(e: Event): Text { TextOrEmpty(e, EventHashField) }
  function EventId(e: Event): Text { TextOrEmpty(e, EventIdField) }
  function DecisionRef(e: Event): Text { TextOrEmpty(e, DecisionEventIdField) }
  function DecisionValue(e: Event): Text { TextOrEmpty(e, DecisionField) }
  predicate IsDecision(e: Event) { TextOrEmpty(e, EventTypeField) == Plain("decision") }
  predicate IsOutcome(e: Event) { TextOrEmpty(e, EventTypeField) == Plain("outcome") }

  /** The signed part of an event: everything but the hash and the signature. */
  function Unsigned(e: Event): Event {
    e - {EventHashField, SignatureField}
  }

  function RecomputedHash(e: Event): Text { Digest(Unsigned(e)) }

  // ---- Shape rules ----

  predicate HexDigit(c: char) { '0' <= c <= '9' || 'a' <= c <= 'f' }

  /** `^[0-9a-f]{64}$`; a digest is always rendered that way. */
  predicate HashShaped(t: Text) {
    t.Digest? || (|t.chars| == 64 && forall i :: 0 <= i < 64 ==> HexDigit(t.chars[i]))
  }

  function TextLength(t: Text): nat {
    match t
    case Plain(chars) => |chars|
    case Digest(_) => 64
  }

  /** The checks that rest on code outside the model: the action-name pattern, RFC 3339
      parsing, and Ed25519 verification of a digest under a public key. */
  datatype Checks = Checks(
    keyId: Text,
    actionName: Text -> bool,
    timestamp: Text -> bool,
    signed: (nat, Text, Text) -> bool)

  // ---- Hash height: how many chained events a hash commits to ----

  /** The number of events reachable from a hash by following previous_event_hash. */
  function Height(t: Text): nat {
    match t
    case Plain(_) => 0
    case Digest(payload) =>
      if PreviousEventHashField in payload && payload[PreviousEventHashField].Str?
      then 1 + Height(payload[PreviousEventHashField].text)
      else 1
  }

  function HeightOf(prev: Option<Text>): nat {
    if prev.Some? then Height(prev.value) else 0
  }

  // ---- Linked runs of events ----

  /** The hash a run of events ends on, `prev` if it is empty. */
  function HeadAfter(prev: Option<Text>, events: seq<Event>): Option<Text> {
    if events == [] then prev else Some(SubmittedHash(events[|events| - 1]))
  }

  /** Event i names its predecessor and carries the hash of its own payload. */
  ghost predicate LinkAt(prev: Option<Text>, events: seq<Event>, i: nat)
    requires i < |events|
  {
    && PreviousHash(events[i]) == HeadAfter(prev, events[..i])
    && SubmittedHash(events[i]) == RecomputedHash(events[i])
  }

  ghost predicate Linked(prev: Option<Text>, events: seq<Event>) {
    forall i :: 0 <= i < |events| ==> LinkAt(prev, events, i)
  }

  /** In a linked run the i-th hash sits exactly i+1 above the start. */
  lemma {:induction false} LinkedHeight(prev: Option<Text>, events: seq<Event>, i: nat)
    requires Linked(prev, events) && i < |events|
    ensures Height(SubmittedHash(events[i])) == HeightOf(prev) + i + 1
  {
    assert LinkAt(prev, events, i);
    assert HeightOf(PreviousHash(events[i])) + 1 == Height(RecomputedHash(events[i]));
    if i > 0 {
      LinkedHeight(prev, events, i - 1);
      assert events[..i][i - 1] == events[i - 1];
    }
  }

  lemma {:induction false} LinkedAppend(prev: Option<Text>, a: seq<Event>, b: seq<Event>)
    requires Linked(prev, a) && Linked(HeadAfter(prev, a), b)
    ensures Linked(prev, a + b)
    ensures HeadAfter(prev, a + b) == HeadAfter(HeadAfter(prev, a), b)
  {
    forall i | 0 <= i < |a + b|
      ensures LinkAt(prev, a + b, i)
    {
      LinkedAppendAt(prev, a, b, i);
    }
  }

  lemma LinkedAppendAt(prev: Option<Text>, a: seq<Event>, b: seq<Event>, i: nat)
    requires Linked(prev, a) && Linked(HeadAfter(prev, a), b) && i < |a + b|
    ensures LinkAt(prev, a + b, i)
  {
    if i < |a| {
      assert LinkAt(prev, a, i);
      assert (a + b)[i] == a[i] && (a + b)[..i] == a[..i];
    } else {
      var j := i - |a|;
      assert LinkAt(HeadAfter(prev, a), b, j);
      assert (a + b)[i] == b[j] && (a + b)[..i] == a + b[..j];
    }
  }

  /** A linked run stays linked when it is cut short. */
  lemma LinkedPrefix(prev: Option<Text>, events: seq<Event>, n: nat)
    requires Linked(prev, events) && n <= |events|
    ensures Linked(prev, events[..n])
  {
    forall i | 0 <= i < n
      ensures LinkAt(prev, events[..n], i)
    {
      assert LinkAt(prev, events, i);
      assert events[..n][..i] == events[..i];
    }
  }

  /** No two events of a linked run share a hash: the run cannot loop back on itself. */
  lemma LinkedDistinct(prev: Option<Text>, events: seq<Event>, i: nat, j: nat)
    requires Linked(prev, events) && i < j < |events|
    ensures SubmittedHash(events[i]) != SubmittedHash(events[j])
  {
    LinkedHeight(prev, events, i);
    LinkedHeight(prev, events, j);
  }
}
