/**
 The evidence tables of one stream (tenant, key_id) and the statements that read and extend
 them (igris-overture/api/evidence_store.go, routes_evidence.go persistEvidenceBatch).

 A committed transaction is one atomic change of `Tables`. The content hash of a batch commits
 to the submitted events themselves, so the event sequence stands for it.
 */
module EvidenceTables {
  import opened Options
  import opened EvidenceEvents
  import opened EvidenceVerify

  datatype Batch =
    | VerifiedBatch(content: seq<Event>, firstPrev: Option<Text>, chainHead: Text, accepted: nat)
    | RejectedBatch(content: seq<Event>, firstPrev: Option<Text>, issues: seq<Issue>)

  /** One stored event; `batch` is the row number of its batch. */
  datatype EventRow = EventRow(hash: Text, batch: nat, event: Event)

  /** What a response reports: the stored batch row, and whether this request created it. */
  datatype Body = Body(row: nat, created: bool)

  /** An Idempotency-Key record, bound to the batch content it was used for. */
  datatype Replay = Replay(content: seq<Event>, body: Body)

  datatype Tables = Tables(
    batches: seq<Batch>,
    events: seq<EventRow>,
    key: Option<nat>,
    replays: map<string, Replay>)

  const EMPTY := Tables([], [], None, map[])

  /** A decoded request; `key` identifies the public key it came with. */
  datatype Submission = Submission(
    events: seq<Event>, firstPrev: Option<Text>, key: nat, idempotencyKey: Option<string>)

  const MAX_EVENTS := 500

  /** What decodeEvidenceSubmission leaves through. */
  predicate Decodes(sub: Submission) {
    && 0 < |sub.events| <= MAX_EVENTS
    && (forall i :: 0 <= i < |sub.events| ==> HashShaped(SubmittedHash(sub.events[i])))
    && (sub.firstPrev.Some? ==> HashShaped(sub.firstPrev.value))
    && sub.firstPrev == PreviousHash(sub.events[0])
  }

  // ---- Queries ----

  /** Row of the batch with this content, if any. */
  function FindContent(batches: seq<Batch>, content: seq<Event>): (row: Option<nat>)
    ensures row.Some? ==> row.value < |batches| && batches[row.value].content == content
    ensures row.None? ==> forall i :: 0 <= i < |batches| ==> batches[i].content != content
  {
    if batches == [] then None
    else if batches[|batches| - 1].content == content then Some(|batches| - 1)
    else FindContent(batches[..|batches| - 1], content)
  }

  /** The head query's WHERE clause: a verified batch that no verified batch extends. */
  predicate IsHeadRow(batches: seq<Batch>, row: nat) {
    && row < |batches| && batches[row].VerifiedBatch?
    && forall n :: 0 <= n < |batches| && batches[n].VerifiedBatch? ==>
         batches[n].firstPrev != Some(batches[row].chainHead)
  }

  function LastHeadRow(batches: seq<Batch>, n: nat): (row: Option<nat>)
    requires n <= |batches|
    ensures row.Some? ==> row.value < n && IsHeadRow(batches, row.value)
    ensures row.None? ==> forall i :: 0 <= i < n ==> !IsHeadRow(batches, i)
  {
    if n == 0 then None
    else if IsHeadRow(batches, n - 1) then Some(n - 1)
    else LastHeadRow(batches, n - 1)
  }

  /** currentEvidenceChainHead. `choice` stands for the row that ORDER BY ... LIMIT 1 would pick. */
  function ChainHead(batches: seq<Batch>, choice: nat): Option<Text> {
    if IsHeadRow(batches, choice) then Some(batches[choice].chainHead)
    else
      var row := LastHeadRow(batches, |batches|);
      if row.Some? then Some(batches[row.value].chainHead) else None
  }

  predicate IsDecisionRow(row: EventRow, id: Text) {
    IsDecision(row.event) && EventId(row.event) == id
  }

  function LastDecisionRow(rows: seq<EventRow>, id: Text): (row: Option<nat>)
    ensures row.Some? ==> row.value < |rows| && IsDecisionRow(rows[row.value], id)
    ensures row.None? ==> forall i :: 0 <= i < |rows| ==> !IsDecisionRow(rows[i], id)
  {
    if rows == [] then None
    else if IsDecisionRow(rows[|rows| - 1], id) then Some(|rows| - 1)
    else LastDecisionRow(rows[..|rows| - 1], id)
  }

  /** getStoredDecision. `choice` stands for the row that LIMIT 1 would pick. */
  function StoredDecision(rows: seq<EventRow>, id: Text, choice: nat): Lookup {
    if choice < |rows| && IsDecisionRow(rows[choice], id) then Row(DecisionValue(rows[choice].event))
    else
      var row := LastDecisionRow(rows, id);
      if row.Some? then Row(DecisionValue(rows[row.value].event)) else NoRow
  }

  /** The chain-slot index: a verified batch already starts at this position. */
  predicate SlotTaken(batches: seq<Batch>, firstPrev: Option<Text>) {
    exists i :: 0 <= i < |batches| && batches[i].VerifiedBatch? && batches[i].firstPrev == firstPrev
  }

  predicate HashStored(rows: seq<EventRow>, hash: Text) {
    exists i :: 0 <= i < |rows| && rows[i].hash == hash
  }

  // ---- Inserts ----

  /** INSERT ... ON CONFLICT (event_hash) DO NOTHING. */
  function InsertEvent(rows: seq<EventRow>, row: EventRow): seq<EventRow> {
    if HashStored(rows, row.hash) then rows else rows + [row]
  }

  function InsertEvents(rows: seq<EventRow>, batch: nat, events: seq<Event>): seq<EventRow> {
    if events == [] then rows
    else
      var n := |events| - 1;
      InsertEvent(InsertEvents(rows, batch, events[..n]), EventRow(RecomputedHash(events[n]), batch, events[n]))
  }

  datatype Outcome = Inserted(row: nat) | Raced(row: nat) | SlotLost | KeyTaken | QueryFailed

  /** persistEvidenceBatch: the transaction for one verdict. */
  function Persist(t: Tables, sub: Submission, verdict: Verdict): (Tables, Outcome) {
    var raced := FindContent(t.batches, sub.events);
    match verdict
    case LookupFailed => (t, QueryFailed)
    case Rejected(issues) =>
      if raced.Some? then (t, Raced(raced.value))
      else (t.(batches := t.batches + [RejectedBatch(sub.events, sub.firstPrev, issues)]), Inserted(|t.batches|))
    case Accepted(verified) =>
      if t.key.Some? && t.key.value != sub.key then (t, KeyTaken)
      else if raced.Some? then (t, Raced(raced.value))
      else if SlotTaken(t.batches, sub.firstPrev) then (t, SlotLost)
      else if verified == [] then (t, QueryFailed)
      else
        var head := RecomputedHash(verified[|verified| - 1]);
        (t.(batches := t.batches + [VerifiedBatch(sub.events, sub.firstPrev, head, |verified|)],
            events := InsertEvents(t.events, |t.batches|, verified),
            key := Some(sub.key)),
         Inserted(|t.batches|))
  }
}
