/**
 The stream a set of tables represents, and what every committed state of them keeps:
 one linked chain from genesis, an event table that is exactly that chain, sound events
 under one signing key, and outcomes grounded in earlier allowed decisions.
 */
module EvidenceChain {
  import opened Sequences
  import opened Options
  import opened EvidenceEvents
  import opened EvidenceVerify
  import opened EvidenceAcceptance
  import opened EvidenceTables

  // ---- The stream ----

  /** The events of the verified batches, in row order. */
  ghost function Stream(batches: seq<Batch>): seq<Event> {
    if batches == [] then []
    else
      var n := |batches| - 1;
      Stream(batches[..n]) + if batches[n].VerifiedBatch? then batches[n].content else []
  }

  ghost function RowsFor(batch: nat, events: seq<Event>): seq<EventRow> {
    seq(|events|, i requires 0 <= i < |events| => EventRow(SubmittedHash(events[i]), batch, events[i]))
  }

  /** The event rows those batches should have. */
  ghost function StreamRows(batches: seq<Batch>): seq<EventRow> {
    if batches == [] then []
    else
      var n := |batches| - 1;
      StreamRows(batches[..n]) + if batches[n].VerifiedBatch? then RowsFor(n, batches[n].content) else []
  }

  lemma {:induction false} StreamRowsAreStream(batches: seq<Batch>)
    ensures |StreamRows(batches)| == |Stream(batches)|
    ensures forall k :: 0 <= k < |Stream(batches)| ==>
      && StreamRows(batches)[k].event == Stream(batches)[k]
      && StreamRows(batches)[k].hash == SubmittedHash(Stream(batches)[k])
  {
    if batches != [] {
      StreamRowsAreStream(batches[..|batches| - 1]);
    }
  }

  ghost function Head(batches: seq<Batch>): Option<Text> { HeadAfter(None, Stream(batches)) }

  lemma StreamSnoc(batches: seq<Batch>, b: Batch)
    ensures Stream(batches + [b]) == Stream(batches) + if b.VerifiedBatch? then b.content else []
    ensures StreamRows(batches + [b])
         == StreamRows(batches) + if b.VerifiedBatch? then RowsFor(|batches|, b.content) else []
  {
    assert (batches + [b])[..|batches|] == batches;
  }

  /** A longer table only adds to the end of the stream. */
  lemma {:induction false} StreamGrows(batches: seq<Batch>, m: nat)
    requires m <= |batches|
    ensures Stream(batches[..m]) <= Stream(batches)
    decreases |batches|
  {
    if m < |batches| {
      var n := |batches| - 1;
      StreamGrows(batches[..n], m);
      assert batches[..n][..m] == batches[..m];
    } else {
      assert batches[..m] == batches;
    }
  }

  // ---- Single events ----

  /** Everything verification establishes about an event on its own. */
  ghost predicate Sound(ck: Checks, key: nat, e: Event) {
    && WellShaped(ck, e)
    && TextOrEmpty(e, KeyIdField) == ck.keyId
    && ck.signed(key, SubmittedHash(e), TextOrEmpty(e, SignatureField))
    && (IsDecision(e) ==> ValidDecision(DecisionValue(e)))
    && (IsOutcome(e) ==> ValidStatus(TextOrEmpty(e, StatusField)) && DecisionRef(e) != Plain(""))
  }

  ghost predicate AllSound(ck: Checks, key: nat, events: seq<Event>) {
    forall i {:trigger Sound(ck, key, events[i])} :: 0 <= i < |events| ==> Sound(ck, key, events[i])
  }

  /** Among the first n events there is a decision with this id and value "allowed". */
  ghost predicate AllowedBefore(events: seq<Event>, n: nat, id: Text)
    requires n <= |events|
  {
    exists j :: 0 <= j < n && IsDecision(events[j]) && EventId(events[j]) == id
            && DecisionValue(events[j]) == Plain("allowed")
  }

  ghost predicate OutcomesGrounded(events: seq<Event>) {
    forall k :: 0 <= k < |events| && IsOutcome(events[k]) ==> AllowedBefore(events, k, DecisionRef(events[k]))
  }

  // ---- Invariant of the tables ----

  /** A verified row starts where the stream before it ends, and ends where it says. */
  ghost predicate RowExtends(batches: seq<Batch>, i: nat)
    requires i < |batches|
  {
    var b := batches[i];
    b.VerifiedBatch? ==>
      && b.content != []
      && b.firstPrev == Head(batches[..i])
      && b.chainHead == SubmittedHash(b.content[|b.content| - 1])
      && b.accepted == |b.content|
  }

  ghost predicate ChainInv(batches: seq<Batch>) {
    && Linked(None, Stream(batches))
    && (forall i :: 0 <= i < |batches| ==> RowExtends(batches, i))
    && (forall i, j :: 0 <= i < j < |batches| ==> batches[i].content != batches[j].content)
  }

  ghost predicate TablesInv(ck: Checks, t: Tables) {
    && ChainInv(t.batches)
    && t.events == StreamRows(t.batches)
    && (Stream(t.batches) != [] ==> t.key.Some?)
    && (t.key.Some? ==> AllSound(ck, t.key.value, Stream(t.batches)))
    && OutcomesGrounded(Stream(t.batches))
    && (forall k :: k in t.replays ==>
         t.replays[k].body.row < |t.batches| && t.batches[t.replays[k].body.row].content == t.replays[k].content)
  }

  // ---- Heads and slots ----

  lemma HeadHeight(batches: seq<Batch>, m: nat)
    requires ChainInv(batches) && m <= |batches|
    ensures HeightOf(Head(batches[..m])) == |Stream(batches[..m])|
  {
    var s := Stream(batches[..m]);
    StreamGrows(batches, m);
    if s != [] {
      LinkedHeight(None, Stream(batches), |s| - 1);
    }
  }

  lemma RowHead(batches: seq<Batch>, i: nat)
    requires i < |batches| && batches[i].VerifiedBatch? && RowExtends(batches, i)
    ensures Some(batches[i].chainHead) == Head(batches[..i + 1])
    ensures |Stream(batches[..i])| < |Stream(batches[..i + 1])|
  {
    assert batches[..i + 1] == batches[..i] + [batches[i]];
    StreamSnoc(batches[..i], batches[i]);
  }

  /** Past row m nothing verified was added, or the slot after the stream at m is taken. */
  lemma {:induction false} FreeSlotMeansUnmoved(batches: seq<Batch>, m: nat)
    requires ChainInv(batches) && m <= |batches|
    requires !SlotTaken(batches, Head(batches[..m]))
    ensures Stream(batches) == Stream(batches[..m])
  {
    FirstVerifiedAfter(batches, m, |batches|);
    assert batches[..|batches|] == batches;
  }

  lemma {:induction false} FirstVerifiedAfter(batches: seq<Batch>, m: nat, n: nat)
    requires ChainInv(batches) && m <= n <= |batches|
    requires !SlotTaken(batches, Head(batches[..m]))
    ensures Stream(batches[..n]) == Stream(batches[..m])
    decreases n
  {
    if m < n {
      FirstVerifiedAfter(batches, m, n - 1);
      assert RowExtends(batches, n - 1);
      assert batches[..n] == batches[..n - 1] + [batches[n - 1]];
      StreamSnoc(batches[..n - 1], batches[n - 1]);
    }
  }

  /** The head query has at most one answer, and it is where the stream ends. */
  lemma HeadRowIsLast(batches: seq<Batch>, row: nat)
    requires ChainInv(batches) && IsHeadRow(batches, row)
    ensures Some(batches[row].chainHead) == Head(batches)
    ensures Stream(batches) == Stream(batches[..row + 1])
  {
    assert RowExtends(batches, row);
    RowHead(batches, row);
    FreeSlotMeansUnmoved(batches, row + 1);
  }

  /** Conversely, when the stream is not empty some row answers the head query. */
  lemma {:induction false} HeadRowExists(batches: seq<Batch>, n: nat) returns (row: nat)
    requires ChainInv(batches) && n <= |batches|
    requires Stream(batches[..n]) == Stream(batches) && Stream(batches) != []
    ensures IsHeadRow(batches, row)
    decreases n
  {
    assert batches[..n] == batches[..n - 1] + [batches[n - 1]];
    StreamSnoc(batches[..n - 1], batches[n - 1]);
    if batches[n - 1].VerifiedBatch? {
      row := n - 1;
      assert RowExtends(batches, row);
      RowHead(batches, row);
      HeadHeight(batches, n);
      forall i | 0 <= i < |batches| && batches[i].VerifiedBatch?
        ensures batches[i].firstPrev != Some(batches[row].chainHead)
      {
        assert RowExtends(batches, i);
        RowHead(batches, i);
        HeadHeight(batches, i);
        StreamGrows(batches, i + 1);
      }
    } else {
      row := HeadRowExists(batches, n - 1);
    }
  }

  lemma ChainHeadIsHead(batches: seq<Batch>, choice: nat)
    requires ChainInv(batches)
    ensures ChainHead(batches, choice) == Head(batches)
  {
    assert batches[..|batches|] == batches;
    if Stream(batches) != [] {
      var row := HeadRowExists(batches, |batches|);
      if IsHeadRow(batches, choice) {
        HeadRowIsLast(batches, choice);
      }
      HeadRowIsLast(batches, LastHeadRow(batches, |batches|).value);
    } else {
      forall i | 0 <= i < |batches| ensures !batches[i].VerifiedBatch? {
        assert RowExtends(batches, i);
        if batches[i].VerifiedBatch? {
          RowHead(batches, i);
          StreamGrows(batches, i + 1);
          assert false;
        }
      }
    }
  }

  // ---- What a verified submission may rely on, whatever commits in the meantime ----

  /** The submission starts at some earlier or present end of the stream. */
  ghost predicate StartsAtSomeHead(batches: seq<Batch>, firstPrev: Option<Text>) {
    exists m :: 0 <= m <= |batches| && firstPrev == Head(batches[..m])
  }

  /** An outcome's decision was allowed earlier in its own batch or is already stored. */
  ghost predicate Grounded(stream: seq<Event>, events: seq<Event>, i: nat)
    requires i < |events|
  {
    AllowedBefore(events, i, DecisionRef(events[i])) || AllowedBefore(stream, |stream|, DecisionRef(events[i]))
  }

  /** Verified so far: linked to its start, every event sound, every outcome grounded. */
  ghost predicate VerifiedRun(ck: Checks, key: nat, stream: seq<Event>, firstPrev: Option<Text>, events: seq<Event>) {
    && Linked(firstPrev, events)
    && AllSound(ck, key, events)
    && (forall i :: 0 <= i < |events| && IsOutcome(events[i]) ==> Grounded(stream, events, i))
  }

  lemma VerifiedRunStable(
    ck: Checks, key: nat, old': seq<Event>, stream: seq<Event>, firstPrev: Option<Text>, events: seq<Event>)
    requires VerifiedRun(ck, key, old', firstPrev, events) && old' <= stream
    ensures VerifiedRun(ck, key, stream, firstPrev, events)
  {
    forall i | 0 <= i < |events| && IsOutcome(events[i]) ensures Grounded(stream, events, i) {
      assert Grounded(old', events, i);
      if AllowedBefore(old', |old'|, DecisionRef(events[i])) {
        var j :| 0 <= j < |old'| && IsDecision(old'[j]) && EventId(old'[j]) == DecisionRef(events[i])
              && DecisionValue(old'[j]) == Plain("allowed");
        assert stream[j] == old'[j];
      }
    }
  }

  lemma StartsAtSomeHeadStable(batches: seq<Batch>, more: seq<Batch>, firstPrev: Option<Text>)
    requires StartsAtSomeHead(batches, firstPrev) && batches <= more
    ensures StartsAtSomeHead(more, firstPrev)
  {
    var m :| 0 <= m <= |batches| && firstPrev == Head(batches[..m]);
    assert more[..m] == batches[..m];
  }

  lemma RowsForSnoc(batch: nat, events: seq<Event>)
    requires events != []
    ensures var n := |events| - 1;
      RowsFor(batch, events) == RowsFor(batch, events[..n]) + [EventRow(SubmittedHash(events[n]), batch, events[n])]
  {
  }

  /** The last event of a linked run has a hash no earlier row carries. */
  lemma LastHashIsNew(rows: seq<EventRow>, stream: seq<Event>, batch: nat, events: seq<Event>)
    requires |rows| == |stream| && events != [] && Linked(None, stream + events)
    requires forall k :: 0 <= k < |rows| ==> rows[k].hash == SubmittedHash(stream[k])
    ensures var n := |events| - 1;
      !HashStored(rows + RowsFor(batch, events[..n]), RecomputedHash(events[n]))
  {
    var n := |events| - 1;
    var all, done := stream + events, rows + RowsFor(batch, events[..n]);
    assert all[|stream| + n] == events[n];
    assert LinkAt(None, all, |stream| + n);
    forall k | 0 <= k < |done| ensures done[k].hash != RecomputedHash(events[n]) {
      assert LinkAt(None, all, k) && done[k].hash == SubmittedHash(all[k]);
      LinkedDistinct(None, all, k, |stream| + n);
    }
  }

  /** None of a linked run's hashes is stored yet, so no event insert is skipped. */
  lemma {:induction false} InsertEventsAppends(
    rows: seq<EventRow>, stream: seq<Event>, batch: nat, events: seq<Event>)
    requires |rows| == |stream| && Linked(None, stream + events)
    requires forall k :: 0 <= k < |rows| ==> rows[k].hash == SubmittedHash(stream[k])
    ensures InsertEvents(rows, batch, events) == rows + RowsFor(batch, events)
    decreases |events|
  {
    if events != [] {
      var n := |events| - 1;
      var e := events[n];
      assert (stream + events)[|stream| + n] == e;
      assert LinkAt(None, stream + events, |stream| + n);
      assert (stream + events)[..|stream| + n] == stream + events[..n];
      LinkedPrefix(None, stream + events, |stream| + n);
      InsertEventsAppends(rows, stream, batch, events[..n]);
      LastHashIsNew(rows, stream, batch, events);
      RowsForSnoc(batch, events);
      ConcatAssoc(rows, RowsFor(batch, events[..n]), [EventRow(RecomputedHash(e), batch, e)]);
    }
  }

  /** Appending a grounded run keeps the whole stream grounded. */
  lemma GroundedAppend(ck: Checks, key: nat, stream: seq<Event>, firstPrev: Option<Text>, events: seq<Event>)
    requires OutcomesGrounded(stream) && VerifiedRun(ck, key, stream, firstPrev, events)
    ensures OutcomesGrounded(stream + events)
  {
    var all := stream + events;
    forall k | 0 <= k < |all| && IsOutcome(all[k]) ensures AllowedBefore(all, k, DecisionRef(all[k])) {
      var ref := DecisionRef(all[k]);
      if k < |stream| {
        assert AllowedBefore(stream, k, ref);
        var j :| 0 <= j < k && IsDecision(stream[j]) && EventId(stream[j]) == ref
                && DecisionValue(stream[j]) == Plain("allowed");
        assert all[j] == stream[j];
      } else {
        var i := k - |stream|;
        assert Grounded(stream, events, i);
        if AllowedBefore(events, i, ref) {
          var j :| 0 <= j < i && IsDecision(events[j]) && EventId(events[j]) == ref
                  && DecisionValue(events[j]) == Plain("allowed");
          assert all[|stream| + j] == events[j];
        } else {
          var j :| 0 <= j < |stream| && IsDecision(stream[j]) && EventId(stream[j]) == ref
                  && DecisionValue(stream[j]) == Plain("allowed");
          assert all[j] == stream[j];
        }
      }
    }
  }

  /** Adding a row keeps the chain, if a verified row extends the present head by a linked run. */
  lemma AppendRowKeepsChain(batches: seq<Batch>, b: Batch)
    requires ChainInv(batches)
    requires forall i :: 0 <= i < |batches| ==> batches[i].content != b.content
    requires b.VerifiedBatch? ==>
      && b.content != [] && b.firstPrev == Head(batches) && Linked(b.firstPrev, b.content)
      && b.chainHead == SubmittedHash(b.content[|b.content| - 1]) && b.accepted == |b.content|
    ensures ChainInv(batches + [b])
  {
    StreamSnoc(batches, b);
    if b.VerifiedBatch? {
      LinkedAppend(None, Stream(batches), b.content);
    } else {
      assert Stream(batches + [b]) == Stream(batches);
    }
    forall i | 0 <= i < |batches + [b]| ensures RowExtends(batches + [b], i) {
      assert i < |batches| ==> RowExtends(batches, i);
      assert (batches + [b])[..i] == batches[..i];
      assert batches[..|batches|] == batches;
    }
  }

  /** A submission whose slot is free extends the present end of the stream. */
  lemma FreeSlotExtendsHead(batches: seq<Batch>, firstPrev: Option<Text>)
    requires ChainInv(batches) && StartsAtSomeHead(batches, firstPrev) && !SlotTaken(batches, firstPrev)
    ensures firstPrev == Head(batches)
  {
    var m :| 0 <= m <= |batches| && firstPrev == Head(batches[..m]);
    FreeSlotMeansUnmoved(batches, m);
  }

  lemma ExtendingKeepsEventRows(batches: seq<Batch>, b: Batch)
    requires ChainInv(batches) && b.VerifiedBatch? && b.firstPrev == Head(batches) && Linked(b.firstPrev, b.content)
    ensures InsertEvents(StreamRows(batches), |batches|, b.content) == StreamRows(batches + [b])
  {
    StreamSnoc(batches, b);
    StreamRowsAreStream(batches);
    LinkedAppend(None, Stream(batches), b.content);
    InsertEventsAppends(StreamRows(batches), Stream(batches), |batches|, b.content);
  }

  lemma AcceptedInsertKeepsTables(ck: Checks, t: Tables, sub: Submission)
    requires TablesInv(ck, t) && Decodes(sub)
    requires StartsAtSomeHead(t.batches, sub.firstPrev)
    requires VerifiedRun(ck, sub.key, Stream(t.batches), sub.firstPrev, sub.events)
    requires Persist(t, sub, Accepted(sub.events)).1.Inserted?
    ensures TablesInv(ck, Persist(t, sub, Accepted(sub.events)).0)
  {
    var b := VerifiedBatch(sub.events, sub.firstPrev, RecomputedHash(sub.events[|sub.events| - 1]), |sub.events|);
    assert LinkAt(sub.firstPrev, sub.events, |sub.events| - 1);
    FreeSlotExtendsHead(t.batches, sub.firstPrev);
    AppendRowKeepsChain(t.batches, b);
    ExtendingKeepsEventRows(t.batches, b);
    StreamSnoc(t.batches, b);
    GroundedAppend(ck, sub.key, Stream(t.batches), sub.firstPrev, sub.events);
  }

  lemma RejectedInsertKeepsTables(ck: Checks, t: Tables, b: Batch)
    requires TablesInv(ck, t) && b.RejectedBatch?
    requires forall i :: 0 <= i < |t.batches| ==> t.batches[i].content != b.content
    ensures TablesInv(ck, t.(batches := t.batches + [b]))
  {
    var t' := t.(batches := t.batches + [b]);
    AppendRowKeepsChain(t.batches, b);
    StreamSnoc(t.batches, b);
    assert Stream(t'.batches) == Stream(t.batches);
    assert StreamRows(t'.batches) == StreamRows(t.batches);
    assert OutcomesGrounded(Stream(t'.batches));
  }

  /** The insert transaction keeps every table invariant, although the head, the decisions and the
      content were read before it began. */
  lemma PersistKeepsTables(ck: Checks, t: Tables, sub: Submission, verdict: Verdict)
    requires TablesInv(ck, t) && Decodes(sub)
    requires verdict.Accepted? ==>
      && verdict.verified == sub.events && StartsAtSomeHead(t.batches, sub.firstPrev)
      && VerifiedRun(ck, sub.key, Stream(t.batches), sub.firstPrev, sub.events)
    ensures TablesInv(ck, Persist(t, sub, verdict).0)
  {
    if Persist(t, sub, verdict).1.Inserted? {
      if verdict.Accepted? {
        AcceptedInsertKeepsTables(ck, t, sub);
      } else {
        RejectedInsertKeepsTables(ck, t, RejectedBatch(sub.events, sub.firstPrev, verdict.issues));
      }
    }
  }
}
