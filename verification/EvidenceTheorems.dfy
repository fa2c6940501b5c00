/**
 What evidence ingestion guarantees in every interleaving: statements about `Run(ck, INIT, actions)`
 for every action sequence.
 */
module EvidenceTheorems {
  import opened Options
  import opened EvidenceEvents
  import opened EvidenceTables
  import opened EvidenceChain
  import opened EvidenceProtocol

  // ---- One linear chain ----

  ghost function VerifiedRows(batches: seq<Batch>): (rows: seq<Batch>)
    ensures forall i :: 0 <= i < |rows| ==> rows[i].VerifiedBatch?
  {
    if batches == [] then []
    else
      var n := |batches| - 1;
      VerifiedRows(batches[..n]) + if batches[n].VerifiedBatch? then [batches[n]] else []
  }

  /** A batch starts at the previous one's head (genesis first) and is linked up to its own head. */
  ghost predicate LinksAt(rows: seq<Batch>, i: nat)
    requires i < |rows| && forall k :: 0 <= k < |rows| ==> rows[k].VerifiedBatch?
  {
    && rows[i].content != []
    && rows[i].firstPrev == (if i == 0 then None else Some(rows[i - 1].chainHead))
    && Linked(rows[i].firstPrev, rows[i].content)
    && Some(rows[i].chainHead) == HeadAfter(None, rows[i].content)
  }

  ghost predicate OneChain(rows: seq<Batch>) {
    && (forall i :: 0 <= i < |rows| ==> rows[i].VerifiedBatch?)
    && (forall i :: 0 <= i < |rows| ==> LinksAt(rows, i))
    && (forall i, j :: 0 <= i < j < |rows| ==> rows[i].chainHead != rows[j].chainHead)
  }

  lemma LinkedSplit(a: seq<Event>, b: seq<Event>)
    requires Linked(None, a + b)
    ensures Linked(None, a) && Linked(HeadAfter(None, a), b)
  {
    LinkedPrefix(None, a + b, |a|);
    assert (a + b)[..|a|] == a;
    forall i | 0 <= i < |b|
      ensures LinkAt(HeadAfter(None, a), b, i)
    {
      assert LinkAt(None, a + b, |a| + i);
      assert (a + b)[|a| + i] == b[i] && (a + b)[..|a| + i] == a + b[..i];
    }
  }

  lemma ChainInvPrefix(batches: seq<Batch>)
    requires ChainInv(batches) && batches != []
    ensures ChainInv(batches[..|batches| - 1])
  {
    var n := |batches| - 1;
    var b := batches[n];
    LinkedSplit(Stream(batches[..n]), if b.VerifiedBatch? then b.content else []);
    forall i | 0 <= i < n ensures RowExtends(batches[..n], i) {
      assert RowExtends(batches, i);
      assert batches[..n][..i] == batches[..i];
    }
  }

  /** Adding a batch that starts at the last head and ends higher than all of them. */
  lemma OneChainSnoc(rows: seq<Batch>, b: Batch)
    requires OneChain(rows) && b.VerifiedBatch? && b.content != [] && Linked(b.firstPrev, b.content)
    requires b.firstPrev == if rows == [] then None else Some(rows[|rows| - 1].chainHead)
    requires b.chainHead == SubmittedHash(b.content[|b.content| - 1])
    requires forall i :: 0 <= i < |rows| ==> Height(rows[i].chainHead) < Height(b.chainHead)
    ensures OneChain(rows + [b])
  {
    var all := rows + [b];
    forall i | 0 <= i < |all| ensures LinksAt(all, i) {
      if i < |rows| {
        assert LinksAt(rows, i);
      }
    }
  }

  /** `rows` are one chain, end at the stream's head and stay within its height. */
  ghost predicate FormChain(rows: seq<Batch>, batches: seq<Batch>) {
    && OneChain(rows)
    && Head(batches) == (if rows == [] then None else Some(rows[|rows| - 1].chainHead))
    && forall i :: 0 <= i < |rows| ==> Height(rows[i].chainHead) <= |Stream(batches)|
  }

  lemma VerifiedRowJoins(rows: seq<Batch>, batches: seq<Batch>)
    requires ChainInv(batches) && batches != [] && batches[|batches| - 1].VerifiedBatch?
    requires FormChain(rows, batches[..|batches| - 1])
    ensures FormChain(rows + [batches[|batches| - 1]], batches)
  {
    LastRowLinks(batches);
    OneChainSnoc(rows, batches[|batches| - 1]);
  }

  /** A verified last row starts at the head of the rows before it and ends at the stream's height. */
  lemma LastRowLinks(batches: seq<Batch>)
    requires ChainInv(batches) && batches != [] && batches[|batches| - 1].VerifiedBatch?
    ensures var n := |batches| - 1;
            var b := batches[n];
            && b.content != [] && b.firstPrev == Head(batches[..n]) && Linked(b.firstPrev, b.content)
            && b.chainHead == SubmittedHash(b.content[|b.content| - 1]) && Head(batches) == Some(b.chainHead)
            && Height(b.chainHead) == |Stream(batches)| == |Stream(batches[..n])| + |b.content|
  {
    var n := |batches| - 1;
    assert batches[..n + 1] == batches;
    assert RowExtends(batches, n);
    RowHead(batches, n);
    HeadHeight(batches, n + 1);
    LinkedSplit(Stream(batches[..n]), batches[n].content);
  }

  lemma {:induction false} VerifiedRowsFormChain(batches: seq<Batch>)
    requires ChainInv(batches)
    ensures FormChain(VerifiedRows(batches), batches)
    decreases |batches|
  {
    if batches != [] {
      var n := |batches| - 1;
      ChainInvPrefix(batches);
      VerifiedRowsFormChain(batches[..n]);
      if batches[n].VerifiedBatch? {
        VerifiedRowJoins(VerifiedRows(batches[..n]), batches);
      } else {
        assert VerifiedRows(batches) == VerifiedRows(batches[..n]);
        assert Stream(batches) == Stream(batches[..n]);
      }
    }
  }

  /** The verified batches form one linear chain from genesis: no fork, no cycle, no gap. */
  lemma VerifiedBatchesFormOneChain(ck: Checks, actions: seq<Action>)
    ensures OneChain(VerifiedRows(Run(ck, INIT, actions).tables.batches))
  {
    RunKeepsInv(ck, actions);
    VerifiedRowsFormChain(Run(ck, INIT, actions).tables.batches);
  }

  lemma LaterRowIsLonger(batches: seq<Batch>, r1: nat, r2: nat)
    requires r1 < r2 < |batches| && batches[r2].VerifiedBatch? && RowExtends(batches, r2)
    ensures |Stream(batches[..r1 + 1])| < |Stream(batches[..r2 + 1])|
  {
    RowHead(batches, r2);
    StreamGrows(batches[..r2], r1 + 1);
    assert batches[..r2][..r1 + 1] == batches[..r1 + 1];
  }

  lemma HeadRowsEqual(batches: seq<Batch>, r1: nat, r2: nat)
    requires ChainInv(batches) && IsHeadRow(batches, r1) && IsHeadRow(batches, r2)
    ensures r1 == r2
  {
    HeadRowIsLast(batches, r1);
    HeadRowIsLast(batches, r2);
    assert RowExtends(batches, r1) && RowExtends(batches, r2);
    if r1 < r2 {
      LaterRowIsLonger(batches, r1, r2);
    } else if r2 < r1 {
      LaterRowIsLonger(batches, r2, r1);
    }
  }

  ghost predicate OneHeadRow(batches: seq<Batch>) {
    exists row :: IsHeadRow(batches, row) && forall r :: IsHeadRow(batches, r) ==> r == row
  }

  lemma HeadRowIsUnique(batches: seq<Batch>)
    requires ChainInv(batches) && Stream(batches) != []
    ensures OneHeadRow(batches)
  {
    assert batches[..|batches|] == batches;
    var row := HeadRowExists(batches, |batches|);
    forall r | IsHeadRow(batches, r) ensures r == row {
      HeadRowsEqual(batches, r, row);
    }
  }

  /** When anything is verified, exactly one row answers the head query, and it is the chain's end;
      the query's ORDER BY never matters. */
  lemma HeadQueryIsChainEnd(ck: Checks, actions: seq<Action>, choice: nat)
    ensures var batches := Run(ck, INIT, actions).tables.batches;
            var rows := VerifiedRows(batches);
            && ChainHead(batches, choice) == (if rows == [] then None else Some(rows[|rows| - 1].chainHead))
            && (rows != [] ==> OneHeadRow(batches))
  {
    RunKeepsInv(ck, actions);
    var batches := Run(ck, INIT, actions).tables.batches;
    VerifiedRowsFormChain(batches);
    ChainHeadIsHead(batches, choice);
    if VerifiedRows(batches) != [] {
      HeadRowIsUnique(batches);
    }
  }

  // ---- The event table ----

  ghost function TotalAccepted(batches: seq<Batch>): nat {
    if batches == [] then 0
    else
      var n := |batches| - 1;
      TotalAccepted(batches[..n]) + if batches[n].VerifiedBatch? then batches[n].accepted else 0
  }

  lemma {:induction false} AcceptedIsStreamLength(batches: seq<Batch>)
    requires forall i :: 0 <= i < |batches| ==> RowExtends(batches, i)
    ensures TotalAccepted(batches) == |Stream(batches)|
    decreases |batches|
  {
    if batches != [] {
      var n := |batches| - 1;
      assert RowExtends(batches, n);
      forall i | 0 <= i < n ensures RowExtends(batches[..n], i) {
        assert RowExtends(batches, i);
        assert batches[..n][..i] == batches[..i];
      }
      AcceptedIsStreamLength(batches[..n]);
    }
  }

  /** The event table is exactly the concatenation of the verified batches, hashes are unique, and
      the events_accepted columns add up to its size. */
  lemma EventTableIsTheStream(ck: Checks, actions: seq<Action>)
    ensures var t := Run(ck, INIT, actions).tables;
            && t.events == StreamRows(t.batches)
            && |t.events| == TotalAccepted(t.batches)
            && forall i, j :: 0 <= i < j < |t.events| ==> t.events[i].hash != t.events[j].hash
  {
    RunKeepsInv(ck, actions);
    var t := Run(ck, INIT, actions).tables;
    StreamRowsAreStream(t.batches);
    AcceptedIsStreamLength(t.batches);
    forall i, j | 0 <= i < j < |t.events| ensures t.events[i].hash != t.events[j].hash {
      LinkedDistinct(None, Stream(t.batches), i, j);
    }
  }

  lemma RejectedTick(ck: Checks, s: State, id: nat, choice: nat)
    requires id in s.flights && s.flights[id].phase.Persisting? && s.flights[id].phase.verdict.Rejected?
    ensures var t, t' := s.tables, Step(ck, s, Tick(id, choice)).tables;
            t'.events == t.events && t'.key == t.key && Stream(t'.batches) == Stream(t.batches)
  {
    var f := s.flights[id];
    var row := RejectedBatch(f.sub.events, f.sub.firstPrev, f.phase.verdict.issues);
    assert Step(ck, s, Tick(id, choice)).tables == Persist(s.tables, f.sub, f.phase.verdict).0;
    StreamSnoc(s.tables.batches, row);
  }

  /** A rejected batch adds no event and never moves the head. */
  lemma RejectionIsInert(ck: Checks, actions: seq<Action>, id: nat, choice: nat, c: nat)
    requires var s := Run(ck, INIT, actions);
      id in s.flights && s.flights[id].phase.Persisting? && s.flights[id].phase.verdict.Rejected?
    ensures var t := Run(ck, INIT, actions).tables;
            var t' := Run(ck, INIT, actions + [Tick(id, choice)]).tables;
            && t'.events == t.events && t'.key == t.key
            && Stream(t'.batches) == Stream(t.batches)
            && ChainHead(t'.batches, c) == ChainHead(t.batches, c)
  {
    var s := Run(ck, INIT, actions);
    var a := Tick(id, choice);
    assert (actions + [a])[..|actions|] == actions;
    RunKeepsInv(ck, actions);
    RunKeepsInv(ck, actions + [a]);
    RejectedTick(ck, s, id, choice);
    ChainHeadIsHead(s.tables.batches, c);
    ChainHeadIsHead(Step(ck, s, a).tables.batches, c);
  }

  // ---- Outcomes and signatures ----

  /** Every outcome in the stream follows an allowed decision with the id it names, although stored
      decisions are looked up outside the insert transaction. */
  lemma OutcomesFollowAllowedDecisions(ck: Checks, actions: seq<Action>)
    ensures OutcomesGrounded(Stream(Run(ck, INIT, actions).tables.batches))
  {
    RunKeepsInv(ck, actions);
  }

  /** Every stored event carries a valid signature under the one registered key. */
  lemma StoredEventsAreSigned(ck: Checks, actions: seq<Action>, k: nat)
    requires k < |Run(ck, INIT, actions).tables.events|
    ensures var t := Run(ck, INIT, actions).tables;
            t.key.Some? && Sound(ck, t.key.value, t.events[k].event)
  {
    RunKeepsInv(ck, actions);
    var t := Run(ck, INIT, actions).tables;
    StreamRowsAreStream(t.batches);
    assert Sound(ck, t.key.value, Stream(t.batches)[k]);
  }

  // ---- Responses ----

  /** Stored rows, keys and replay records are never changed or removed by anything that follows. */
  lemma {:induction false} NothingIsRewritten(ck: Checks, before: seq<Action>, after: seq<Action>)
    ensures Extends(Run(ck, INIT, before).tables, Run(ck, INIT, before + after).tables)
    decreases |after|
  {
    if after == [] {
      assert before + after == before;
    } else {
      var n := |after| - 1;
      var all := before + after;
      NothingIsRewritten(ck, before, after[..n]);
      assert all[..|all| - 1] == before + after[..n];
      var s := Run(ck, INIT, before + after[..n]);
      var a := after[n];
      if a.Tick? && a.id in s.flights {
        TickExtends(ck, s.tables, s.flights[a.id].sub, s.flights[a.id].phase, a.choice);
      }
    }
  }

  function ReportedBody(phase: Phase): Option<Body> {
    match phase
    case Responding(body) => Some(body)
    case Answered(Reported(body)) => Some(body)
    case Answered(Replayed(body)) => Some(body)
    case _ => None
  }

  /** Whatever path a submission took, the row it is told about stores exactly its own events. */
  lemma ReportedRowHoldsSubmission(ck: Checks, actions: seq<Action>, id: nat)
    requires var s := Run(ck, INIT, actions); id in s.flights && ReportedBody(s.flights[id].phase).Some?
    ensures var s := Run(ck, INIT, actions);
            var row := ReportedBody(s.flights[id].phase).value.row;
            row < |s.tables.batches| && s.tables.batches[row].content == s.flights[id].sub.events
  {
    RunKeepsInv(ck, actions);
    var s := Run(ck, INIT, actions);
    assert FlightInv(ck, s.tables, s.flights[id]);
  }
}
