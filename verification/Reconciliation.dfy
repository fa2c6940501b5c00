/**
 The operator reconciliation log of one run
 (igris-overture/api/operator_reconciliation.go appendOperatorReconciliation,
 reconciliationRequestMatches, loadOperatorReconciliationState).

 Appends of one run are serialized by an advisory lock held to the end of the transaction, so each
 is one step. Rows are read back in timestamp order, which need not be append order.
 */
module Reconciliation {
  import opened Options

  datatype Resolution = ConfirmedSucceeded | ConfirmedFailed | RemainsUnknown

  datatype Reference = Reference(kind: string, value: string)

  /** A decoded operator request. */
  datatype Request = Request(id: string, resolution: Resolution, reason: string, external: Option<Reference>)

  /** A stored row. SQL NULLs of the reference columns are read back as empty strings. */
  datatype Event =
    | Observed
    | Operator(requestId: string, actor: string, resolution: Resolution, reason: string, kind: string, value: string)

  type Log = seq<Event>

  const REFERENCE_KINDS := {"provider_reference", "transaction_id", "deployment_id", "ticket_id"}

  /** What decodeOperatorReconciliationRequest guarantees about an external reference. */
  predicate Decoded(req: Request) {
    req.external.Some? ==> req.external.value.kind in REFERENCE_KINDS && req.external.value.value != ""
  }

  predicate IsTerminal(e: Event) { e.Operator? && !e.resolution.RemainsUnknown? }

  function EventOf(actor: string, req: Request): Event {
    Operator(req.id, actor, req.resolution, req.reason,
             if req.external.Some? then req.external.value.kind else "",
             if req.external.Some? then req.external.value.value else "")
  }

  /** reconciliationRequestMatches. */
  predicate Matches(e: Event, actor: string, req: Request) {
    && e.Operator? && e.actor == actor && e.resolution == req.resolution && e.reason == req.reason
    && (if req.external.None? then e.kind == "" && e.value == ""
        else e.kind == req.external.value.kind && e.value == req.external.value.value)
  }

  function FindRequest(log: Log, id: string): (row: Option<nat>)
    ensures row.Some? ==> row.value < |log| && log[row.value].Operator? && log[row.value].requestId == id
    ensures row.None? ==> forall i :: 0 <= i < |log| && log[i].Operator? ==> log[i].requestId != id
  {
    if log == [] then None
    else if log[|log| - 1].Operator? && log[|log| - 1].requestId == id then Some(|log| - 1)
    else FindRequest(log[..|log| - 1], id)
  }

  predicate HasTerminal(log: Log) { exists i :: 0 <= i < |log| && IsTerminal(log[i]) }
  predicate HasObserved(log: Log) { exists i :: 0 <= i < |log| && log[i].Observed? }

  datatype Reply = Appended(event: Event) | Replayed(event: Event) | Conflict | NotRequired

  function ReplyTo(log: Log, actor: string, req: Request): Reply {
    var row := FindRequest(log, req.id);
    if row.Some? then
      if Matches(log[row.value], actor, req) then Replayed(log[row.value]) else Conflict
    else if HasTerminal(log) then Conflict
    else if !HasObserved(log) then NotRequired
    else Appended(EventOf(actor, req))
  }

  function Append(log: Log, actor: string, req: Request): Log {
    var reply := ReplyTo(log, actor, req);
    if reply.Appended? then log + [reply.event] else log
  }

  class EventTable {
    var log: Log

    constructor ()
      ensures log == []
    {
      log := [];
    }

    /** The runtime's unresolved-effect observation; the unique index keeps one. */
    method Observe()
      modifies this
      ensures log == if HasObserved(old(log)) then old(log) else old(log) + [Observed]
    {
      if !HasObserved(log) {
        log := log + [Observed];
      }
    }

    /** appendOperatorReconciliation. */
    method AppendOperatorReconciliation(actor: string, req: Request) returns (reply: Reply)
      modifies this
      ensures log == Append(old(log), actor, req) && reply == ReplyTo(old(log), actor, req)
    {
      var existing := FindRequest(log, req.id);
      if existing.Some? {
        if Matches(log[existing.value], actor, req) {
          return Replayed(log[existing.value]);
        }
        return Conflict;
      }
      for i := 0 to |log|
        invariant forall j :: 0 <= j < i ==> !IsTerminal(log[j])
      {
        if IsTerminal(log[i]) {
          return Conflict;
        }
      }
      if !HasObserved(log) {
        return NotRequired;
      }
      var event := EventOf(actor, req);
      log := log + [event];
      reply := Appended(event);
    }
  }

  // ---- Every run of the log ----

  datatype Action = Observation | Operate(actor: string, req: Request)

  function Step(log: Log, a: Action): Log {
    match a
    case Observation => if HasObserved(log) then log else log + [Observed]
    case Operate(actor, req) => if Decoded(req) then Append(log, actor, req) else log
  }

  function Run(log: Log, actions: seq<Action>): Log {
    if actions == [] then log else Step(Run(log, actions[..|actions| - 1]), actions[|actions| - 1])
  }

  /** The observation comes first and once, a terminal resolution comes last, request ids are not reused,
      and rows carry well-formed references. */
  ghost predicate LogInv(log: Log) {
    && (forall i :: 0 <= i < |log| ==> (log[i].Observed? <==> i == 0))
    && (forall i :: 0 <= i < |log| && IsTerminal(log[i]) ==> i == |log| - 1)
    && (forall i, j :: 0 <= i < j < |log| && log[i].Operator? && log[j].Operator? ==>
          log[i].requestId != log[j].requestId)
    && (forall i :: 0 <= i < |log| && log[i].Operator? ==> (log[i].kind == "" <==> log[i].value == ""))
  }

  lemma StepKeepsLog(log: Log, a: Action)
    requires LogInv(log)
    ensures LogInv(Step(log, a)) && log <= Step(log, a)
  {
    assert log != [] ==> log[0].Observed?;
    assert a.Observation? && !HasObserved(log) ==> Step(log, a) == [Observed];
  }

  lemma {:induction false} RunKeepsLog(actions: seq<Action>)
    ensures LogInv(Run([], actions))
    decreases |actions|
  {
    if actions != [] {
      RunKeepsLog(actions[..|actions| - 1]);
      StepKeepsLog(Run([], actions[..|actions| - 1]), actions[|actions| - 1]);
    }
  }

  lemma {:induction false} RunOnlyAppends(before: seq<Action>, after: seq<Action>)
    ensures Run([], before) <= Run([], before + after)
    decreases |after|
  {
    if after == [] {
      assert before + after == before;
    } else {
      var n := |after| - 1;
      RunOnlyAppends(before, after[..n]);
      RunKeepsLog(before + after[..n]);
      assert (before + after)[..|before + after| - 1] == before + after[..n];
      StepKeepsLog(Run([], before + after[..n]), after[n]);
    }
  }

  /** At most one terminal resolution; no operator event without the observation before it. */
  lemma OneTerminalAfterObservation(actions: seq<Action>, i: nat, j: nat)
    requires i < |Run([], actions)| && j < |Run([], actions)|
    ensures var log := Run([], actions);
            && (IsTerminal(log[i]) && IsTerminal(log[j]) ==> i == j)
            && (log[i].Operator? ==> 0 < i && log[0].Observed?)
  {
    RunKeepsLog(actions);
  }

  /** Nothing is ever appended after a terminal resolution. */
  lemma {:induction false} TerminalIsFinal(before: seq<Action>, after: seq<Action>)
    requires HasTerminal(Run([], before))
    ensures Run([], before + after) == Run([], before)
    decreases |after|
  {
    if after == [] {
      assert before + after == before;
    } else {
      var n := |after| - 1;
      TerminalIsFinal(before, after[..n]);
      assert (before + after)[..|before + after| - 1] == before + after[..n];
      RunKeepsLog(before + after[..n]);
      assert Run([], before)[0].Observed?;
    }
  }

  // ---- Idempotent requests ----

  /** For decoded requests, a stored event matches exactly the request it was made from: nil and
      present references cannot be confused. */
  lemma MatchesIffSameContent(actor: string, req: Request, actor': string, req': Request)
    requires Decoded(req) && Decoded(req')
    ensures Matches(EventOf(actor, req), actor', req')
       <==> actor == actor' && req.resolution == req'.resolution && req.reason == req'.reason
            && req.external == req'.external
  {
    assert "" !in REFERENCE_KINDS;
  }

  /** The decoder's non-empty rule is needed: an empty reference would match an absent one. */
  lemma EmptyReferenceWouldMatchNone()
    ensures var req := Request("r", RemainsUnknown, "x", None);
            var req' := Request("r", RemainsUnknown, "x", Some(Reference("", "")));
            Matches(EventOf("a", req), "a", req') && req != req' && !Decoded(req')
  {
    assert "" !in REFERENCE_KINDS;
  }

  /** Once a request id has been accepted, repeating it at any later time returns that event and appends
      nothing, and reusing it with different content always conflicts. */
  lemma RepeatedRequest(
    before: seq<Action>, actor: string, req: Request, after: seq<Action>, actor': string, req': Request)
    requires Decoded(req) && Decoded(req') && req'.id == req.id
    requires ReplyTo(Run([], before), actor, req).Appended?
    ensures var log := Run([], before + [Operate(actor, req)] + after);
            && Append(log, actor', req') == log
            && ReplyTo(log, actor', req') ==
                 if actor' == actor && req' == req then Replayed(EventOf(actor, req)) else Conflict
  {
    var first := before + [Operate(actor, req)];
    assert first[..|before|] == before;
    RunOnlyAppends(first, after);
    RunKeepsLog(first + after);
    var log := Run([], first + after);
    var n := |Run([], before)|;
    assert Run([], first)[n] == EventOf(actor, req);
    assert log[n] == EventOf(actor, req);
    assert FindRequest(log, req.id) == Some(n);
    MatchesIffSameContent(actor, req, actor', req');
  }

  /** In a run's log the effect has been observed exactly when an observation was made. */
  lemma {:induction false} ObservedIffObservation(actions: seq<Action>)
    ensures Observed in Run([], actions) <==> Observation in actions
    decreases |actions|
  {
    if actions != [] {
      var n := |actions| - 1;
      ObservedIffObservation(actions[..n]);
      var log, log' := Run([], actions[..n]), Run([], actions);
      assert actions == actions[..n] + [actions[n]];
      assert Observed in log <==> HasObserved(log);
    }
  }

  /** A terminal event: an operator has confirmed success or failure. */
  predicate Confirms(e: Event) { e.Operator? && e.resolution in {ConfirmedSucceeded, ConfirmedFailed} }

  /** A request id not seen before conflicts exactly when success or failure is already confirmed, is refused as
      not required exactly when neither that nor an observation has happened, and is appended otherwise, with
      its own id, actor, resolution, reason and reference. */
  lemma NewRequestIsAnswered(actions: seq<Action>, actor: string, req: Request)
    requires forall e <- Run([], actions) :: e.Operator? ==> e.requestId != req.id
    ensures var log, reply := Run([], actions), ReplyTo(Run([], actions), actor, req);
      var confirmed := exists e <- log :: Confirms(e);
      && (reply == Conflict <==> confirmed)
      && (reply == NotRequired <==> !confirmed && Observation !in actions)
      && (reply.Appended? <==> !confirmed && Observation in actions)
      && (reply.Appended? ==>
            && Append(log, actor, req) == log + [reply.event] && reply.event.Operator?
            && reply.event.requestId == req.id && reply.event.actor == actor
            && reply.event.resolution == req.resolution && reply.event.reason == req.reason
            && reply.event.kind == (if req.external.Some? then req.external.value.kind else "")
            && reply.event.value == (if req.external.Some? then req.external.value.value else ""))
      && (!reply.Appended? ==> Append(log, actor, req) == log)
  {
    ObservedIffObservation(actions);
    var log := Run([], actions);
    assert HasObserved(log) <==> Observed in log;
    assert HasTerminal(log) <==> exists e <- log :: Confirms(e) by {
      assert forall i :: 0 <= i < |log| ==> log[i] in log && (IsTerminal(log[i]) <==> Confirms(log[i]));
    }
    assert FindRequest(log, req.id).None?;
  }

  // ---- Reading the state back ----

  datatype Current = Required | Confirmed(resolution: Resolution) | StillUnknown

  datatype Snapshot = Snapshot(required: bool, current: Current, history: seq<Event>)

  /** What a log means, without any order: its terminal resolution, else unknown if an operator has
      spoken, else required. */
  ghost predicate Means(rows: multiset<Event>, current: Current) {
    match current
    case Confirmed(r) => exists e :: e in rows && IsTerminal(e) && e.resolution == r
    case StillUnknown => (forall e :: e in rows ==> !IsTerminal(e)) && exists e :: e in rows && e.Operator?
    case Required => forall e :: e in rows ==> e.Observed?
  }

  /** All terminal resolutions in the rows agree. */
  ghost predicate TerminalsAgree(rows: multiset<Event>) {
    forall d, e :: d in rows && e in rows && IsTerminal(d) && IsTerminal(e) ==> d.resolution == e.resolution
  }

  lemma MeaningIsUnique(rows: multiset<Event>, c: Current, d: Current)
    requires TerminalsAgree(rows) && Means(rows, c) && Means(rows, d)
    ensures c == d
  {
  }

  /** The read-back loop as a function of the rows read so far. */
  function Fold(rows: seq<Event>): (Option<Resolution>, Current) {
    if rows == [] then (None, Required)
    else
      var (terminal, current) := Fold(rows[..|rows| - 1]);
      var e := rows[|rows| - 1];
      if IsTerminal(e) then (Some(e.resolution), current)
      else if e.Operator? && terminal.None? then (terminal, StillUnknown)
      else (terminal, current)
  }

  /** The state reported for rows read in this order. */
  function ReadState(rows: seq<Event>): Current {
    var (terminal, current) := Fold(rows);
    if terminal.Some? then Confirmed(terminal.value) else current
  }

  /** The fold ends on the last terminal resolution, and without one on the operator's silence or not. */
  lemma {:induction false} FoldMeaning(rows: seq<Event>)
    ensures var (terminal, current) := Fold(rows);
            && (terminal.Some? ==> Means(multiset(rows), Confirmed(terminal.value)))
            && (terminal.None? ==> Means(multiset(rows), current) && !current.Confirmed?)
    decreases |rows|
  {
    if rows != [] {
      var n := |rows| - 1;
      FoldMeaning(rows[..n]);
      assert rows == rows[..n] + [rows[n]];
      assert multiset(rows) == multiset(rows[..n]) + multiset{rows[n]};
    }
  }

  /** loadOperatorReconciliationState. Whatever order the rows come in, provided the observation is first,
      the state is what the log means. */
  method LoadOperatorReconciliationState(rows: seq<Event>) returns (snapshot: Option<Snapshot>)
    ensures snapshot.None? <==> rows == [] || !rows[0].Observed?
    ensures snapshot.Some? ==>
      && snapshot.value.history == rows && snapshot.value.current == ReadState(rows)
      && Means(multiset(rows), snapshot.value.current)
      && (snapshot.value.required <==> forall e :: e in multiset(rows) ==> !IsTerminal(e))
  {
    var history: seq<Event> := [];
    var current, terminal := Required, None;
    for i := 0 to |rows|
      invariant history == rows[..i]
      invariant (terminal, current) == Fold(rows[..i])
    {
      var event := rows[i];
      assert rows[..i + 1][..i] == rows[..i];
      history := history + [event];
      if IsTerminal(event) {
        terminal := Some(event.resolution);
      } else if event.Operator? && terminal.None? {
        current := StillUnknown;
      }
    }
    assert rows[..|rows|] == rows;
    FoldMeaning(rows);
    if |history| == 0 || !history[0].Observed? {
      return None;
    }
    if terminal.Some? {
      current := Confirmed(terminal.value);
    }
    snapshot := Some(Snapshot(!current.Confirmed?, current, history));
  }

  lemma ReadStateMeaning(rows: seq<Event>)
    ensures Means(multiset(rows), ReadState(rows))
  {
    FoldMeaning(rows);
  }

  /** Rows whose terminal resolutions agree read back the same in every order. */
  lemma AgreeingRowsIgnoreOrder(rows: seq<Event>, other: seq<Event>)
    requires multiset(rows) == multiset(other) && TerminalsAgree(multiset(rows))
    ensures ReadState(rows) == ReadState(other)
  {
    ReadStateMeaning(rows);
    ReadStateMeaning(other);
    MeaningIsUnique(multiset(rows), ReadState(rows), ReadState(other));
  }

  lemma LogTerminalsAgree(log: Log)
    requires LogInv(log)
    ensures TerminalsAgree(multiset(log))
  {
    forall x, y | x in multiset(log) && y in multiset(log) && IsTerminal(x) && IsTerminal(y)
      ensures x.resolution == y.resolution
    {
      assert x in log && y in log;
    }
  }

  /** Every log the append path can produce reads back as one state, whatever order its rows come in: the
      terminal resolution if any, else unknown if an operator has spoken, else required. */
  lemma ReadBackIgnoresOrder(actions: seq<Action>, rows: seq<Event>)
    requires multiset(rows) == multiset(Run([], actions))
    ensures ReadState(rows) == ReadState(Run([], actions)) && Means(multiset(Run([], actions)), ReadState(rows))
  {
    RunKeepsLog(actions);
    LogTerminalsAgree(Run([], actions));
    AgreeingRowsIgnoreOrder(rows, Run([], actions));
    ReadStateMeaning(rows);
  }

  /** Reading a terminal row last reports its resolution. */
  lemma LastTerminalDecides(rest: seq<Event>, x: Event)
    requires IsTerminal(x)
    ensures ReadState(rest + [x]) == Confirmed(x.resolution)
  {
    assert (rest + [x])[..|rest|] == rest;
  }

  /** The same rows with one of them moved to the end. */
  lemma MovedToEnd(rows: seq<Event>, x: Event) returns (rest: seq<Event>)
    requires x in rows
    ensures multiset(rest + [x]) == multiset(rows)
  {
    var i :| 0 <= i < |rows| && rows[i] == x;
    rest := rows[..i] + rows[i + 1..];
    assert rows == rows[..i] + [x] + rows[i + 1..];
  }

  ghost predicate OrderDoesNotMatter(rows: seq<Event>) {
    forall other :: multiset(other) == multiset(rows) ==> ReadState(other) == ReadState(rows)
  }

  /** Rows read back the same in every order exactly when their terminal resolutions agree. */
  lemma OrderIgnoredIff(rows: seq<Event>)
    ensures OrderDoesNotMatter(rows) <==> TerminalsAgree(multiset(rows))
  {
    if TerminalsAgree(multiset(rows)) {
      forall other | multiset(other) == multiset(rows) ensures ReadState(other) == ReadState(rows) {
        AgreeingRowsIgnoreOrder(rows, other);
      }
    } else {
      var x, y :| x in multiset(rows) && y in multiset(rows) && IsTerminal(x) && IsTerminal(y)
               && x.resolution != y.resolution;
      var a := MovedToEnd(rows, x);
      var b := MovedToEnd(rows, y);
      LastTerminalDecides(a, x);
      LastTerminalDecides(b, y);
      assert multiset(a + [x]) == multiset(rows) == multiset(b + [y]);
      assert !OrderDoesNotMatter(rows);
    }
  }
}
