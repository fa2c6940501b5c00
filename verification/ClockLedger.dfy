/**
 The Clock 3B adapter's ledger (examples/clock_3b_contract_bound_adapter.py): one lock is held from the
 reservation to the recorded result, and the process may die at any point in between.
 */
module ClockLedger {
  import opened Options

  type Key = string

  datatype Record =
    | InProgress(hash: string)
    | Completed(hash: string, result: string)
    | NeedsReconciliation(hash: string)

  /** The ledger file, and the durable log of effects actually performed (here: for which key). */
  datatype Disk = Disk(records: map<Key, Record>, effectCount: nat, invocationCount: nat, effects: seq<Key>)

  datatype Reply = Returned(result: string, replayed: bool) | Conflict | Unresolved | Uncertain

  datatype Pc =
    | Waiting                      // wants the lock
    | Reserved                     // reservation stored, effect not performed
    | Performed(result: string)    // effect performed, result not stored
    | Failed                       // the operation raised; whether before or after its effect is not known
    | Done(reply: Reply)

  datatype Thread = Thread(key: Key, hash: string, pc: Pc)

  datatype State = State(disk: Disk, lock: Option<nat>, threads: map<nat, Thread>)

  const EMPTY := Disk(map[], 0, 0, [])
  const INIT := State(EMPTY, None, map[])

  /** What the wrapped operation does next. */
  datatype Effect = Succeeds(result: string) | RaisesBefore | RaisesAfter

  datatype Action =
    | Spawn(tid: nat, key: Key, hash: string)
    | Tick(tid: nat, effect: Effect)
    | Kill(tid: nat)
    | Crash

  function Refusal(r: Record, hash: string): Reply {
    if r.hash != hash then Conflict
    else if r.Completed? then Returned(r.result, true)
    else Unresolved
  }

  // ---- The three stores of execute ----

  function StoreReservation(d: Disk, key: Key, hash: string): Disk {
    d.(records := d.records[key := InProgress(hash)], invocationCount := d.invocationCount + 1)
  }

  function StoreUncertain(d: Disk, key: Key, hash: string): Disk {
    d.(records := d.records[key := NeedsReconciliation(hash)])
  }

  function StoreResult(d: Disk, key: Key, hash: string, result: string): Disk {
    d.(records := d.records[key := Completed(hash, result)], effectCount := d.effectCount + 1)
  }

  function PerformEffect(d: Disk, key: Key): Disk { d.(effects := d.effects + [key]) }

  function TickThread(s: State, tid: nat, effect: Effect): State
    requires tid in s.threads
  {
    var th := s.threads[tid];
    match th.pc
    case Waiting =>
      if s.lock.Some? then s
      else if th.key in s.disk.records then
        s.(threads := s.threads[tid := th.(pc := Done(Refusal(s.disk.records[th.key], th.hash)))])
      else
        State(StoreReservation(s.disk, th.key, th.hash), Some(tid), s.threads[tid := th.(pc := Reserved)])
    case Reserved =>
      (match effect
       case Succeeds(result) =>
         State(PerformEffect(s.disk, th.key), s.lock, s.threads[tid := th.(pc := Performed(result))])
       case RaisesBefore => s.(threads := s.threads[tid := th.(pc := Failed)])
       case RaisesAfter => State(PerformEffect(s.disk, th.key), s.lock, s.threads[tid := th.(pc := Failed)]))
    case Performed(result) =>
      State(StoreResult(s.disk, th.key, th.hash, result), None,
            s.threads[tid := th.(pc := Done(Returned(result, false)))])
    case Failed =>
      State(StoreUncertain(s.disk, th.key, th.hash), None, s.threads[tid := th.(pc := Done(Uncertain))])
    case Done(_) => s
  }

  function Step(s: State, a: Action): State {
    match a
    case Spawn(tid, key, hash) =>
      if tid in s.threads then s else s.(threads := s.threads[tid := Thread(key, hash, Waiting)])
    case Tick(tid, effect) => if tid !in s.threads then s else TickThread(s, tid, effect)
    case Kill(tid) => s.(threads := s.threads - {tid}, lock := if s.lock == Some(tid) then None else s.lock)
    case Crash => s.(threads := map[], lock := None)
  }

  function Run(s: State, actions: seq<Action>): State {
    if actions == [] then s else Step(Run(s, actions[..|actions| - 1]), actions[|actions| - 1])
  }

  // ---- Invariant ----

  ghost function CompletedKeys(d: Disk): set<Key> { set k | k in d.records && d.records[k].Completed? }
  ghost function EffectKeys(d: Disk): set<Key> { set k | k in d.effects }

  ghost predicate NoRepeats(keys: seq<Key>) {
    forall i, j :: 0 <= i < j < |keys| ==> keys[i] != keys[j]
  }

  ghost predicate DiskInv(d: Disk) {
    && NoRepeats(d.effects)
    && CompletedKeys(d) <= EffectKeys(d) <= d.records.Keys
    && d.effectCount == |CompletedKeys(d)|
    && d.invocationCount == |d.records|
  }

  predicate InSection(pc: Pc) { pc.Reserved? || pc.Performed? || pc.Failed? }

  ghost predicate ThreadInv(s: State, t: nat)
    requires t in s.threads
  {
    var th := s.threads[t];
    && (InSection(th.pc) ==>
          s.lock == Some(t) && th.key in s.disk.records && s.disk.records[th.key] == InProgress(th.hash))
    && (th.pc.Reserved? ==> th.key !in s.disk.effects)
    && (th.pc.Performed? ==> th.key in s.disk.effects)
    && (match th.pc
        case Done(Returned(result, _)) =>
          th.key in s.disk.records && s.disk.records[th.key] == Completed(th.hash, result)
        case _ => true)
  }

  ghost predicate Inv(s: State) {
    DiskInv(s.disk) && forall t :: t in s.threads ==> ThreadInv(s, t)
  }

  lemma ReservationKeepsDisk(d: Disk, key: Key, hash: string)
    requires DiskInv(d) && key !in d.records
    ensures DiskInv(StoreReservation(d, key, hash))
  {
    var d' := StoreReservation(d, key, hash);
    assert CompletedKeys(d') == CompletedKeys(d);
    assert d'.records.Keys == d.records.Keys + {key};
  }

  lemma EffectKeepsDisk(d: Disk, key: Key)
    requires DiskInv(d) && key in d.records && key !in d.effects
    ensures DiskInv(PerformEffect(d, key))
  {
    var d' := PerformEffect(d, key);
    assert EffectKeys(d') == EffectKeys(d) + {key};
    assert CompletedKeys(d') == CompletedKeys(d);
  }

  lemma UncertainKeepsDisk(d: Disk, key: Key, hash: string)
    requires DiskInv(d) && key in d.records && d.records[key].InProgress?
    ensures DiskInv(StoreUncertain(d, key, hash))
  {
    var d' := StoreUncertain(d, key, hash);
    assert CompletedKeys(d') == CompletedKeys(d);
    assert d'.records.Keys == d.records.Keys;
  }

  lemma ResultKeepsDisk(d: Disk, key: Key, hash: string, result: string)
    requires DiskInv(d) && key in d.records && d.records[key].InProgress? && key in d.effects
    ensures DiskInv(StoreResult(d, key, hash, result))
  {
    var d' := StoreResult(d, key, hash, result);
    assert CompletedKeys(d') == CompletedKeys(d) + {key};
    assert d'.records.Keys == d.records.Keys;
  }

  lemma TickKeepsDisk(s: State, tid: nat, effect: Effect)
    requires Inv(s) && tid in s.threads
    ensures DiskInv(TickThread(s, tid, effect).disk)
  {
    assert ThreadInv(s, tid);
    var th := s.threads[tid];
    match th.pc {
      case Waiting =>
        if s.lock.None? && th.key !in s.disk.records {
          ReservationKeepsDisk(s.disk, th.key, th.hash);
        }
      case Reserved =>
        if !effect.RaisesBefore? {
          EffectKeepsDisk(s.disk, th.key);
        }
      case Performed(result) => ResultKeepsDisk(s.disk, th.key, th.hash, result);
      case Failed => UncertainKeepsDisk(s.disk, th.key, th.hash);
      case Done(_) =>
    }
  }

  lemma TickKeepsThread(s: State, tid: nat, effect: Effect, t: nat)
    requires Inv(s) && tid in s.threads && t in s.threads
    ensures ThreadInv(TickThread(s, tid, effect), t)
  {
    assert ThreadInv(s, tid) && ThreadInv(s, t);
  }

  lemma StepKeepsInv(s: State, a: Action)
    requires Inv(s)
    ensures Inv(Step(s, a))
  {
    var s' := Step(s, a);
    match a {
      case Tick(tid, effect) =>
        if tid in s.threads {
          TickKeepsDisk(s, tid, effect);
          forall t | t in s'.threads ensures ThreadInv(s', t) {
            TickKeepsThread(s, tid, effect, t);
          }
        }
      case Spawn(tid, _, _) =>
        forall t | t in s'.threads ensures ThreadInv(s', t) {
          assert t in s.threads ==> ThreadInv(s, t);
        }
      case Kill(tid) =>
        forall t | t in s'.threads ensures ThreadInv(s', t) {
          assert ThreadInv(s, t);
        }
      case Crash =>
    }
  }

  lemma {:induction false} RunKeepsInv(actions: seq<Action>)
    ensures Inv(Run(INIT, actions))
    decreases |actions|
  {
    if actions != [] {
      RunKeepsInv(actions[..|actions| - 1]);
      StepKeepsInv(Run(INIT, actions[..|actions| - 1]), actions[|actions| - 1]);
    }
  }

  // ---- What every run guarantees ----

  /** Over all runs and crashes, the effect of a key is performed at most once. */
  lemma EffectAtMostOnce(actions: seq<Action>, i: nat, j: nat)
    requires i < j < |Run(INIT, actions).disk.effects|
    ensures Run(INIT, actions).disk.effects[i] != Run(INIT, actions).disk.effects[j]
  {
    RunKeepsInv(actions);
  }

  lemma {:induction false} NoRepeatsCard(keys: seq<Key>)
    requires NoRepeats(keys)
    ensures |keys| == |set k | k in keys|
    decreases |keys|
  {
    if keys != [] {
      var n := |keys| - 1;
      NoRepeatsCard(keys[..n]);
      assert (set k | k in keys) == (set k | k in keys[..n]) + {keys[n]};
    }
  }

  lemma SubsetCard(a: set<Key>, b: set<Key>)
    requires a <= b
    ensures |a| <= |b|
  {
    assert b == a + (b - a);
  }

  /** The counters stay honest: results recorded = completed records <= effects performed
      <= invocations counted = records. */
  lemma CountersAreOrdered(actions: seq<Action>)
    ensures var d := Run(INIT, actions).disk;
            d.effectCount == |CompletedKeys(d)| <= |d.effects| <= d.invocationCount == |d.records|
  {
    RunKeepsInv(actions);
    var d := Run(INIT, actions).disk;
    NoRepeatsCard(d.effects);
    SubsetCard(CompletedKeys(d), EffectKeys(d));
    SubsetCard(EffectKeys(d), d.records.Keys);
  }

  /** Whatever a request is told as a result, first time or replayed, is what the ledger stores. */
  lemma ReplayReturnsStoredResult(actions: seq<Action>, t: nat)
    requires t in Run(INIT, actions).threads && Run(INIT, actions).threads[t].pc.Done?
    requires Run(INIT, actions).threads[t].pc.reply.Returned?
    ensures var s := Run(INIT, actions); var th := s.threads[t];
            && th.key in s.disk.records
            && s.disk.records[th.key] == Completed(th.hash, th.pc.reply.result)
  {
    RunKeepsInv(actions);
    assert ThreadInv(Run(INIT, actions), t);
  }

  /** A request that takes the lock and finds its key is answered in that step, with nothing changed: a completed
      request of its own is replayed, an unfinished one is unresolved, and another's is a conflict. */
  lemma KnownKeyIsAnswered(actions: seq<Action>, t: nat, effect: Effect)
    requires var s := Run(INIT, actions);
      t in s.threads && s.threads[t].pc == Waiting && s.lock.None? && s.threads[t].key in s.disk.records
    ensures var s, r := Run(INIT, actions), Run(INIT, actions + [Tick(t, effect)]);
      var record, hash := s.disk.records[s.threads[t].key], s.threads[t].hash;
      && r.disk == s.disk && r.lock.None? && t in r.threads && r.threads[t].pc.Done?
      && (r.threads[t].pc.reply == Conflict <==> record.hash != hash)
      && (forall result :: record == Completed(hash, result) ==> r.threads[t].pc.reply == Returned(result, true))
      && (r.threads[t].pc.reply == Unresolved <==> record == InProgress(hash) || record == NeedsReconciliation(hash))
  {
    assert (actions + [Tick(t, effect)])[..|actions|] == actions;
  }

  /** A new request that nobody interrupts: what the four steps leave on disk and answer. */
  lemma SoloExecute(s: State, t: nat, key: Key, hash: string, effect: Effect)
    requires s.lock.None? && t !in s.threads && key !in s.disk.records
    ensures var r := Step(Step(Step(Step(s, Spawn(t, key, hash)), Tick(t, effect)), Tick(t, effect)), Tick(t, effect));
      && r.lock.None? && t in r.threads
      && r.disk.invocationCount == s.disk.invocationCount + 1
      && (match effect
          case Succeeds(result) =>
            && r.threads[t].pc == Done(Returned(result, false))
            && r.disk.records == s.disk.records[key := Completed(hash, result)]
            && r.disk.effects == s.disk.effects + [key] && r.disk.effectCount == s.disk.effectCount + 1
          case RaisesBefore =>
            && r.threads[t].pc == Done(Uncertain)
            && r.disk.records == s.disk.records[key := NeedsReconciliation(hash)]
            && r.disk.effects == s.disk.effects && r.disk.effectCount == s.disk.effectCount
          case RaisesAfter =>
            && r.threads[t].pc == Done(Uncertain)
            && r.disk.records == s.disk.records[key := NeedsReconciliation(hash)]
            && r.disk.effects == s.disk.effects + [key] && r.disk.effectCount == s.disk.effectCount)
  {
    var s1 := Step(s, Spawn(t, key, hash));
    var s2 := Step(s1, Tick(t, effect));
    assert s2.threads[t] == Thread(key, hash, Reserved) && s2.disk.records == s.disk.records[key := InProgress(hash)];
    var s3 := Step(s2, Tick(t, effect));
    assert s3.threads[t].key == key && s3.threads[t].hash == hash && s3.disk.records == s2.disk.records;
    var r := Step(s3, Tick(t, effect));
    assert effect.Succeeds? ==> r.disk.records == s.disk.records[key := Completed(hash, effect.result)];
    assert !effect.Succeeds? ==> r.disk.records == s.disk.records[key := NeedsReconciliation(hash)];
  }

  /** The key is reserved and its thread is gone, or its end is recorded. */
  ghost predicate Settled(s: State, key: Key) {
    key in s.disk.records && forall t :: t in s.threads && s.threads[t].key == key ==> !InSection(s.threads[t].pc)
  }

  lemma StepKeepsSettled(s: State, a: Action, key: Key)
    requires Inv(s) && Settled(s, key)
    ensures Settled(Step(s, a), key)
    ensures Step(s, a).disk.records[key] == s.disk.records[key]
    ensures key in Step(s, a).disk.effects <==> key in s.disk.effects
  {
    if a.Tick? && a.tid in s.threads {
      assert ThreadInv(s, a.tid);
    }
  }

  lemma {:induction false} RunConcat(s: State, before: seq<Action>, after: seq<Action>)
    ensures Run(s, before + after) == Run(Run(s, before), after)
    decreases |after|
  {
    if after == [] {
      assert before + after == before;
    } else {
      RunConcat(s, before, after[..|after| - 1]);
      assert (before + after)[..|before + after| - 1] == before + after[..|after| - 1];
    }
  }

  lemma {:induction false} SettledStays(s: State, after: seq<Action>, key: Key)
    requires Inv(s) && Settled(s, key)
    ensures var r := Run(s, after);
            && Inv(r) && Settled(r, key) && r.disk.records[key] == s.disk.records[key]
            && (key in r.disk.effects <==> key in s.disk.effects)
    decreases |after|
  {
    if after != [] {
      var n := |after| - 1;
      SettledStays(s, after[..n], key);
      StepKeepsInv(Run(s, after[..n]), after[n]);
      StepKeepsSettled(Run(s, after[..n]), after[n], key);
    }
  }

  /** An orphaned reservation is never permission to execute again, and a recorded end never changes. */
  lemma SettledForEver(before: seq<Action>, after: seq<Action>, key: Key)
    requires Settled(Run(INIT, before), key)
    ensures var s, s' := Run(INIT, before), Run(INIT, before + after);
            && Settled(s', key) && s'.disk.records[key] == s.disk.records[key]
            && (key in s'.disk.effects <==> key in s.disk.effects)
  {
    RunKeepsInv(before);
    SettledStays(Run(INIT, before), after, key);
    RunConcat(INIT, before, after);
  }

  /** The lock is only ever held by a living thread between its reservation and its recorded end. */
  ghost predicate LockHeld(s: State) {
    s.lock.Some? ==> s.lock.value in s.threads && InSection(s.threads[s.lock.value].pc)
  }

  lemma StepKeepsLockHeld(s: State, a: Action)
    requires Inv(s) && LockHeld(s)
    ensures LockHeld(Step(s, a))
  {
    if a.Tick? && a.tid in s.threads {
      assert ThreadInv(s, a.tid);
    }
  }

  /** So a thread that dies never leaves the others waiting. */
  lemma {:induction false} LockHasHolder(actions: seq<Action>)
    ensures LockHeld(Run(INIT, actions))
    decreases |actions|
  {
    if actions != [] {
      var n := |actions| - 1;
      LockHasHolder(actions[..n]);
      RunKeepsInv(actions[..n]);
      StepKeepsLockHeld(Run(INIT, actions[..n]), actions[n]);
    }
  }

  // ---- The ledger as an object ----

  class DurableLedger {
    var records: map<Key, Record>
    var effectCount: nat
    var invocationCount: nat
    var effects: seq<Key>

    function View(): Disk
      reads this
    {
      Disk(records, effectCount, invocationCount, effects)
    }

    ghost predicate Valid()
      reads this
    {
      DiskInv(View())
    }

    constructor ()
      ensures Valid() && View() == EMPTY
    {
      records, effectCount, invocationCount, effects := map[], 0, 0, [];
    }

    /** execute: a known key is refused or replayed with nothing changed; a new one is left completed with
        its effect performed, or unresolved if the operation raised. */
    method Execute(key: Key, hash: string, effect: Effect) returns (reply: Reply)
      requires Valid()
      modifies this
      ensures Valid()
      ensures key in old(records) ==>
        && View() == old(View())
        && reply == (match old(records)[key]
                     case InProgress(h) => if h == hash then Unresolved else Conflict
                     case NeedsReconciliation(h) => if h == hash then Unresolved else Conflict
                     case Completed(h, result) => if h == hash then Returned(result, true) else Conflict)
      ensures key !in old(records) ==>
        && records == old(records)[key :=
             if effect.Succeeds? then Completed(hash, effect.result) else NeedsReconciliation(hash)]
        && reply == (if effect.Succeeds? then Returned(effect.result, false) else Uncertain)
        && effects == (if effect.RaisesBefore? then old(effects) else old(effects) + [key])
        && invocationCount == old(invocationCount) + 1
        && effectCount == old(effectCount) + if effect.Succeeds? then 1 else 0
    {
      if key in records {
        return Refusal(records[key], hash);
      }
      ReservationKeepsDisk(View(), key, hash);
      records := records[key := InProgress(hash)];
      invocationCount := invocationCount + 1;
      if !effect.RaisesBefore? {
        EffectKeepsDisk(View(), key);
        effects := effects + [key];
      }
      if effect.Succeeds? {
        ResultKeepsDisk(View(), key, hash, effect.result);
        effectCount := effectCount + 1;
        records := records[key := Completed(hash, effect.result)];
        return Returned(effect.result, false);
      }
      UncertainKeepsDisk(View(), key, hash);
      records := records[key := NeedsReconciliation(hash)];
      reply := Uncertain;
    }
  }
}
