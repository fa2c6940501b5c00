/**
 The staging deploy adapter (examples/deploy_staging_https_adapter.py).

 A request reserves its idempotency key, releases the ledger lock, performs the effect (appending a
 deployment row under the store's own lock), and takes the ledger lock again to record the result.
 Both files are rewritten by load, modify, save, so every one of those is a step of its own here:
 any number of threads interleave between them, a thread can die anywhere, and the whole process can
 crash anywhere, leaving only the two files.
 */
module DeployLedger {
  import opened Options

  type Key = string

  /** A deployment row; `request` stands for service, environment and image tag. */
  datatype Row = Row(id: string, request: string)

  /** What the ledger stores and returns for a completed key. */
  datatype Result = Result(id: string, request: string)

  datatype Record =
    | InProgress(digest: string)
    | Completed(digest: string, result: Result)
    | NeedsReconciliation(digest: string, id: string)

  type Ledger = map<Key, Record>

  /** The three ways execute comes back to the ledger after reserving. */
  datatype Purpose = Reserve | Drop | Mark(row: Row) | Commit(row: Row)

  datatype Reply =
    | Returned(result: Result, replayed: bool)
    | Conflict
    | Unresolved
    | Raised

  function ResultOf(row: Row): Result { Result(row.id, row.request) }

  /** The dictionary a critical section saves, given the one it loaded. */
  function Saved(p: Purpose, data: Ledger, key: Key, digest: string): Ledger {
    match p
    case Reserve => if key in data then data else data[key := InProgress(digest)]
    case Drop => if key in data && data[key].InProgress? then data - {key} else data
    case Mark(row) => data[key := NeedsReconciliation(digest, row.id)]
    case Commit(row) => data[key := Completed(digest, ResultOf(row))]
  }

  /** The answer to a request that finds its key already there. */
  function Refusal(r: Record, digest: string): Reply {
    if r.digest != digest then Conflict
    else if r.Completed? then Returned(r.result, true)
    else Unresolved
  }

  // ---- Threads ----

  datatype Pc =
    | Want(purpose: Purpose)                        // waiting for the ledger lock
    | Locked(purpose: Purpose)                      // holding it
    | Loaded(purpose: Purpose, data: Ledger)        // holding it, file read
    | RunEffect                                     // reserved, effect not begun
    | StoreWant                                     // waiting for the store lock
    | StoreLocked
    | StoreLoaded(rows: seq<Row>)
    | HaveRow(row: Row)                             // row saved, store lock released
    | Done(reply: Reply)

  /** `failBefore` and `failAfter` are the request's failure-injection headers. */
  datatype Request = Request(key: Key, digest: string, request: string, failBefore: bool, failAfter: bool)

  datatype Thread = Thread(req: Request, pc: Pc)

  /** The two files; `madeFor` records for which key each row was made. */
  datatype Files = Files(ledger: Ledger, rows: seq<Row>, madeFor: seq<Key>)

  datatype State = State(files: Files, ledgerLock: Option<nat>, storeLock: Option<nat>, threads: map<nat, Thread>)

  const INIT := State(Files(map[], [], []), None, None, map[])

  datatype Action =
    | Spawn(tid: nat, req: Request)
    | Tick(tid: nat, id: string)      // `id` is the fresh deployment id, if one is drawn
    | Raise(tid: nat)                 // the effect raises before its row is saved
    | Kill(tid: nat)                  // the thread dies; `with` releases its locks
    | Crash                           // the process dies

  /** Where a thread goes once its critical section has saved. */
  function AfterSave(p: Purpose, data: Ledger, req: Request): Pc {
    match p
    case Reserve => if req.key in data then Done(Refusal(data[req.key], req.digest)) else RunEffect
    case Drop => Done(Raised)
    case Mark(_) => Done(Unresolved)
    case Commit(row) => Done(Returned(ResultOf(row), false))
  }

  /** One thread's move: the new files, locks and program counter. */
  datatype Move = Move(files: Files, ledgerLock: Option<nat>, storeLock: Option<nat>, pc: Pc)

  function MoveOf(s: State, tid: nat, id: string): Move
    requires tid in s.threads
  {
    var req := s.threads[tid].req;
    var stay := Move(s.files, s.ledgerLock, s.storeLock, s.threads[tid].pc);
    match s.threads[tid].pc
    case Want(p) => if s.ledgerLock.Some? then stay else stay.(ledgerLock := Some(tid), pc := Locked(p))
    case Locked(p) => stay.(pc := Loaded(p, s.files.ledger))
    case Loaded(p, data) =>
      stay.(files := s.files.(ledger := Saved(p, data, req.key, req.digest)),
            ledgerLock := None, pc := AfterSave(p, data, req))
    case RunEffect => stay.(pc := if req.failBefore then Want(Drop) else StoreWant)
    case StoreWant => if s.storeLock.Some? then stay else stay.(storeLock := Some(tid), pc := StoreLocked)
    case StoreLocked => stay.(pc := StoreLoaded(s.files.rows))
    case StoreLoaded(rows) =>
      var row := Row(id, req.request);
      stay.(files := s.files.(rows := rows + [row], madeFor := s.files.madeFor + [req.key]),
            storeLock := None, pc := HaveRow(row))
    case HaveRow(row) => stay.(pc := if req.failAfter then Want(Mark(row)) else Want(Commit(row)))
    case Done(_) => stay
  }

  /** An exception out of the effect, before its row is saved. */
  function RaiseOf(s: State, tid: nat): Move
    requires tid in s.threads
  {
    Move(s.files, s.ledgerLock, Unlock(s.storeLock, tid), Want(Drop))
  }

  function Take(s: State, tid: nat, m: Move): State
    requires tid in s.threads
  {
    State(m.files, m.ledgerLock, m.storeLock, s.threads[tid := s.threads[tid].(pc := m.pc)])
  }

  function Unlock(lock: Option<nat>, tid: nat): Option<nat> { if lock == Some(tid) then None else lock }

  predicate InStore(pc: Pc) { pc.StoreWant? || pc.StoreLocked? || pc.StoreLoaded? }

  function Step(s: State, a: Action): State {
    match a
    case Spawn(tid, req) =>
      if tid in s.threads then s else s.(threads := s.threads[tid := Thread(req, Want(Reserve))])
    case Tick(tid, id) => if tid !in s.threads then s else Take(s, tid, MoveOf(s, tid, id))
    case Raise(tid) =>
      if tid !in s.threads || !InStore(s.threads[tid].pc) then s
      else Take(s, tid, RaiseOf(s, tid))
    case Kill(tid) =>
      s.(threads := s.threads - {tid}, ledgerLock := Unlock(s.ledgerLock, tid), storeLock := Unlock(s.storeLock, tid))
    case Crash => s.(threads := map[], ledgerLock := None, storeLock := None)
  }

  function Run(s: State, actions: seq<Action>): State {
    if actions == [] then s else Step(Run(s, actions[..|actions| - 1]), actions[|actions| - 1])
  }

  // ---- Invariant ----

  predicate HoldsLedger(pc: Pc) { pc.Locked? || pc.Loaded? }
  predicate HoldsStore(pc: Pc) { pc.StoreLocked? || pc.StoreLoaded? }

  /** The purpose a thread is at the ledger for. */
  function PurposeOf(pc: Pc): Option<Purpose> {
    match pc
    case Want(p) => Some(p)
    case Locked(p) => Some(p)
    case Loaded(p, _) => Some(p)
    case _ => None
  }

  /** Reserved its key and has not yet recorded an end: the key is this thread's. */
  predicate Owns(pc: Pc) {
    pc.RunEffect? || InStore(pc) || pc.HaveRow? || (PurposeOf(pc).Some? && !PurposeOf(pc).value.Reserve?)
  }

  /** The row an owner has already created. */
  function OwnRow(pc: Pc): Option<Row> {
    match pc
    case HaveRow(row) => Some(row)
    case _ =>
      match PurposeOf(pc)
      case Some(Mark(row)) => Some(row)
      case Some(Commit(row)) => Some(row)
      case _ => None
  }

  /** The row at some position was made for this key. */
  ghost predicate MadeRow(f: Files, key: Key, row: Row) {
    exists i :: 0 <= i < |f.rows| && i < |f.madeFor| && f.madeFor[i] == key && f.rows[i] == row
  }

  /** An owner's key is reserved, and the row it holds is the one made for that key. */
  ghost predicate OwnerInv(f: Files, th: Thread) {
    Owns(th.pc) ==>
      && th.req.key in f.ledger && f.ledger[th.req.key] == InProgress(th.req.digest)
      && (OwnRow(th.pc).None? ==> th.req.key !in f.madeFor)
      && (OwnRow(th.pc).Some? ==> MadeRow(f, th.req.key, OwnRow(th.pc).value))
  }

  /** Who is in a critical section holds its lock, and what it read is still what the file holds. */
  ghost predicate LockInv(f: Files, ledgerLock: Option<nat>, storeLock: Option<nat>, t: nat, pc: Pc) {
    && (HoldsLedger(pc) ==> ledgerLock == Some(t))
    && (HoldsStore(pc) ==> storeLock == Some(t))
    && (pc.Loaded? ==> pc.data == f.ledger)
    && (pc.StoreLoaded? ==> pc.rows == f.rows)
  }

  /** What a stored record says about the row made for its key. */
  ghost predicate RecordInv(f: Files, k: Key)
    requires k in f.ledger
  {
    match f.ledger[k]
    case InProgress(_) => true
    case Completed(_, result) => exists row: Row :: MadeRow(f, k, row) && ResultOf(row) == result
    case NeedsReconciliation(_, id) => exists row: Row :: MadeRow(f, k, row) && row.id == id
  }

  ghost predicate FilesInv(f: Files) {
    && |f.madeFor| == |f.rows|
    && (forall i, j :: 0 <= i < j < |f.madeFor| ==> f.madeFor[i] != f.madeFor[j])
    && (forall k :: k in f.madeFor ==> k in f.ledger)
    && (forall k :: k in f.ledger ==> RecordInv(f, k))
  }

  ghost predicate OwnersApart(threads: map<nat, Thread>) {
    forall t, u :: t in threads && u in threads && t != u && Owns(threads[t].pc) && Owns(threads[u].pc)
      ==> threads[t].req.key != threads[u].req.key
  }

  ghost predicate ThreadInv(s: State, t: nat)
    requires t in s.threads
  {
    OwnerInv(s.files, s.threads[t]) && LockInv(s.files, s.ledgerLock, s.storeLock, t, s.threads[t].pc)
  }

  ghost predicate Inv(s: State) {
    FilesInv(s.files) && OwnersApart(s.threads) && forall t :: t in s.threads ==> ThreadInv(s, t)
  }

  // ---- Every action keeps the invariant ----

  lemma MadeRowGrows(f: Files, key: Key, row: Row, newRow: Row, newKey: Key)
    requires MadeRow(f, key, row) && |f.madeFor| == |f.rows|
    ensures MadeRow(f.(rows := f.rows + [newRow], madeFor := f.madeFor + [newKey]), key, row)
  {
    var i :| 0 <= i < |f.rows| && i < |f.madeFor| && f.madeFor[i] == key && f.rows[i] == row;
    var g := f.(rows := f.rows + [newRow], madeFor := f.madeFor + [newKey]);
    assert g.madeFor[i] == key && g.rows[i] == row;
  }

  lemma StoreSaveKeepsFiles(f: Files, key: Key, row: Row)
    requires FilesInv(f) && key in f.ledger && key !in f.madeFor
    ensures FilesInv(f.(rows := f.rows + [row], madeFor := f.madeFor + [key]))
    ensures MadeRow(f.(rows := f.rows + [row], madeFor := f.madeFor + [key]), key, row)
  {
    var g := f.(rows := f.rows + [row], madeFor := f.madeFor + [key]);
    assert g.madeFor[|f.rows|] == key && g.rows[|f.rows|] == row;
    forall k | k in g.ledger ensures RecordInv(g, k) {
      assert RecordInv(f, k);
      if !f.ledger[k].InProgress? {
        var r: Row :| MadeRow(f, k, r) && (f.ledger[k].Completed? ==> ResultOf(r) == f.ledger[k].result)
                   && (f.ledger[k].NeedsReconciliation? ==> r.id == f.ledger[k].id);
        MadeRowGrows(f, k, r, row, key);
      }
    }
  }

  /** A critical section may save its key when it reserves a free one or owns it. */
  ghost predicate MaySave(f: Files, p: Purpose, key: Key, digest: string) {
    match p
    case Reserve => true
    case Drop => key in f.ledger && key !in f.madeFor
    case Mark(row) => key in f.ledger && MadeRow(f, key, row)
    case Commit(row) => key in f.ledger && MadeRow(f, key, row)
  }

  lemma LedgerSaveKeepsFiles(f: Files, p: Purpose, key: Key, digest: string)
    requires FilesInv(f) && MaySave(f, p, key, digest)
    ensures FilesInv(f.(ledger := Saved(p, f.ledger, key, digest)))
  {
    var g := f.(ledger := Saved(p, f.ledger, key, digest));
    forall k | k in g.ledger ensures RecordInv(g, k) {
      if k in f.ledger && f.ledger[k] == g.ledger[k] {
        assert RecordInv(f, k);
        if !f.ledger[k].InProgress? {
          var r: Row :| MadeRow(f, k, r) && (f.ledger[k].Completed? ==> ResultOf(r) == f.ledger[k].result)
                     && (f.ledger[k].NeedsReconciliation? ==> r.id == f.ledger[k].id);
          assert MadeRow(g, k, r);
        }
      } else if p.Mark? || p.Commit? {
        assert MadeRow(g, key, p.row);
      }
    }
  }

  lemma MoveKeepsFiles(s: State, tid: nat, id: string)
    requires Inv(s) && tid in s.threads
    ensures FilesInv(MoveOf(s, tid, id).files)
  {
    assert ThreadInv(s, tid);
    var th := s.threads[tid];
    match th.pc {
      case Loaded(p, _) => LedgerSaveKeepsFiles(s.files, p, th.req.key, th.req.digest);
      case StoreLoaded(_) => StoreSaveKeepsFiles(s.files, th.req.key, Row(id, th.req.request));
      case _ =>
    }
  }

  lemma MoveKeepsSelf(s: State, tid: nat, id: string)
    requires Inv(s) && tid in s.threads
    ensures var m := MoveOf(s, tid, id);
            && OwnerInv(m.files, s.threads[tid].(pc := m.pc))
            && LockInv(m.files, m.ledgerLock, m.storeLock, tid, m.pc)
  {
    assert ThreadInv(s, tid);
    var th := s.threads[tid];
    match th.pc {
      case Loaded(p, _) =>
        if p.Reserve? && th.req.key !in s.files.ledger {
          assert th.req.key !in s.files.madeFor;
        }
      case StoreLoaded(_) => StoreSaveKeepsFiles(s.files, th.req.key, Row(id, th.req.request));
      case _ =>
    }
  }

  /** Another thread is untouched: its locks, its snapshot, its key's record and its row. */
  lemma MoveKeepsOther(s: State, tid: nat, id: string, u: nat)
    requires Inv(s) && tid in s.threads && u in s.threads && u != tid
    ensures var m := MoveOf(s, tid, id);
            && OwnerInv(m.files, s.threads[u])
            && LockInv(m.files, m.ledgerLock, m.storeLock, u, s.threads[u].pc)
  {
    assert ThreadInv(s, tid) && ThreadInv(s, u);
    var th, other := s.threads[tid], s.threads[u];
    match th.pc {
      case Loaded(p, _) =>
        if Owns(other.pc) {
          assert th.req.key != other.req.key || (p.Reserve? && th.req.key in s.files.ledger);
          if OwnRow(other.pc).Some? {
            assert MadeRow(MoveOf(s, tid, id).files, other.req.key, OwnRow(other.pc).value);
          }
        }
      case StoreLoaded(_) =>
        if Owns(other.pc) && OwnRow(other.pc).Some? {
          MadeRowGrows(s.files, other.req.key, OwnRow(other.pc).value, Row(id, th.req.request), th.req.key);
        }
      case _ =>
    }
  }

  lemma MoveKeepsApart(s: State, tid: nat, id: string)
    requires Inv(s) && tid in s.threads
    ensures OwnersApart(Take(s, tid, MoveOf(s, tid, id)).threads)
  {
    var s' := Take(s, tid, MoveOf(s, tid, id));
    assert ThreadInv(s, tid);
    forall u | u in s.threads && u != tid && Owns(s.threads[u].pc) && Owns(s'.threads[tid].pc)
      ensures s.threads[u].req.key != s.threads[tid].req.key
    {
      assert ThreadInv(s, u);
    }
  }

  lemma RaiseKeepsInv(s: State, tid: nat)
    requires Inv(s) && tid in s.threads && InStore(s.threads[tid].pc)
    ensures Inv(Take(s, tid, RaiseOf(s, tid)))
  {
    var s' := Take(s, tid, RaiseOf(s, tid));
    assert ThreadInv(s, tid);
    forall t | t in s'.threads ensures ThreadInv(s', t) {
      assert ThreadInv(s, t);
    }
  }

  lemma StepKeepsInv(s: State, a: Action)
    requires Inv(s)
    ensures Inv(Step(s, a))
  {
    var s' := Step(s, a);
    match a {
      case Tick(tid, id) =>
        if tid in s.threads {
          MoveKeepsFiles(s, tid, id);
          MoveKeepsApart(s, tid, id);
          forall t | t in s'.threads ensures ThreadInv(s', t) {
            if t == tid {
              MoveKeepsSelf(s, tid, id);
            } else {
              MoveKeepsOther(s, tid, id, t);
            }
          }
        }
      case Raise(tid) =>
        if tid in s.threads && InStore(s.threads[tid].pc) {
          RaiseKeepsInv(s, tid);
        }
      case Spawn(tid, req) =>
        forall t | t in s'.threads ensures ThreadInv(s', t) {
          assert t in s.threads ==> ThreadInv(s, t);
        }
      case Kill(tid) =>
        forall t | t in s'.threads ensures ThreadInv(s', t) {
          assert ThreadInv(s, t);
        }
      case Crash =>
    }
  }

  lemma {:induction false} RunKeepsInv(actions: seq<Action>)
    ensures Inv(Run(INIT, actions))
    decreases |actions|
  {
    if actions != [] {
      RunKeepsInv(actions[..|actions| - 1]);
      StepKeepsInv(Run(INIT, actions[..|actions| - 1]), actions[|actions| - 1]);
    }
  }

  // ---- What every run guarantees ----

  ghost function RowsFor(f: Files, key: Key): set<nat> {
    set i: nat | i < |f.madeFor| && f.madeFor[i] == key
  }

  /** At most one deployment row is ever created for an idempotency key. */
  lemma AtMostOneRowPerKey(actions: seq<Action>, key: Key)
    ensures |RowsFor(Run(INIT, actions).files, key)| <= 1
  {
    RunKeepsInv(actions);
    var found := RowsFor(Run(INIT, actions).files, key);
    if found != {} {
      var i :| i in found;
      assert found == {i};
    }
  }

  /** A completed key's result names the row made for that key, and so does an unresolved one's id. */
  lemma RecordsNameTheirRow(actions: seq<Action>, key: Key)
    requires key in Run(INIT, actions).files.ledger
    ensures RecordInv(Run(INIT, actions).files, key)
  {
    RunKeepsInv(actions);
  }

  /** A reservation is deleted only by its own thread, and only if no row was created for it. */
  lemma DeletedReservationHasNoRow(actions: seq<Action>, a: Action, key: Key)
    requires key in Run(INIT, actions).files.ledger
    requires key !in Step(Run(INIT, actions), a).files.ledger
    ensures key !in Run(INIT, actions).files.madeFor
    ensures a.Tick? && a.tid in Run(INIT, actions).threads && Run(INIT, actions).threads[a.tid].req.key == key
  {
    RunKeepsInv(actions);
    var s := Run(INIT, actions);
    if a.Tick? && a.tid in s.threads {
      assert ThreadInv(s, a.tid);
    }
  }

  /** A thread's ledger write changes no record but its own key's, although it rewrites the whole file
      from an earlier read. */
  lemma NoWriteIsLost(actions: seq<Action>, a: Action, key: Key)
    requires a.Tick? && a.tid in Run(INIT, actions).threads ==> Run(INIT, actions).threads[a.tid].req.key != key
    ensures var before, after := Run(INIT, actions).files.ledger, Step(Run(INIT, actions), a).files.ledger;
            (key in before <==> key in after) && (key in before ==> after[key] == before[key])
  {
    RunKeepsInv(actions);
    var s := Run(INIT, actions);
    if a.Tick? && a.tid in s.threads {
      assert ThreadInv(s, a.tid);
    }
  }

  /** Likewise for deployment rows: the store only ever grows. */
  lemma RowsAreAppended(actions: seq<Action>, a: Action)
    ensures Run(INIT, actions).files.rows <= Step(Run(INIT, actions), a).files.rows
  {
    RunKeepsInv(actions);
    var s := Run(INIT, actions);
    if a.Tick? && a.tid in s.threads {
      assert ThreadInv(s, a.tid);
    }
  }

  /** A request that has read the ledger and finds its key is answered in that step, with nothing changed: a
      completed request of its own is replayed, an unfinished one is unresolved, and another's is a conflict. */
  lemma KnownKeyIsAnswered(actions: seq<Action>, t: nat, id: string)
    requires var s := Run(INIT, actions);
      && t in s.threads && s.threads[t].pc.Loaded? && s.threads[t].pc.purpose == Reserve
      && s.threads[t].req.key in s.files.ledger
    ensures var s, r := Run(INIT, actions), Run(INIT, actions + [Tick(t, id)]);
      var record, digest := s.files.ledger[s.threads[t].req.key], s.threads[t].req.digest;
      && r.files == s.files && t in r.threads && r.threads[t].pc.Done?
      && (r.threads[t].pc.reply == Conflict <==> record.digest != digest)
      && (forall result :: record == Completed(digest, result) ==> r.threads[t].pc.reply == Returned(result, true))
      && (r.threads[t].pc.reply == Unresolved <==> record.digest == digest && !record.Completed?)
  {
    RunKeepsInv(actions);
    assert ThreadInv(Run(INIT, actions), t);
    assert (actions + [Tick(t, id)])[..|actions|] == actions;
  }

  /** The record of this key is settled: finished, or reserved by a thread that no longer exists. */
  ghost predicate Settled(s: State, key: Key) {
    && key in s.files.ledger
    && forall t :: t in s.threads && s.threads[t].req.key == key ==> !Owns(s.threads[t].pc)
  }

  lemma StepKeepsSettled(s: State, a: Action, key: Key)
    requires Inv(s) && Settled(s, key)
    ensures Settled(Step(s, a), key)
    ensures Step(s, a).files.ledger[key] == s.files.ledger[key]
    ensures key in Step(s, a).files.madeFor <==> key in s.files.madeFor
  {
    if a.Tick? && a.tid in s.threads {
      assert ThreadInv(s, a.tid);
    }
  }

  /** After a crash or a finished attempt, a key's record never changes again and no further effect is
      performed for it: an orphaned reservation is never permission to execute. */
  lemma {:induction false} SettledForEver(before: seq<Action>, after: seq<Action>, key: Key)
    requires Settled(Run(INIT, before), key)
    ensures var s, s' := Run(INIT, before), Run(INIT, before + after);
            && Settled(s', key) && s'.files.ledger[key] == s.files.ledger[key]
            && (key in s'.files.madeFor <==> key in s.files.madeFor)
    decreases |after|
  {
    if after == [] {
      assert before + after == before;
    } else {
      var n := |after| - 1;
      SettledForEver(before, after[..n], key);
      assert (before + after)[..|before + after| - 1] == before + after[..n];
      RunKeepsInv(before + after[..n]);
      StepKeepsSettled(Run(INIT, before + after[..n]), after[n], key);
    }
  }

  /** What a finished thread was told agrees with the record of its key. */
  ghost predicate ReplyInv(s: State, th: Thread) {
    match th.pc
    case Done(Returned(result, _)) =>
      th.req.key in s.files.ledger && s.files.ledger[th.req.key] == Completed(th.req.digest, result)
    case _ => true
  }

  lemma StepKeepsReplies(s: State, a: Action)
    requires Inv(s) && forall t :: t in s.threads ==> ReplyInv(s, s.threads[t])
    ensures forall t :: t in Step(s, a).threads ==> ReplyInv(Step(s, a), Step(s, a).threads[t])
  {
    var s' := Step(s, a);
    forall t | t in s'.threads ensures ReplyInv(s', s'.threads[t]) {
      if t in s.threads && ReplyInv(s, s.threads[t]) && a.Tick? && a.tid in s.threads {
        assert ThreadInv(s, a.tid);
      }
    }
  }

  /** Every result returned, first time or replayed, is the one stored for that key and digest. */
  lemma {:induction false} ReturnedResultIsStored(actions: seq<Action>, t: nat)
    ensures t in Run(INIT, actions).threads ==> ReplyInv(Run(INIT, actions), Run(INIT, actions).threads[t])
    decreases |actions|
  {
    if actions != [] {
      var n := |actions| - 1;
      forall u
        ensures u in Run(INIT, actions[..n]).threads ==>
          ReplyInv(Run(INIT, actions[..n]), Run(INIT, actions[..n]).threads[u])
      {
        ReturnedResultIsStored(actions[..n], u);
      }
      RunKeepsInv(actions[..n]);
      StepKeepsReplies(Run(INIT, actions[..n]), actions[n]);
    }
  }

  /** A lock is only ever held by a living thread inside the section it guards. */
  ghost predicate LocksHeld(s: State) {
    && (s.ledgerLock.Some? ==> s.ledgerLock.value in s.threads && HoldsLedger(s.threads[s.ledgerLock.value].pc))
    && (s.storeLock.Some? ==> s.storeLock.value in s.threads && HoldsStore(s.threads[s.storeLock.value].pc))
  }

  lemma StepKeepsLocksHeld(s: State, a: Action)
    requires Inv(s) && LocksHeld(s)
    ensures LocksHeld(Step(s, a))
  {
    if a.Tick? && a.tid in s.threads {
      assert ThreadInv(s, a.tid);
    }
  }

  /** So a thread that dies never leaves the others waiting for its lock. */
  lemma {:induction false} LocksHaveHolders(actions: seq<Action>)
    ensures LocksHeld(Run(INIT, actions))
    decreases |actions|
  {
    if actions != [] {
      var n := |actions| - 1;
      LocksHaveHolders(actions[..n]);
      RunKeepsInv(actions[..n]);
      StepKeepsLocksHeld(Run(INIT, actions[..n]), actions[n]);
    }
  }

  // ---- A request that nobody interrupts ----

  function Ticks(s: State, t: nat, id: string, n: nat): State
    decreases n
  {
    if n == 0 then s else Ticks(Step(s, Tick(t, id)), t, id, n - 1)
  }

  lemma {:induction false} TicksAdd(s: State, t: nat, id: string, m: nat, n: nat)
    ensures Ticks(s, t, id, m + n) == Ticks(Ticks(s, t, id, m), t, id, n)
    decreases m
  {
    if m > 0 {
      TicksAdd(Step(s, Tick(t, id)), t, id, m - 1, n);
    }
  }

  /** The state with these files and this thread where it is told, both locks free. */
  function Quiet(s: State, files: Files, t: nat, req: Request, pc: Pc): State {
    State(files, None, None, s.threads[t := Thread(req, pc)])
  }

  lemma TickOnce(s: State, t: nat, id: string, next: State, n: nat)
    requires Step(s, Tick(t, id)) == next && n > 0
    ensures Ticks(s, t, id, n) == Ticks(next, t, id, n - 1)
  {
  }

  lemma LedgerSection(s: State, files: Files, t: nat, req: Request, p: Purpose, id: string)
    ensures Ticks(Quiet(s, files, t, req, Want(p)), t, id, 3)
         == Quiet(s, files.(ledger := Saved(p, files.ledger, req.key, req.digest)), t, req,
                  AfterSave(p, files.ledger, req))
  {
    var s0 := Quiet(s, files, t, req, Want(p));
    var s1 := s0.(ledgerLock := Some(t), threads := s.threads[t := Thread(req, Locked(p))]);
    var s2 := s1.(threads := s.threads[t := Thread(req, Loaded(p, files.ledger))]);
    var s3 := Quiet(s, files.(ledger := Saved(p, files.ledger, req.key, req.digest)), t, req,
                    AfterSave(p, files.ledger, req));
    TickOnce(s0, t, id, s1, 3);
    TickOnce(s1, t, id, s2, 2);
    TickOnce(s2, t, id, s3, 1);
  }

  lemma StoreSection(s: State, files: Files, t: nat, req: Request, id: string)
    ensures var row := Row(id, req.request);
      Ticks(Quiet(s, files, t, req, StoreWant), t, id, 3)
         == Quiet(s, files.(rows := files.rows + [row], madeFor := files.madeFor + [req.key]), t, req, HaveRow(row))
  {
    var row := Row(id, req.request);
    var s0 := Quiet(s, files, t, req, StoreWant);
    var s1 := s0.(storeLock := Some(t), threads := s.threads[t := Thread(req, StoreLocked)]);
    var s2 := s1.(threads := s.threads[t := Thread(req, StoreLoaded(files.rows))]);
    var s3 := Quiet(s, files.(rows := files.rows + [row], madeFor := files.madeFor + [req.key]), t, req, HaveRow(row));
    TickOnce(s0, t, id, s1, 3);
    TickOnce(s1, t, id, s2, 2);
    TickOnce(s2, t, id, s3, 1);
  }

  /** A new request that fails before its effect, both locks free and nobody in between: after seven steps both
      files are as they were, so that a retry starts afresh. */
  lemma SoloFailsBefore(s: State, t: nat, req: Request, id: string)
    requires s.ledgerLock.None? && s.storeLock.None? && t !in s.threads && req.key !in s.files.ledger
    requires req.failBefore
    ensures Ticks(Step(s, Spawn(t, req)), t, id, 7) == Quiet(s, s.files, t, req, Done(Raised))
  {
    var begun := Quiet(s, s.files, t, req, Want(Reserve));
    assert Step(s, Spawn(t, req)) == begun;
    SoloReserve(s, t, req, id);
    TicksAdd(begun, t, id, 3, 4);
    SoloDrop(s, s.files, s.files.(ledger := s.files.ledger[req.key := InProgress(req.digest)]), t, req, id);
  }

  /** Any other new request: what its eleven steps leave in the two files and answer. */
  lemma SoloExecute(s: State, t: nat, req: Request, id: string)
    requires s.ledgerLock.None? && s.storeLock.None? && t !in s.threads && req.key !in s.files.ledger
    requires !req.failBefore
    ensures var r := Ticks(Step(s, Spawn(t, req)), t, id, 11);
      && t in r.threads && r.files.rows == s.files.rows + [Row(id, req.request)]
      && r.files.ledger == s.files.ledger[req.key :=
           if req.failAfter then NeedsReconciliation(req.digest, id)
           else Completed(req.digest, Result(id, req.request))]
      && r.threads[t].pc == Done(if req.failAfter then Unresolved else Returned(Result(id, req.request), false))
  {
    var f1 := s.files.(ledger := s.files.ledger[req.key := InProgress(req.digest)]);
    var begun := Quiet(s, s.files, t, req, Want(Reserve));
    assert Step(s, Spawn(t, req)) == begun;
    SoloReserve(s, t, req, id);
    TicksAdd(begun, t, id, 3, 8);
    TickOnce(Quiet(s, f1, t, req, RunEffect), t, id, Quiet(s, f1, t, req, StoreWant), 8);
    SoloEffect(s, s.files, f1, t, req, id);
  }

  lemma SoloReserve(s: State, t: nat, req: Request, id: string)
    requires req.key !in s.files.ledger
    ensures Ticks(Quiet(s, s.files, t, req, Want(Reserve)), t, id, 3)
         == Quiet(s, s.files.(ledger := s.files.ledger[req.key := InProgress(req.digest)]), t, req, RunEffect)
  {
    LedgerSection(s, s.files, t, req, Reserve, id);
  }

  /** A failure before the effect gives the reservation back. */
  lemma SoloDrop(s: State, f0: Files, f1: Files, t: nat, req: Request, id: string)
    requires req.key !in f0.ledger && f1 == f0.(ledger := f0.ledger[req.key := InProgress(req.digest)])
    requires req.failBefore
    ensures Ticks(Quiet(s, f1, t, req, RunEffect), t, id, 4) == Quiet(s, f0, t, req, Done(Raised))
  {
    TickOnce(Quiet(s, f1, t, req, RunEffect), t, id, Quiet(s, f1, t, req, Want(Drop)), 4);
    LedgerSection(s, f1, t, req, Drop, id);
    assert f1.ledger - {req.key} == f0.ledger;
  }

  /** Raising while the new row is being written, at any of its three steps, gives the reservation back too, and
      no row stays. */
  lemma SoloRaise(s: State, f0: Files, f1: Files, t: nat, req: Request, id: string, n: nat)
    requires req.key !in f0.ledger && f1 == f0.(ledger := f0.ledger[req.key := InProgress(req.digest)]) && n < 3
    ensures var writing := Ticks(Quiet(s, f1, t, req, StoreWant), t, id, n);
      Ticks(Step(writing, Raise(t)), t, id, 3) == Quiet(s, f0, t, req, Done(Raised))
  {
    var s0 := Quiet(s, f1, t, req, StoreWant);
    var s1 := s0.(storeLock := Some(t), threads := s.threads[t := Thread(req, StoreLocked)]);
    var s2 := s1.(threads := s.threads[t := Thread(req, StoreLoaded(f1.rows))]);
    if n > 0 {
      TickOnce(s0, t, id, s1, n);
    }
    if n > 1 {
      TickOnce(s1, t, id, s2, n - 1);
    }
    var writing := Ticks(s0, t, id, n);
    assert Step(writing, Raise(t)) == Quiet(s, f1, t, req, Want(Drop));
    LedgerSection(s, f1, t, req, Drop, id);
    assert f1.ledger - {req.key} == f0.ledger;
  }

  /** From the effect on. */
  lemma SoloEffect(s: State, f0: Files, f1: Files, t: nat, req: Request, id: string)
    requires f1 == f0.(ledger := f0.ledger[req.key := InProgress(req.digest)])
    ensures var r := Ticks(Quiet(s, f1, t, req, StoreWant), t, id, 7);
      && t in r.threads && r.files.rows == f0.rows + [Row(id, req.request)]
      && r.files.ledger == f0.ledger[req.key :=
           if req.failAfter then NeedsReconciliation(req.digest, id)
           else Completed(req.digest, Result(id, req.request))]
      && r.threads[t].pc == Done(if req.failAfter then Unresolved else Returned(Result(id, req.request), false))
  {
    var row := Row(id, req.request);
    var f2 := f1.(rows := f1.rows + [row], madeFor := f1.madeFor + [req.key]);
    var purpose := if req.failAfter then Mark(row) else Commit(row);
    StoreSection(s, f1, t, req, id);
    TicksAdd(Quiet(s, f1, t, req, StoreWant), t, id, 3, 4);
    TickOnce(Quiet(s, f2, t, req, HaveRow(row)), t, id, Quiet(s, f2, t, req, Want(purpose)), 4);
    LedgerSection(s, f2, t, req, purpose, id);
  }

  // ---- The same code as objects, one request at a time ----

  class DurableLedger {
    var data: Ledger

    constructor ()
      ensures data == map[]
    {
      data := map[];
    }

    /** The first critical section of execute. */
    method TryReserve(key: Key, digest: string) returns (refusal: Option<Reply>)
      modifies this
      ensures data == Saved(Reserve, old(data), key, digest)
      ensures refusal == if key in old(data) then Some(Refusal(old(data)[key], digest)) else None
    {
      if key in data {
        var existing := data[key];
        if existing.digest != digest {
          return Some(Conflict);
        }
        if existing.Completed? {
          return Some(Returned(existing.result, true));
        }
        return Some(Unresolved);
      }
      data := data[key := InProgress(digest)];
      refusal := None;
    }

    /** A later critical section: drop, mark or commit. */
    method Settle(p: Purpose, key: Key, digest: string)
      requires !p.Reserve?
      modifies this
      ensures data == Saved(p, old(data), key, digest)
    {
      match p {
        case Drop =>
          if key in data && data[key].InProgress? {
            data := data - {key};
          }
        case Mark(row) => data := data[key := NeedsReconciliation(digest, row.id)];
        case Commit(row) => data := data[key := Completed(digest, ResultOf(row))];
      }
    }
  }

  class DeploymentStore {
    var rows: seq<Row>

    constructor ()
      ensures rows == []
    {
      rows := [];
    }

    method Create(id: string, request: string) returns (row: Row)
      modifies this
      ensures row == Row(id, request) && rows == old(rows) + [row]
    {
      row := Row(id, request);
      rows := rows + [row];
    }
  }

  /** DurableLedger.execute with the handler's effect: a known key changes nothing; a failure before the
      effect leaves both files as they were, so a retry starts afresh; after the effect the key is
      settled with the one new row. */
  method Execute(ledger: DurableLedger, store: DeploymentStore, req: Request, id: string) returns (reply: Reply)
    modifies ledger, store
    ensures req.key in old(ledger.data) ==>
      && reply == (match old(ledger.data)[req.key]
                   case InProgress(d) => if d == req.digest then Unresolved else Conflict
                   case NeedsReconciliation(d, _) => if d == req.digest then Unresolved else Conflict
                   case Completed(d, result) => if d == req.digest then Returned(result, true) else Conflict)
      && ledger.data == old(ledger.data) && store.rows == old(store.rows)
    ensures req.key !in old(ledger.data) && req.failBefore ==>
      reply == Raised && ledger.data == old(ledger.data) && store.rows == old(store.rows)
    ensures req.key !in old(ledger.data) && !req.failBefore ==>
      var row := Row(id, req.request);
      && store.rows == old(store.rows) + [row]
      && reply == (if req.failAfter then Unresolved else Returned(Result(id, req.request), false))
      && ledger.data == old(ledger.data)[req.key :=
           if req.failAfter then NeedsReconciliation(req.digest, id)
           else Completed(req.digest, Result(id, req.request))]
  {
    var refusal := ledger.TryReserve(req.key, req.digest);
    if refusal.Some? {
      return refusal.value;
    }
    if req.failBefore {
      ledger.Settle(Drop, req.key, req.digest);
      return Raised;
    }
    var row := store.Create(id, req.request);
    if req.failAfter {
      ledger.Settle(Mark(row), req.key, req.digest);
      return Unresolved;
    }
    ledger.Settle(Commit(row), req.key, req.digest);
    reply := Returned(ResultOf(row), false);
  }
}
