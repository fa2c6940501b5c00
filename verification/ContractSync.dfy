/**
 Contract synchronization under Idempotency-Keys
 (igris-overture/api/routes_contracts.go performIdempotentContractSync, performContractSyncInTx;
 igris-overture/api/contract_store.go).

 Transactions on one tenant's logical action, at read-committed isolation: a statement sees what is
 committed plus the transaction's own writes, and an insert that collides with another transaction's
 uncommitted row waits until that transaction ends. Any transaction may roll back at any point.
 */
module ContractSync {
  import opened Options

  type Key = string
  type Hash = string

  /** A stored version; `sensitive` is the delta flag computed when it was inserted. */
  datatype Version = Version(id: nat, hash: Hash, sensitive: bool)

  /** The response body: the version it names, and whether this sync created it. */
  datatype Body = Body(version: Version, created: bool)

  const STATUS_OK := 200
  const STATUS_CREATED := 201

  function StatusOf(body: Body): nat { if body.created then STATUS_CREATED else STATUS_OK }

  /** An idempotency row; the claim inserts it with status 0 and no body. */
  datatype Idem = Idem(fingerprint: Hash, status: nat, body: Option<Body>)

  datatype Db = Db(actionExists: bool, versions: map<Hash, Version>, idem: map<Key, Idem>)

  datatype Request = Request(hash: Hash, key: Option<Key>)

  datatype Reply = Synced(status: nat, body: Body) | Replayed(status: nat, stored: Option<Body>) | KeyConflict | DbError

  datatype Phase =
    | Claim                       // insert the idempotency row
    | ReadRecord                  // lost the claim: read the surviving row
    | EnsureAction                // insert the logical action if absent
    | GetVersion
    | InsertVersion
    | ReadRaced                   // lost the version insert: read the surviving row
    | Complete(body: Body)        // store the response on the claimed row
    | Commit(body: Body)
    | Done(reply: Reply)

  /** A transaction and its uncommitted rows. */
  datatype Tx = Tx(req: Request, phase: Phase, claim: Option<Idem>, newAction: bool, newVersion: Option<Version>)

  /** One entry per committed sync, in commit order. */
  datatype LogEntry = LogEntry(req: Request, body: Body)

  datatype State = State(db: Db, txs: map<nat, Tx>, log: seq<LogEntry>)

  const INIT := State(Db(false, map[], map[]), map[], [])

  datatype Action =
    | Begin(tid: nat, req: Request)
    | Tick(tid: nat, id: nat, sensitive: bool)   // a fresh row id and the delta flag, if a version is inserted
    | Rollback(tid: nat)

  // ---- Unique indexes seen from one transaction ----

  predicate ClaimHeldByOther(s: State, tid: nat, key: Key) {
    exists u :: u in s.txs && u != tid && s.txs[u].claim.Some? && s.txs[u].req.key == Some(key)
  }

  predicate ActionHeldByOther(s: State, tid: nat) {
    exists u :: u in s.txs && u != tid && s.txs[u].newAction
  }

  predicate VersionHeldByOther(s: State, tid: nat, hash: Hash) {
    exists u :: u in s.txs && u != tid && s.txs[u].newVersion.Some? && s.txs[u].newVersion.value.hash == hash
  }

  // ---- One statement ----

  function ReplyTo(row: Idem, hash: Hash): Reply {
    if row.fingerprint != hash then KeyConflict else Replayed(row.status, row.body)
  }

  /** End the transaction without its writes. */
  function End(tx: Tx, reply: Reply): Tx {
    Tx(tx.req, Done(reply), None, false, None)
  }

  /** The tables after a transaction's rows become visible. */
  function CommittedDb(db: Db, tx: Tx): Db {
    Db(db.actionExists || tx.newAction,
       if tx.newVersion.Some? then db.versions[tx.newVersion.value.hash := tx.newVersion.value] else db.versions,
       if tx.claim.Some? && tx.req.key.Some? then db.idem[tx.req.key.value := tx.claim.value] else db.idem)
  }

  function CommitTx(s: State, tid: nat, body: Body): State
    requires tid in s.txs
  {
    var tx := s.txs[tid];
    State(CommittedDb(s.db, tx), s.txs[tid := End(tx, Synced(StatusOf(body), body))], s.log + [LogEntry(tx.req, body)])
  }

  /** Any statement before the commit: only the transaction itself changes. */
  function NextTx(s: State, tid: nat, id: nat, sensitive: bool): Tx
    requires tid in s.txs
  {
    var tx := s.txs[tid];
    var hash := tx.req.hash;
    match tx.phase
    case Claim =>
      if tx.req.key.None? then tx.(phase := EnsureAction)
      else if ClaimHeldByOther(s, tid, tx.req.key.value) then tx
      else if tx.req.key.value in s.db.idem then tx.(phase := ReadRecord)
      else tx.(phase := EnsureAction, claim := Some(Idem(hash, 0, None)))
    case ReadRecord =>
      if tx.req.key.Some? && tx.req.key.value in s.db.idem
      then End(tx, ReplyTo(s.db.idem[tx.req.key.value], hash))
      else End(tx, DbError)
    case EnsureAction =>
      if ActionHeldByOther(s, tid) then tx
      else tx.(phase := GetVersion, newAction := !s.db.actionExists)
    case GetVersion =>
      if hash in s.db.versions then tx.(phase := Complete(Body(s.db.versions[hash], false)))
      else tx.(phase := InsertVersion)
    case InsertVersion =>
      if VersionHeldByOther(s, tid, hash) then tx
      else if hash in s.db.versions then tx.(phase := ReadRaced)
      else
        var version := Version(id, hash, sensitive);
        tx.(phase := Complete(Body(version, true)), newVersion := Some(version))
    case ReadRaced =>
      if hash in s.db.versions then tx.(phase := Complete(Body(s.db.versions[hash], false)))
      else End(tx, DbError)
    case Complete(body) =>
      if tx.req.key.None? then tx.(phase := Commit(body))
      else if tx.claim.Some? && tx.claim.value.fingerprint == hash
      then tx.(phase := Commit(body), claim := Some(Idem(hash, StatusOf(body), Some(body))))
      else End(tx, DbError)
    case Commit(_) => tx
    case Done(_) => tx
  }

  function TickTx(s: State, tid: nat, id: nat, sensitive: bool): State
    requires tid in s.txs
  {
    if s.txs[tid].phase.Commit? then CommitTx(s, tid, s.txs[tid].phase.body)
    else s.(txs := s.txs[tid := NextTx(s, tid, id, sensitive)])
  }

  function Step(s: State, a: Action): State {
    match a
    case Begin(tid, req) =>
      if tid in s.txs then s else s.(txs := s.txs[tid := Tx(req, Claim, None, false, None)])
    case Tick(tid, id, sensitive) => if tid !in s.txs then s else TickTx(s, tid, id, sensitive)
    case Rollback(tid) =>
      if tid !in s.txs || s.txs[tid].phase.Done? then s
      else s.(txs := s.txs[tid := End(s.txs[tid], DbError)])
  }

  function Run(s: State, actions: seq<Action>): State {
    if actions == [] then s else Step(Run(s, actions[..|actions| - 1]), actions[|actions| - 1])
  }

  // ---- Invariant ----

  /** A row of the idempotency table holds a finished response about a stored version. */
  ghost predicate IdemInv(db: Db, k: Key)
    requires k in db.idem
  {
    var row := db.idem[k];
    && row.body.Some? && row.status == StatusOf(row.body.value)
    && row.fingerprint in db.versions && db.versions[row.fingerprint] == row.body.value.version
  }

  /** A logged sync's version is stored, and so is its response if it had a key. */
  ghost predicate EntryInv(db: Db, e: LogEntry) {
    && e.req.hash in db.versions && db.versions[e.req.hash] == e.body.version
    && (e.req.key.Some? ==>
         e.req.key.value in db.idem && db.idem[e.req.key.value] == Idem(e.req.hash, StatusOf(e.body), Some(e.body)))
  }

  ghost predicate EntriesInv(db: Db, log: seq<LogEntry>) {
    forall i :: 0 <= i < |log| ==> EntryInv(db, log[i])
  }

  /** No key is synced twice, and no version is created twice. */
  ghost predicate LogApart(log: seq<LogEntry>) {
    && (forall i, j :: 0 <= i < j < |log| && log[i].req.key.Some? ==> log[i].req.key != log[j].req.key)
    && (forall i, j :: 0 <= i < j < |log| && log[i].body.created && log[j].body.created ==>
          log[i].req.hash != log[j].req.hash)
  }

  /** Every stored version was reported created by some logged sync. */
  ghost predicate AllCreated(db: Db, log: seq<LogEntry>) {
    forall h :: h in db.versions ==> CreatedIn(log, h)
  }

  ghost predicate CreatedIn(log: seq<LogEntry>, hash: Hash) {
    exists i :: 0 <= i < |log| && log[i].req.hash == hash && log[i].body.created
  }

  /** What a transaction's phase and uncommitted rows promise about each other. */
  ghost predicate TxInv(db: Db, tx: Tx) {
    && (tx.claim.Some? ==>
          tx.req.key.Some? && tx.req.key.value !in db.idem && tx.claim.value.fingerprint == tx.req.hash)
    && (tx.newVersion.Some? ==> tx.newVersion.value.hash == tx.req.hash && tx.req.hash !in db.versions)
    && (match tx.phase
        case Claim => tx.claim.None? && tx.newVersion.None?
        case ReadRecord => tx.claim.None? && tx.newVersion.None? && tx.req.key.Some? && tx.req.key.value in db.idem
        case EnsureAction => tx.newVersion.None? && (tx.req.key.Some? ==> tx.claim.Some?)
        case GetVersion => tx.newVersion.None? && (tx.req.key.Some? ==> tx.claim.Some?)
        case InsertVersion => tx.newVersion.None? && (tx.req.key.Some? ==> tx.claim.Some?)
        case ReadRaced => tx.newVersion.None? && (tx.req.key.Some? ==> tx.claim.Some?) && tx.req.hash in db.versions
        case Complete(body) => BodyInv(db, tx, body) && (tx.req.key.Some? ==> tx.claim.Some?)
        case Commit(body) => BodyInv(db, tx, body)
          && (tx.req.key.Some? ==> tx.claim == Some(Idem(tx.req.hash, StatusOf(body), Some(body))))
        case Done(reply) => tx.claim.None? && tx.newVersion.None? && ReplyInv(db, tx.req, reply))
  }

  /** The body names the transaction's own new version, or a committed one it did not create. */
  ghost predicate BodyInv(db: Db, tx: Tx, body: Body) {
    if body.created then tx.newVersion == Some(body.version)
    else tx.newVersion.None? && tx.req.hash in db.versions && db.versions[tx.req.hash] == body.version
  }

  /** What a caller was told agrees with the tables. */
  ghost predicate ReplyInv(db: Db, req: Request, reply: Reply) {
    match reply
    case Synced(status, body) =>
      && status == StatusOf(body) && req.hash in db.versions && db.versions[req.hash] == body.version
      && (req.key.Some? ==> req.key.value in db.idem && db.idem[req.key.value] == Idem(req.hash, status, Some(body)))
    case Replayed(status, body) =>
      req.key.Some? && req.key.value in db.idem && db.idem[req.key.value] == Idem(req.hash, status, body)
    case KeyConflict =>
      req.key.Some? && req.key.value in db.idem && db.idem[req.key.value].fingerprint != req.hash
    case DbError => true
  }

  /** No two open transactions hold the same uncommitted row. */
  ghost predicate RowsApart(txs: map<nat, Tx>) {
    && (forall t, u :: t in txs && u in txs && t != u && txs[t].claim.Some? && txs[u].claim.Some? ==>
         txs[t].req.key != txs[u].req.key)
    && (forall t, u :: t in txs && u in txs && t != u && txs[t].newVersion.Some? && txs[u].newVersion.Some? ==>
         txs[t].req.hash != txs[u].req.hash)
  }

  ghost predicate Inv(s: State) {
    && (forall k :: k in s.db.idem ==> IdemInv(s.db, k))
    && EntriesInv(s.db, s.log) && LogApart(s.log) && AllCreated(s.db, s.log)
    && RowsApart(s.txs)
    && forall t :: t in s.txs ==> TxInv(s.db, s.txs[t])
  }

  // ---- Every action keeps the invariant ----

  lemma NextTxKeepsTx(s: State, tid: nat, id: nat, sensitive: bool)
    requires tid in s.txs && !s.txs[tid].phase.Commit? && TxInv(s.db, s.txs[tid])
    ensures TxInv(s.db, NextTx(s, tid, id, sensitive)) && NextTx(s, tid, id, sensitive).req == s.txs[tid].req
  {
  }

  /** A new uncommitted row is one that no other open transaction holds. */
  lemma NextTxHoldsNewRows(s: State, tid: nat, id: nat, sensitive: bool)
    requires tid in s.txs && TxInv(s.db, s.txs[tid])
    ensures var tx, next := s.txs[tid], NextTx(s, tid, id, sensitive);
            && (next.claim.Some? ==>
                  tx.claim.Some? || (tx.req.key.Some? && !ClaimHeldByOther(s, tid, tx.req.key.value)))
            && (next.newVersion.Some? ==> tx.newVersion.Some? || !VersionHeldByOther(s, tid, tx.req.hash))
  {
  }

  lemma NextTxKeepsApart(s: State, tid: nat, id: nat, sensitive: bool)
    requires Inv(s) && tid in s.txs && !s.txs[tid].phase.Commit?
    ensures RowsApart(s.txs[tid := NextTx(s, tid, id, sensitive)])
  {
    var tx, next := s.txs[tid], NextTx(s, tid, id, sensitive);
    assert TxInv(s.db, tx);
    NextTxKeepsTx(s, tid, id, sensitive);
    NextTxHoldsNewRows(s, tid, id, sensitive);
    forall u | u in s.txs && u != tid
      ensures next.claim.Some? && s.txs[u].claim.Some? ==> next.req.key != s.txs[u].req.key
      ensures next.newVersion.Some? && s.txs[u].newVersion.Some? ==> next.req.hash != s.txs[u].req.hash
    {
      assert TxInv(s.db, s.txs[u]);
    }
  }

  // ---- The commit ----

  /** A commit only adds rows. */
  ghost predicate Extends(db: Db, db': Db) {
    && (forall h :: h in db.versions ==> h in db'.versions && db'.versions[h] == db.versions[h])
    && (forall k :: k in db.idem ==> k in db'.idem && db'.idem[k] == db.idem[k])
  }

  lemma CommitExtends(db: Db, tx: Tx)
    requires TxInv(db, tx)
    ensures Extends(db, CommittedDb(db, tx))
  {
  }

  lemma CommitKeepsIdem(db: Db, tx: Tx, k: Key)
    requires TxInv(db, tx) && tx.phase.Commit? && forall k :: k in db.idem ==> IdemInv(db, k)
    requires k in CommittedDb(db, tx).idem
    ensures IdemInv(CommittedDb(db, tx), k)
  {
    CommitExtends(db, tx);
    if k in db.idem {
      assert IdemInv(db, k);
    }
  }

  /** Another open transaction keeps its promises, since its uncommitted rows are its own. */
  lemma CommitKeepsOther(s: State, tid: nat, u: nat)
    requires Inv(s) && tid in s.txs && s.txs[tid].phase.Commit? && u in s.txs && u != tid
    ensures TxInv(CommittedDb(s.db, s.txs[tid]), s.txs[u])
  {
    assert TxInv(s.db, s.txs[tid]) && TxInv(s.db, s.txs[u]);
    CommitExtends(s.db, s.txs[tid]);
  }

  lemma CommitKeepsEntries(db: Db, log: seq<LogEntry>, tx: Tx)
    requires EntriesInv(db, log) && TxInv(db, tx) && tx.phase.Commit?
    ensures EntriesInv(CommittedDb(db, tx), log + [LogEntry(tx.req, tx.phase.body)])
  {
    var all := log + [LogEntry(tx.req, tx.phase.body)];
    CommitExtends(db, tx);
    forall i | 0 <= i < |all| ensures EntryInv(CommittedDb(db, tx), all[i]) {
      if i < |log| {
        assert EntryInv(db, log[i]);
      }
    }
  }

  lemma CommitKeepsApart(db: Db, log: seq<LogEntry>, tx: Tx)
    requires EntriesInv(db, log) && LogApart(log) && TxInv(db, tx) && tx.phase.Commit?
    ensures LogApart(log + [LogEntry(tx.req, tx.phase.body)])
  {
    forall i | 0 <= i < |log|
      ensures log[i].req.key.Some? ==> log[i].req.key != tx.req.key
      ensures log[i].body.created && tx.phase.body.created ==> log[i].req.hash != tx.req.hash
    {
      assert EntryInv(db, log[i]);
    }
  }

  lemma CommitKeepsCreated(db: Db, log: seq<LogEntry>, tx: Tx)
    requires AllCreated(db, log) && TxInv(db, tx) && tx.phase.Commit?
    ensures AllCreated(CommittedDb(db, tx), log + [LogEntry(tx.req, tx.phase.body)])
  {
    var all := log + [LogEntry(tx.req, tx.phase.body)];
    forall h | h in CommittedDb(db, tx).versions ensures CreatedIn(all, h) {
      if h in db.versions {
        var i :| 0 <= i < |log| && log[i].req.hash == h && log[i].body.created;
        assert all[i] == log[i];
      } else {
        assert all[|log|].req.hash == h && all[|log|].body.created;
      }
    }
  }

  lemma CommitKeepsInv(s: State, tid: nat)
    requires Inv(s) && tid in s.txs && s.txs[tid].phase.Commit?
    ensures Inv(CommitTx(s, tid, s.txs[tid].phase.body))
  {
    var tx := s.txs[tid];
    var s' := CommitTx(s, tid, tx.phase.body);
    assert TxInv(s.db, tx);
    CommitKeepsEntries(s.db, s.log, tx);
    CommitKeepsApart(s.db, s.log, tx);
    CommitKeepsCreated(s.db, s.log, tx);
    forall k | k in s'.db.idem ensures IdemInv(s'.db, k) {
      CommitKeepsIdem(s.db, tx, k);
    }
    CommitKeepsTxs(s, tid);
  }

  lemma CommitKeepsTxs(s: State, tid: nat)
    requires Inv(s) && tid in s.txs && s.txs[tid].phase.Commit?
    ensures var s' := CommitTx(s, tid, s.txs[tid].phase.body);
            RowsApart(s'.txs) && forall t :: t in s'.txs ==> TxInv(s'.db, s'.txs[t])
  {
    var s' := CommitTx(s, tid, s.txs[tid].phase.body);
    assert TxInv(s.db, s.txs[tid]);
    forall t | t in s'.txs ensures TxInv(s'.db, s'.txs[t]) {
      if t != tid {
        CommitKeepsOther(s, tid, t);
      }
    }
  }

  lemma TickKeepsInv(s: State, tid: nat, id: nat, sensitive: bool)
    requires Inv(s) && tid in s.txs && !s.txs[tid].phase.Commit?
    ensures Inv(s.(txs := s.txs[tid := NextTx(s, tid, id, sensitive)]))
  {
    assert TxInv(s.db, s.txs[tid]);
    NextTxKeepsTx(s, tid, id, sensitive);
    NextTxKeepsApart(s, tid, id, sensitive);
  }

  /** A transaction without rows of its own comes in or is left behind. */
  lemma IdleTxKeepsInv(s: State, tid: nat, tx: Tx)
    requires Inv(s) && TxInv(s.db, tx) && tx.claim.None? && tx.newVersion.None?
    ensures Inv(s.(txs := s.txs[tid := tx]))
  {
  }

  lemma StepKeepsInv(s: State, a: Action)
    requires Inv(s)
    ensures Inv(Step(s, a))
  {
    match a
    case Begin(tid, req) =>
      if tid !in s.txs {
        IdleTxKeepsInv(s, tid, Tx(req, Claim, None, false, None));
      }
    case Tick(tid, id, sensitive) =>
      if tid in s.txs {
        if s.txs[tid].phase.Commit? {
          CommitKeepsInv(s, tid);
        } else {
          TickKeepsInv(s, tid, id, sensitive);
        }
      }
    case Rollback(tid) =>
      if tid in s.txs && !s.txs[tid].phase.Done? {
        IdleTxKeepsInv(s, tid, End(s.txs[tid], DbError));
      }
  }

  lemma {:induction false} RunKeepsInv(actions: seq<Action>)
    ensures Inv(Run(INIT, actions))
    decreases |actions|
  {
    if actions != [] {
      RunKeepsInv(actions[..|actions| - 1]);
      StepKeepsInv(Run(INIT, actions[..|actions| - 1]), actions[|actions| - 1]);
    }
  }

  // ---- What every interleaving guarantees ----

  /** At most one transaction with a given Idempotency-Key commits a sync. */
  lemma KeyCommitsOnce(actions: seq<Action>, i: nat, j: nat)
    requires i < j < |Run(INIT, actions).log| && Run(INIT, actions).log[i].req.key.Some?
    ensures Run(INIT, actions).log[i].req.key != Run(INIT, actions).log[j].req.key
  {
    RunKeepsInv(actions);
  }

  /** The answer a finished transaction got. */
  ghost predicate Told(s: State, tid: nat, reply: Reply) {
    tid in s.txs && s.txs[tid].phase == Done(reply)
  }

  /** Callers of one key with the same fingerprint are told one and the same status and body, whether they
      synced or replayed, and it is never the placeholder. */
  lemma SameKeySameResponse(
    actions: seq<Action>, t: nat, u: nat, status: nat, body: Body, status': nat, stored: Option<Body>)
    requires var s := Run(INIT, actions);
             && (Told(s, t, Synced(status, body)) || Told(s, t, Replayed(status, Some(body))))
             && (Told(s, u, Replayed(status', stored)) || (stored.Some? && Told(s, u, Synced(status', stored.value))))
             && s.txs[t].req.key.Some? && s.txs[t].req.key == s.txs[u].req.key
    ensures Run(INIT, actions).txs[t].req.hash == Run(INIT, actions).txs[u].req.hash
    ensures status' == status && stored == Some(body)
    ensures status == STATUS_OK || status == STATUS_CREATED
  {
    RunKeepsInv(actions);
    var s := Run(INIT, actions);
    assert TxInv(s.db, s.txs[t]) && TxInv(s.db, s.txs[u]);
    assert IdemInv(s.db, s.txs[t].req.key.value);
  }

  /** The status says what happened: 201 when this key's sync created the version, 200 when it found it. */
  lemma StatusTellsCreation(actions: seq<Action>, t: nat, status: nat, body: Body)
    requires var s := Run(INIT, actions); Told(s, t, Synced(status, body)) || Told(s, t, Replayed(status, Some(body)))
    ensures status == if body.created then 201 else 200
  {
    RunKeepsInv(actions);
    var s := Run(INIT, actions);
    assert TxInv(s.db, s.txs[t]);
    if s.txs[t].phase.reply.Replayed? {
      assert IdemInv(s.db, s.txs[t].req.key.value);
    }
  }

  /** A step that commits a sync says "created" exactly when it adds the row, and names that row either way. */
  lemma CreatedIffAdded(actions: seq<Action>, a: Action)
    requires |Step(Run(INIT, actions), a).log| > |Run(INIT, actions).log|
    ensures var s, r := Run(INIT, actions), Step(Run(INIT, actions), a);
            var e := r.log[|s.log|];
            && r.log == s.log + [e] && e.req.hash in r.db.versions && r.db.versions[e.req.hash] == e.body.version
            && (e.body.created <==> e.req.hash !in s.db.versions)
            && (e.body.created ==> r.db.versions == s.db.versions[e.req.hash := e.body.version])
            && (!e.body.created ==> r.db.versions == s.db.versions)
            && a.Tick? && Told(r, a.tid, Synced(if e.body.created then 201 else 200, e.body))
  {
    RunKeepsInv(actions);
    var s := Run(INIT, actions);
    assert TxInv(s.db, s.txs[a.tid]);
  }

  /** Uncommitted rows of the logical action: at most one, and only while none is committed. */
  ghost predicate ActionsApart(s: State) {
    && (forall t :: t in s.txs && s.txs[t].newAction ==> !s.db.actionExists)
    && (forall t, u :: t in s.txs && u in s.txs && s.txs[t].newAction && s.txs[u].newAction ==> t == u)
  }

  lemma StepKeepsActionsApart(s: State, a: Action)
    requires ActionsApart(s)
    ensures ActionsApart(Step(s, a))
  {
  }

  /** In every run, no two transactions insert the logical action, and none inserts it after it is there. */
  lemma {:induction false} ActionIsInsertedOnce(actions: seq<Action>)
    ensures ActionsApart(Run(INIT, actions))
    decreases |actions|
  {
    if actions != [] {
      ActionIsInsertedOnce(actions[..|actions| - 1]);
      StepKeepsActionsApart(Run(INIT, actions[..|actions| - 1]), actions[|actions| - 1]);
    }
  }

  /** A transaction that is rolled back leaves no row behind, whatever it had inserted, and holds nothing up. */
  lemma RollbackLeavesNothing(s: State, tid: nat)
    requires tid in s.txs && !s.txs[tid].phase.Done?
    ensures var r := Step(s, Rollback(tid));
      && r.db == s.db && r.log == s.log && Told(r, tid, DbError) && r.txs.Keys == s.txs.Keys
      && r.txs[tid].claim.None? && !r.txs[tid].newAction && r.txs[tid].newVersion.None?
      && forall u :: u in s.txs && u != tid ==> r.txs[u] == s.txs[u]
  {
  }

  /** A replay always finds a finished response: the placeholder is never visible. */
  lemma PlaceholderIsInvisible(actions: seq<Action>, t: nat, status: nat, stored: Option<Body>)
    requires Told(Run(INIT, actions), t, Replayed(status, stored))
    ensures stored.Some? && status == StatusOf(stored.value) && status != 0
  {
    RunKeepsInv(actions);
    var s := Run(INIT, actions);
    assert TxInv(s.db, s.txs[t]);
    assert IdemInv(s.db, s.txs[t].req.key.value);
  }

  /** Two requests under one key with different fingerprints: once one has been answered, the other is
      never answered anything but a conflict (or an error). */
  lemma DifferentFingerprintConflicts(actions: seq<Action>, t: nat, u: nat, reply: Reply, other: Reply)
    requires Told(Run(INIT, actions), t, reply) && (reply.Synced? || reply.Replayed?)
    requires Told(Run(INIT, actions), u, other)
    requires var s := Run(INIT, actions);
             s.txs[t].req.key.Some? && s.txs[t].req.key == s.txs[u].req.key && s.txs[t].req.hash != s.txs[u].req.hash
    ensures other.KeyConflict? || other.DbError?
  {
    RunKeepsInv(actions);
    var s := Run(INIT, actions);
    assert TxInv(s.db, s.txs[t]) && TxInv(s.db, s.txs[u]);
  }

  /** Conversely a key conflict is only ever reported for a key that is stored with another fingerprint. */
  lemma ConflictIsReal(actions: seq<Action>, t: nat)
    requires Told(Run(INIT, actions), t, KeyConflict)
    ensures var s := Run(INIT, actions);
            && s.txs[t].req.key.Some? && s.txs[t].req.key.value in s.db.idem
            && s.db.idem[s.txs[t].req.key.value].fingerprint != s.txs[t].req.hash
  {
    RunKeepsInv(actions);
    var s := Run(INIT, actions);
    assert TxInv(s.db, s.txs[t]);
  }

  /** Each version row is reported created by exactly one committed sync. */
  lemma VersionCreatedExactlyOnce(actions: seq<Action>, hash: Hash)
    requires hash in Run(INIT, actions).db.versions
    ensures var log := Run(INIT, actions).log;
            exists i :: && 0 <= i < |log| && log[i].req.hash == hash && log[i].body.created
                        && forall j :: 0 <= j < |log| && log[j].req.hash == hash && log[j].body.created ==> j == i
  {
    RunKeepsInv(actions);
    var log := Run(INIT, actions).log;
    assert CreatedIn(log, hash);
    var i :| 0 <= i < |log| && log[i].req.hash == hash && log[i].body.created;
    forall j | 0 <= j < |log| && log[j].req.hash == hash && log[j].body.created ensures j == i {
    }
  }

  /** A transaction errs only by being rolled back: the re-reads after a lost insert always find the row. */
  lemma ReReadsFindTheRow(actions: seq<Action>, tid: nat, id: nat, sensitive: bool)
    requires var s := Run(INIT, actions); tid in s.txs && !s.txs[tid].phase.Done?
    ensures !Told(Step(Run(INIT, actions), Tick(tid, id, sensitive)), tid, DbError)
  {
    RunKeepsInv(actions);
    var s := Run(INIT, actions);
    assert TxInv(s.db, s.txs[tid]);
  }

  /** Committed versions and responses are never rewritten. */
  lemma {:induction false} CommittedRowsStay(before: seq<Action>, after: seq<Action>)
    ensures Extends(Run(INIT, before).db, Run(INIT, before + after).db)
    decreases |after|
  {
    if after == [] {
      assert before + after == before;
    } else {
      var n := |after| - 1;
      CommittedRowsStay(before, after[..n]);
      assert (before + after)[..|before + after| - 1] == before + after[..n];
      NextStepExtends(before + after[..n], after[n]);
      var s, t := Run(INIT, before), Run(INIT, before + after[..n]);
      ExtendsTransitive(s.db, t.db, Step(t, after[n]).db);
    }
  }

  lemma ExtendsTransitive(a: Db, b: Db, c: Db)
    requires Extends(a, b) && Extends(b, c)
    ensures Extends(a, c)
  {
  }

  lemma NextStepExtends(actions: seq<Action>, a: Action)
    ensures Extends(Run(INIT, actions).db, Step(Run(INIT, actions), a).db)
  {
    RunKeepsInv(actions);
    var s := Run(INIT, actions);
    if a.Tick? && a.tid in s.txs && s.txs[a.tid].phase.Commit? {
      assert TxInv(s.db, s.txs[a.tid]);
      CommitExtends(s.db, s.txs[a.tid]);
    }
  }

  // ---- One transaction alone ----

  /** What a sync leaves behind and answers when nothing else is running. */
  function Alone(db: Db, req: Request, id: nat, sensitive: bool): (Db, Reply) {
    if req.key.Some? && req.key.value in db.idem then (db, ReplyTo(db.idem[req.key.value], req.hash))
    else
      var created := req.hash !in db.versions;
      var body := Body(if created then Version(id, req.hash, sensitive) else db.versions[req.hash], created);
      var reply := Synced(StatusOf(body), body);
      var idem :=
        if req.key.None? then db.idem else db.idem[req.key.value := Idem(req.hash, StatusOf(body), Some(body))];
      (Db(true, db.versions[req.hash := body.version], idem), reply)
  }

  function Ticks(s: State, tid: nat, id: nat, sensitive: bool, n: nat): State
    decreases n
  {
    if n == 0 then s else Ticks(Step(s, Tick(tid, id, sensitive)), tid, id, sensitive, n - 1)
  }

  /** No transaction holds an uncommitted row. */
  predicate Idle(s: State) {
    forall t :: t in s.txs ==> s.txs[t].claim.None? && !s.txs[t].newAction && s.txs[t].newVersion.None?
  }

  /** The state with only this transaction moved. */
  function With(s: State, tid: nat, tx: Tx): State { s.(txs := s.txs[tid := tx]) }

  lemma TickMoves(s: State, tid: nat, tx: Tx, next: Tx, id: nat, sensitive: bool, n: nat)
    requires !tx.phase.Commit? && NextTx(With(s, tid, tx), tid, id, sensitive) == next && n > 0
    ensures Ticks(With(s, tid, tx), tid, id, sensitive, n) == Ticks(With(s, tid, next), tid, id, sensitive, n - 1)
  {
    assert Step(With(s, tid, tx), Tick(tid, id, sensitive)) == With(s, tid, next);
  }

  /** `n` more statements of this transaction end in what `Alone` says. */
  ghost predicate Solves(s: State, tid: nat, tx: Tx, id: nat, sensitive: bool, n: nat) {
    var r := Ticks(With(s, tid, tx), tid, id, sensitive, n);
    && r.db == Alone(s.db, tx.req, id, sensitive).0
    && Told(r, tid, Alone(s.db, tx.req, id, sensitive).1)
  }

  lemma SolvesEarlier(s: State, tid: nat, tx: Tx, next: Tx, id: nat, sensitive: bool, n: nat)
    requires !tx.phase.Commit? && NextTx(With(s, tid, tx), tid, id, sensitive) == next && n > 0
    requires tx.req == next.req && Solves(s, tid, next, id, sensitive, n - 1)
    ensures Solves(s, tid, tx, id, sensitive, n)
  {
    TickMoves(s, tid, tx, next, id, sensitive, n);
  }

  lemma NobodyHolds(s: State, tid: nat, tx: Tx, hash: Hash)
    requires Idle(s)
    ensures !ActionHeldByOther(With(s, tid, tx), tid) && !VersionHeldByOther(With(s, tid, tx), tid, hash)
    ensures tx.req.key.Some? ==> !ClaimHeldByOther(With(s, tid, tx), tid, tx.req.key.value)
  {
  }

  lemma {:induction false} DoneStays(s: State, tid: nat, tx: Tx, id: nat, sensitive: bool, n: nat)
    requires tx.phase.Done?
    ensures Ticks(With(s, tid, tx), tid, id, sensitive, n) == With(s, tid, tx)
    decreases n
  {
    if n > 0 {
      TickMoves(s, tid, tx, tx, id, sensitive, n);
      DoneStays(s, tid, tx, id, sensitive, n - 1);
    }
  }

  /** A run of one transaction while no other holds a row ends as `Alone` says, in six statements at most. */
  lemma SoloSync(s: State, tid: nat, req: Request, id: nat, sensitive: bool)
    requires Idle(s) && tid !in s.txs
    ensures var r := Ticks(Step(s, Begin(tid, req)), tid, id, sensitive, 6);
            && r.db == Alone(s.db, req, id, sensitive).0
            && Told(r, tid, Alone(s.db, req, id, sensitive).1)
  {
    if req.key.Some? && req.key.value in s.db.idem {
      SoloReplay(s, tid, req, id, sensitive);
    } else {
      SoloClaim(s, tid, req, id, sensitive);
    }
    assert Step(s, Begin(tid, req)) == With(s, tid, Tx(req, Claim, None, false, None));
  }

  /** A request whose key is free, or that has none. */
  lemma SoloClaim(s: State, tid: nat, req: Request, id: nat, sensitive: bool)
    requires Idle(s) && tid !in s.txs && (req.key.None? || req.key.value !in s.db.idem)
    ensures Solves(s, tid, Tx(req, Claim, None, false, None), id, sensitive, 6)
  {
    var tx := Tx(req, Claim, None, false, None);
    NobodyHolds(s, tid, tx, req.hash);
    var claim := if req.key.None? then None else Some(Idem(req.hash, 0, None));
    var claimed := tx.(phase := EnsureAction, claim := claim);
    SoloWork(s, tid, claimed, id, sensitive);
    SolvesEarlier(s, tid, tx, claimed, id, sensitive, 6);
  }

  lemma SoloReplay(s: State, tid: nat, req: Request, id: nat, sensitive: bool)
    requires Idle(s) && tid !in s.txs && req.key.Some? && req.key.value in s.db.idem
    ensures Solves(s, tid, Tx(req, Claim, None, false, None), id, sensitive, 6)
  {
    var tx := Tx(req, Claim, None, false, None);
    var reading := tx.(phase := ReadRecord);
    var replied := End(reading, ReplyTo(s.db.idem[req.key.value], req.hash));
    NobodyHolds(s, tid, tx, req.hash);
    DoneStays(s, tid, replied, id, sensitive, 4);
    SolvesEarlier(s, tid, reading, replied, id, sensitive, 5);
    SolvesEarlier(s, tid, tx, reading, id, sensitive, 6);
  }

  /** Holds the claim on its key, if it has one, and nothing else. */
  predicate Claimed(db: Db, tx: Tx) {
    if tx.req.key.None? then tx.claim.None?
    else tx.req.key.value !in db.idem && tx.claim == Some(Idem(tx.req.hash, 0, None))
  }

  lemma SoloWork(s: State, tid: nat, tx: Tx, id: nat, sensitive: bool)
    requires Idle(s) && Claimed(s.db, tx) && tx.phase == EnsureAction && tx.newVersion.None?
    ensures Solves(s, tid, tx, id, sensitive, 5)
  {
    var found := tx.(phase := GetVersion, newAction := !s.db.actionExists);
    NobodyHolds(s, tid, tx, tx.req.hash);
    SoloVersion(s, tid, found, id, sensitive);
    SolvesEarlier(s, tid, tx, found, id, sensitive, 5);
  }

  /** From reading the version on: it is there, or the insert succeeds. */
  lemma SoloVersion(s: State, tid: nat, tx: Tx, id: nat, sensitive: bool)
    requires Idle(s) && Claimed(s.db, tx) && tx.phase == GetVersion && tx.newVersion.None?
    requires tx.newAction <==> !s.db.actionExists
    ensures Solves(s, tid, tx, id, sensitive, 4)
  {
    var hash := tx.req.hash;
    if hash in s.db.versions {
      var known := tx.(phase := Complete(Body(s.db.versions[hash], false)));
      SoloCommit(s, tid, known, id, sensitive, 3);
      SolvesEarlier(s, tid, tx, known, id, sensitive, 4);
    } else {
      var version := Version(id, hash, sensitive);
      var inserting := tx.(phase := InsertVersion);
      var inserted := tx.(phase := Complete(Body(version, true)), newVersion := Some(version));
      NobodyHolds(s, tid, inserting, hash);
      SoloCommit(s, tid, inserted, id, sensitive, 2);
      SolvesEarlier(s, tid, inserting, inserted, id, sensitive, 3);
      SolvesEarlier(s, tid, tx, inserting, id, sensitive, 4);
    }
  }

  /** The body and the rows that a lone transaction completes with. */
  predicate Resolved(db: Db, tx: Tx, id: nat, sensitive: bool) {
    && Claimed(db, tx) && (tx.newAction <==> !db.actionExists) && tx.phase.Complete?
    && if tx.req.hash in db.versions
       then tx.newVersion.None? && tx.phase.body == Body(db.versions[tx.req.hash], false)
       else
         var version := Version(id, tx.req.hash, sensitive);
         tx.newVersion == Some(version) && tx.phase.body == Body(version, true)
  }

  /** The last two statements: store the response on the claim, commit. */
  lemma SoloCommit(s: State, tid: nat, tx: Tx, id: nat, sensitive: bool, n: nat)
    requires Resolved(s.db, tx, id, sensitive) && n >= 2
    ensures Solves(s, tid, tx, id, sensitive, n)
  {
    var body := tx.phase.body;
    var claim := if tx.req.key.None? then None else Some(Idem(tx.req.hash, StatusOf(body), Some(body)));
    var ready := tx.(phase := Commit(body), claim := claim);
    var done := CommitTx(With(s, tid, ready), tid, body);
    assert Step(With(s, tid, ready), Tick(tid, id, sensitive)) == done;
    assert done == With(done, tid, done.txs[tid]);
    DoneStays(done, tid, done.txs[tid], id, sensitive, n - 2);
    CommitsAlone(s.db, tx, ready, id, sensitive);
    SolvesEarlier(s, tid, tx, ready, id, sensitive, n);
  }

  lemma CommitsAlone(db: Db, tx: Tx, ready: Tx, id: nat, sensitive: bool)
    requires Resolved(db, tx, id, sensitive)
    requires var body := tx.phase.body;
             var stored := Idem(tx.req.hash, StatusOf(body), Some(body));
             ready == tx.(phase := Commit(body), claim := if tx.req.key.None? then None else Some(stored))
    ensures CommittedDb(db, ready) == Alone(db, tx.req, id, sensitive).0
    ensures Synced(StatusOf(tx.phase.body), tx.phase.body) == Alone(db, tx.req, id, sensitive).1
  {
  }

  /** The two tables of one logical action. */
  class ContractStore {
    var actionExists: bool
    var versions: map<Hash, Version>
    var idem: map<Key, Idem>

    ghost function View(): Db
      reads this
    {
      Db(actionExists, versions, idem)
    }

    constructor ()
      ensures View() == INIT.db
    {
      actionExists, versions, idem := false, map[], map[];
    }

    /** claimContractSyncIdempotencyRecord. */
    method Claim(key: Key, fingerprint: Hash) returns (claimed: bool)
      modifies this`idem
      ensures claimed <==> key !in old(idem)
      ensures idem == if claimed then old(idem)[key := Idem(fingerprint, 0, None)] else old(idem)
    {
      claimed := key !in idem;
      if claimed {
        idem := idem[key := Idem(fingerprint, 0, None)];
      }
    }

    /** completeContractSyncIdempotencyRecord. */
    method Complete(key: Key, fingerprint: Hash, body: Body) returns (ok: bool)
      modifies this`idem
      ensures ok <==> key in old(idem) && old(idem)[key].fingerprint == fingerprint
      ensures idem == if ok then old(idem)[key := Idem(fingerprint, StatusOf(body), Some(body))] else old(idem)
    {
      ok := key in idem && idem[key].fingerprint == fingerprint;
      if ok {
        idem := idem[key := Idem(fingerprint, StatusOf(body), Some(body))];
      }
    }

    /** performContractSyncInTx: resolve the version or append it. */
    method SyncInTx(hash: Hash, id: nat, sensitive: bool) returns (body: Body)
      modifies this`actionExists, this`versions
      ensures actionExists && body.created == (hash !in old(versions))
      ensures versions == old(versions)[hash := body.version]
      ensures body.version == if body.created then Version(id, hash, sensitive) else old(versions)[hash]
    {
      actionExists := true;
      if hash in versions {
        return Body(versions[hash], false);
      }
      var version := Version(id, hash, sensitive);
      versions := versions[hash := version];
      body := Body(version, true);
    }

    /** performIdempotentContractSync, or the plain sync when there is no key. */
    method Perform(req: Request, id: nat, sensitive: bool) returns (reply: Reply)
      modifies this
      ensures (View(), reply) == Alone(old(View()), req, id, sensitive)
      ensures req.key.Some? && req.key.value in old(idem) ==>
        var row := old(idem)[req.key.value];
        && View() == old(View())
        && reply == if row.fingerprint == req.hash then Replayed(row.status, row.body) else KeyConflict
      ensures req.key.None? || req.key.value !in old(idem) ==>
        var isNew := req.hash !in old(versions);
        var version := if isNew then Version(id, req.hash, sensitive) else old(versions)[req.hash];
        var status := if isNew then 201 else 200;
        && reply == Synced(status, Body(version, isNew))
        && actionExists && versions == old(versions)[req.hash := version]
        && idem == if req.key.None? then old(idem)
                   else old(idem)[req.key.value := Idem(req.hash, status, Some(Body(version, isNew)))]
    {
      if req.key.None? {
        var plain := SyncInTx(req.hash, id, sensitive);
        return Synced(StatusOf(plain), plain);
      }
      var key := req.key.value;
      var claimed := Claim(key, req.hash);
      if !claimed {
        var record := idem[key];
        return if record.fingerprint != req.hash then KeyConflict else Replayed(record.status, record.body);
      }
      var body := SyncInTx(req.hash, id, sensitive);
      var _ := Complete(key, req.hash, body);
      assert idem == old(idem)[key := Idem(req.hash, StatusOf(body), Some(body))];
      reply := Synced(StatusOf(body), body);
    }
  }
}
