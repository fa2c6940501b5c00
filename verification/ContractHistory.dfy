/**
 The version history of one logical action when syncs run one after another, and the
 security-sensitive delta stored with each version
 (igris-overture/api/routes_contracts.go contractSecurityDelta, performContractSyncInTx;
 igris-overture/api/contract_store.go latestContractVersion).
 */
module ContractHistory {
  import opened Options

  datatype Risk = Low | Medium | High | Critical
  datatype Approval = Required | Never

  datatype Contract = Contract(hash: string, risk: Risk, approval: Approval, execution: string)

  datatype Flag =
    | RiskLowered(from: Risk, to: Risk)
    | ApprovalWeakened
    | ExecutionModeChanged(old': string, new': string)

  /** A stored version; it is security-sensitive when it has a flag. */
  datatype Version = Version(contract: Contract, flags: seq<Flag>)

  type History = seq<Version>

  function Rank(r: Risk): nat {
    match r
    case Low => 1
    case Medium => 2
    case High => 3
    case Critical => 4
  }

  predicate LowersRisk(a: Contract, b: Contract) { Rank(b.risk) < Rank(a.risk) }
  predicate WeakensApproval(a: Contract, b: Contract) { a.approval.Required? && b.approval.Never? }

  /** `b` asks for less scrutiny than `a`. */
  predicate Weakens(a: Contract, b: Contract) { LowersRisk(a, b) || WeakensApproval(a, b) }

  function Delta(prior: Option<Version>, next: Contract): seq<Flag> {
    if prior.None? then []
    else
      var p := prior.value.contract;
      (if LowersRisk(p, next) then [RiskLowered(p.risk, next.risk)] else [])
      + (if WeakensApproval(p, next) then [ApprovalWeakened] else [])
      + (if p.execution != next.execution then [ExecutionModeChanged(p.execution, next.execution)] else [])
  }

  /** From, to: the changes of risk that ask for less scrutiny. */
  const LOWERED: seq<(Risk, Risk)> :=
    [(Medium, Low), (High, Low), (High, Medium), (Critical, Low), (Critical, Medium), (Critical, High)]

  /** Risk is lowered by exactly six changes. */
  lemma LowersRiskIff(a: Contract, b: Contract)
    ensures LowersRisk(a, b) <==> (a.risk, b.risk) in LOWERED
  {
    assert LOWERED[0] == (Medium, Low) && LOWERED[1] == (High, Low) && LOWERED[2] == (High, Medium);
    assert LOWERED[3] == (Critical, Low) && LOWERED[4] == (Critical, Medium) && LOWERED[5] == (Critical, High);
  }

  /** What each flag says, what it was raised for, and that the flags come in this order. */
  lemma DeltaMeans(prior: Version, next: Contract)
    ensures var p, flags := prior.contract, Delta(Some(prior), next);
      && (forall f, t :: RiskLowered(f, t) in flags <==> f == p.risk && t == next.risk && (f, t) in LOWERED)
      && (ApprovalWeakened in flags <==> p.approval == Required && next.approval == Never)
      && (forall o, n :: ExecutionModeChanged(o, n) in flags <==>
            o == p.execution && n == next.execution && o != n)
      && (forall i, j :: 0 <= i < j < |flags| ==> !flags[j].RiskLowered? && !flags[i].ExecutionModeChanged?)
  {
    LowersRiskIff(prior.contract, next);
  }

  /** contractSecurityDelta. */
  method ContractSecurityDelta(prior: Option<Version>, next: Contract) returns (sensitive: bool, flags: seq<Flag>)
    ensures flags == Delta(prior, next) && (sensitive <==> flags != [])
    ensures prior.None? ==> !sensitive
    ensures prior.Some? ==>
      var p := prior.value.contract;
      && (forall f, t :: RiskLowered(f, t) in flags <==> f == p.risk && t == next.risk && (f, t) in LOWERED)
      && (ApprovalWeakened in flags <==> p.approval == Required && next.approval == Never)
      && (forall o, n :: ExecutionModeChanged(o, n) in flags <==>
            o == p.execution && n == next.execution && o != n)
  {
    if prior.Some? {
      DeltaMeans(prior.value, next);
    }
    flags := [];
    if prior.None? {
      return false, flags;
    }
    var p := prior.value.contract;
    if Rank(next.risk) < Rank(p.risk) {
      flags := flags + [RiskLowered(p.risk, next.risk)];
    }
    if p.approval.Required? && next.approval.Never? {
      flags := flags + [ApprovalWeakened];
    }
    if p.execution != next.execution {
      flags := flags + [ExecutionModeChanged(p.execution, next.execution)];
    }
    sensitive := |flags| > 0;
  }

  function Find(h: History, hash: string): (row: Option<nat>)
    ensures row.Some? ==> row.value < |h| && h[row.value].contract.hash == hash
    ensures row.None? ==> forall i :: 0 <= i < |h| ==> h[i].contract.hash != hash
  {
    if h == [] then None
    else if h[|h| - 1].contract.hash == hash then Some(|h| - 1)
    else Find(h[..|h| - 1], hash)
  }

  function Latest(h: History): Option<Version> { if h == [] then None else Some(h[|h| - 1]) }

  function Sync(h: History, c: Contract): History {
    if Find(h, c.hash).Some? then h else h + [Version(c, Delta(Latest(h), c))]
  }

  /** The version a sync reports. */
  function Reported(h: History, c: Contract): Version {
    var row := Find(h, c.hash);
    if row.Some? then h[row.value] else Version(c, Delta(Latest(h), c))
  }

  function SyncAll(contracts: seq<Contract>): History {
    if contracts == [] then []
    else Sync(SyncAll(contracts[..|contracts| - 1]), contracts[|contracts| - 1])
  }

  class VersionTable {
    var rows: History

    constructor ()
      ensures rows == []
    {
      rows := [];
    }

    /** performContractSyncInTx: resolve or append the version of this contract. */
    method SyncInTx(c: Contract) returns (version: Version, created: bool)
      modifies this
      ensures rows == Sync(old(rows), c) && version == Reported(old(rows), c)
      ensures created <==> forall i :: 0 <= i < |old(rows)| ==> old(rows)[i].contract.hash != c.hash
    {
      var i := |rows|;
      assert rows[..i] == rows;
      while i > 0
        invariant 0 <= i <= |rows| && rows == old(rows)
        invariant Find(rows, c.hash) == Find(rows[..i], c.hash)
        invariant forall j :: i <= j < |rows| ==> rows[j].contract.hash != c.hash
      {
        i := i - 1;
        assert rows[..i + 1][..i] == rows[..i];
        if rows[i].contract.hash == c.hash {
          return rows[i], false;
        }
      }
      var prior := if rows == [] then None else Some(rows[|rows| - 1]);
      var _, flags := ContractSecurityDelta(prior, c);
      version, created := Version(c, flags), true;
      rows := rows + [version];
    }
  }

  // ---- What the flags say about a history ----

  /** A version carries the delta against the version created just before it. */
  ghost predicate FlaggedAt(h: History, i: nat)
    requires i < |h|
  {
    h[i].flags == Delta(Latest(h[..i]), h[i].contract)
  }

  ghost predicate WellFlagged(h: History) {
    && (forall i :: 0 <= i < |h| ==> FlaggedAt(h, i))
    && (forall i, j :: 0 <= i < j < |h| ==> h[i].contract.hash != h[j].contract.hash)
  }

  lemma {:induction false} SyncAllIsWellFlagged(contracts: seq<Contract>)
    ensures WellFlagged(SyncAll(contracts))
    decreases |contracts|
  {
    if contracts != [] {
      var n := |contracts| - 1;
      SyncAllIsWellFlagged(contracts[..n]);
      var h, h' := SyncAll(contracts[..n]), SyncAll(contracts);
      if h' != h {
        forall i | 0 <= i < |h'| ensures FlaggedAt(h', i) {
          assert i < |h| ==> FlaggedAt(h, i);
          assert h'[..i] == h[..i];
          assert h[..|h|] == h;
        }
      }
    }
  }

  /** The k-th declaration is this contract, and the first with its hash. */
  predicate DeclaredFirstAt(contracts: seq<Contract>, c: Contract, k: nat) {
    && k < |contracts| && contracts[k] == c
    && forall j :: 0 <= j < k ==> contracts[j].hash != c.hash
  }

  predicate HashAt(h: History, hash: string, i: nat) { i < |h| && h[i].contract.hash == hash }

  /** Every declared hash has a version. */
  lemma {:induction false} DeclarationHasVersion(contracts: seq<Contract>, k: nat) returns (i: nat)
    requires k < |contracts|
    ensures HashAt(SyncAll(contracts), contracts[k].hash, i)
    decreases |contracts|
  {
    var n := |contracts| - 1;
    var h := SyncAll(contracts[..n]);
    if k < n {
      i := DeclarationHasVersion(contracts[..n], k);
    } else {
      var row := Find(h, contracts[n].hash);
      i := if row.Some? then row.value else |h|;
    }
  }

  /** Every version is the first declaration of its hash: later ones neither replace nor repeat it. */
  lemma {:induction false} VersionIsFirstDeclaration(contracts: seq<Contract>, i: nat) returns (k: nat)
    requires i < |SyncAll(contracts)|
    ensures DeclaredFirstAt(contracts, SyncAll(contracts)[i].contract, k)
    decreases |contracts|
  {
    var n := |contracts| - 1;
    var h := SyncAll(contracts[..n]);
    if i < |h| {
      k := VersionIsFirstDeclaration(contracts[..n], i);
    } else {
      k := n;
      forall j | 0 <= j < n ensures contracts[j].hash != contracts[n].hash {
        var row := DeclarationHasVersion(contracts[..n], j);
        assert h[row].contract.hash == contracts[j].hash;
      }
    }
  }

  /** A version is never replaced: a later declaration leaves every earlier version as it is. */
  lemma SyncOnlyAppends(h: History, c: Contract)
    ensures h <= Sync(h, c) && |Sync(h, c)| <= |h| + 1
    ensures |Sync(h, c)| == |h| + 1 <==> forall v <- h :: v.contract.hash != c.hash
    ensures |Sync(h, c)| == |h| + 1 ==> Sync(h, c)[|h|].contract == c
  {
    assert forall i :: 0 <= i < |h| ==> h[i] in h;
  }

  ghost predicate FlaggedBetween(h: History, i: nat, j: nat)
    requires i <= j < |h|
  {
    exists k :: i < k <= j && h[k].flags != []
  }

  lemma NextIsFlagged(h: History, j: nat)
    requires WellFlagged(h) && 0 < j < |h| && Weakens(h[j - 1].contract, h[j].contract)
    ensures h[j].flags != []
  {
    assert FlaggedAt(h, j) && h[..j][j - 1] == h[j - 1];
  }

  lemma {:induction false} WeakeningIsFlaggedFrom(h: History, i: nat, j: nat)
    requires WellFlagged(h) && i <= j < |h| && Weakens(h[i].contract, h[j].contract)
    ensures FlaggedBetween(h, i, j)
    decreases j
  {
    if i < j {
      if Weakens(h[i].contract, h[j - 1].contract) {
        WeakeningIsFlaggedFrom(h, i, j - 1);
      } else {
        NextIsFlagged(h, j);
      }
    }
  }

  /** A version that asks for less scrutiny than an earlier one is never reached silently: some version
      after the earlier one, up to and including it, is flagged. */
  lemma WeakeningIsNeverSilent(contracts: seq<Contract>, i: nat, j: nat)
    requires i < j < |SyncAll(contracts)|
    requires Weakens(SyncAll(contracts)[i].contract, SyncAll(contracts)[j].contract)
    ensures FlaggedBetween(SyncAll(contracts), i, j)
  {
    SyncAllIsWellFlagged(contracts);
    WeakeningIsFlaggedFrom(SyncAll(contracts), i, j);
  }

  /** What the delta reports: less scrutiny, or another execution mode. */
  predicate Departs(a: Contract, b: Contract) { Weakens(a, b) || a.execution != b.execution }

  lemma FlaggedIffDeparts(contracts: seq<Contract>, k: nat)
    requires k < |SyncAll(contracts)|
    ensures var h := SyncAll(contracts); h[k].flags != [] <==> k > 0 && Departs(h[k - 1].contract, h[k].contract)
  {
    SyncAllIsWellFlagged(contracts);
    var h := SyncAll(contracts);
    assert FlaggedAt(h, k) && (k > 0 ==> h[..k][k - 1] == h[k - 1]);
  }

  /** And a flag is never raised without cause: a stretch of the history carries a flag exactly when some
      version in it departs from the one before. */
  lemma FlaggedBetweenIff(contracts: seq<Contract>, i: nat, j: nat)
    requires i < j < |SyncAll(contracts)|
    ensures FlaggedBetween(SyncAll(contracts), i, j)
       <==> exists k :: i < k <= j && Departs(SyncAll(contracts)[k - 1].contract, SyncAll(contracts)[k].contract)
  {
    var h := SyncAll(contracts);
    forall k | i < k <= j ensures h[k].flags != [] <==> Departs(h[k - 1].contract, h[k].contract) {
      FlaggedIffDeparts(contracts, k);
    }
    if FlaggedBetween(h, i, j) {
      var k :| i < k <= j && h[k].flags != [];
      assert Departs(h[k - 1].contract, h[k].contract);
    }
  }

  // ---- Re-syncing a stored version ----

  const LOW := Contract("l", Low, Required, "embedded")
  const HIGH := Contract("h", High, Required, "embedded")

  /** Declaring an older, weaker contract again creates no version and reports no flag. */
  lemma ResyncCanWeakenSilently()
    ensures Weakens(HIGH, LOW)
    ensures SyncAll([LOW, HIGH, LOW]) == SyncAll([LOW, HIGH])
    ensures Reported(SyncAll([LOW, HIGH]), LOW).flags == []
  {
    assert [LOW, HIGH, LOW][..2] == [LOW, HIGH] && [LOW, HIGH][..1] == [LOW] && [LOW][..0] == [];
    var h1: History := [Version(LOW, [])];
    assert SyncAll([LOW]) == Sync([], LOW) == h1;
    assert Delta(Latest(h1), HIGH) == [];
    var h2 := h1 + [Version(HIGH, [])];
    assert SyncAll([LOW, HIGH]) == Sync(h1, HIGH) == h2;
    assert h2[..1] == h1;
    assert Find(h2, "l") == Find(h1, "l") == Some(0);
  }

  /** In any history, a sync that weakens the latest version is reported as sensitive exactly when its hash is
      new, or when the stored version with that hash departed from its own predecessor back then. */
  lemma WeakeningReportedIff(contracts: seq<Contract>, c: Contract)
    requires SyncAll(contracts) != [] && Weakens(Latest(SyncAll(contracts)).value.contract, c)
    ensures var h := SyncAll(contracts);
            var row := Find(h, c.hash);
            Reported(h, c).flags != [] <==>
              row.None? || (row.value > 0 && Departs(h[row.value - 1].contract, h[row.value].contract))
  {
    var row := Find(SyncAll(contracts), c.hash);
    if row.Some? {
      FlaggedIffDeparts(contracts, row.value);
    }
  }
}
