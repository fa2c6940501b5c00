/**
 Choosing the one error code stored on a rejected batch
 (igris-overture/api/evidence_verify.go, dominantIssueCode).
 */
module EvidenceIssues {
  import opened Options
  import opened EvidenceVerify

  /** Alphabetical position of a code's name, which is how Go compares the strings. */
  function Rank(c: Code): nat {
    match c
    case BadSignature => 0
    case ChainBreak => 1
    case HashMismatch => 2
    case InvalidField => 3
    case InvalidTimestamp => 4
    case InvalidTransition => 5
    case MissingFields => 6
    case UnknownDecisionReference => 7
    case UnknownEventType => 8
    case UnknownKey => 9
    case UnknownSchema => 10
  }

  /** The name a code is reported under. */
  function Name(c: Code): string {
    match c
    case BadSignature => "bad_signature"
    case ChainBreak => "chain_break"
    case HashMismatch => "hash_mismatch"
    case InvalidField => "invalid_field"
    case InvalidTimestamp => "invalid_timestamp"
    case InvalidTransition => "invalid_transition"
    case MissingFields => "missing_fields"
    case UnknownDecisionReference => "unknown_decision_reference"
    case UnknownEventType => "unknown_event_type"
    case UnknownKey => "unknown_key"
    case UnknownSchema => "unknown_schema"
  }

  /** Go's order of strings: the first difference decides. */
  predicate DiffersAt(s: string, t: string, i: nat) {
    i < |s| && i < |t| && s[..i] == t[..i] && s[i] < t[i]
  }

  /** No name is a proper prefix of another, so a difference is all there is to compare. */
  ghost predicate Before(s: string, t: string) { exists i :: DiffersAt(s, t, i) }

  lemma BeforeIsTransitive(s: string, t: string, u: string)
    requires Before(s, t) && Before(t, u)
    ensures Before(s, u)
  {
    var i: nat :| DiffersAt(s, t, i);
    var j: nat :| DiffersAt(t, u, j);
    var k := if i <= j then i else j;
    assert s[..k] == t[..k] == u[..k] by {
      assert s[..i][..k] == s[..k] && t[..i][..k] == t[..k] && t[..j][..k] == t[..k] && u[..j][..k] == u[..k];
    }
    assert i < j ==> t[..j][i] == u[..j][i];
    assert j < i ==> s[..i][j] == t[..i][j];
    assert DiffersAt(s, u, k);
  }

  lemma BeforeIsOneWay(s: string, t: string)
    requires Before(s, t)
    ensures !Before(t, s) && s != t
  {
    var i: nat :| DiffersAt(s, t, i);
    forall j: nat ensures !DiffersAt(t, s, j) {
      OneDifference(s, t, i, j);
    }
  }

  lemma OneDifference(s: string, t: string, i: nat, j: nat)
    requires DiffersAt(s, t, i)
    ensures !DiffersAt(t, s, j)
  {
    assert j < i ==> s[..i][j] == t[..i][j];
    assert i < j <= |s| && j <= |t| ==> s[..j][i] != t[..j][i];
  }

  const ALPHABETICAL: seq<Code> :=
    [BadSignature, ChainBreak, HashMismatch, InvalidField, InvalidTimestamp, InvalidTransition, MissingFields,
     UnknownDecisionReference, UnknownEventType, UnknownKey, UnknownSchema]

  lemma NextNameIsLater(r: nat)
    requires r < 10
    ensures Before(Name(ALPHABETICAL[r]), Name(ALPHABETICAL[r + 1]))
  {
    var at := if r == 4 then 9 else if r in {3, 7, 8, 9} then 8 else 0;
    assert DiffersAt(Name(ALPHABETICAL[r]), Name(ALPHABETICAL[r + 1]), at);
  }

  lemma {:induction false} LaterNameIsLater(r: nat, q: nat)
    requires r < q <= 10
    ensures Before(Name(ALPHABETICAL[r]), Name(ALPHABETICAL[q]))
    decreases q
  {
    NextNameIsLater(q - 1);
    if r < q - 1 {
      LaterNameIsLater(r, q - 1);
      BeforeIsTransitive(Name(ALPHABETICAL[r]), Name(ALPHABETICAL[q - 1]), Name(ALPHABETICAL[q]));
    }
  }

  lemma RankIsPosition(c: Code)
    ensures Rank(c) <= 10 && ALPHABETICAL[Rank(c)] == c
  {
  }

  /** Ranks compare as the names do. */
  lemma RankIsAlphabetical(c: Code, d: Code)
    ensures Rank(c) < Rank(d) <==> Before(Name(c), Name(d))
  {
    RankIsPosition(c);
    RankIsPosition(d);
    if Rank(c) < Rank(d) {
      LaterNameIsLater(Rank(c), Rank(d));
    } else if Rank(d) < Rank(c) {
      LaterNameIsLater(Rank(d), Rank(c));
      BeforeIsOneWay(Name(d), Name(c));
    }
  }

  function Count(issues: seq<Issue>, c: Code): nat {
    if issues == [] then 0
    else Count(issues[..|issues| - 1], c) + if issues[|issues| - 1].code == c then 1 else 0
  }

  /** `c` is reported most often, and first in the alphabet among those reported as often. */
  ghost predicate IsDominant(issues: seq<Issue>, c: Code) {
    && Count(issues, c) > 0
    && forall d :: Count(issues, d) < Count(issues, c) || (Count(issues, d) == Count(issues, c) && Rank(c) <= Rank(d))
  }

  lemma DominantIsUnique(issues: seq<Issue>, c: Code, d: Code)
    requires IsDominant(issues, c) && IsDominant(issues, d)
    ensures c == d
  {
    assert Rank(c) == Rank(d);
  }

  /** The tally loop. */
  method CountCodes(issues: seq<Issue>) returns (counts: map<Code, nat>)
    ensures forall c :: Count(issues, c) == if c in counts then counts[c] else 0
    ensures forall c :: c in counts ==> counts[c] > 0
  {
    counts := map[];
    for i := 0 to |issues|
      invariant forall c :: Count(issues[..i], c) == if c in counts then counts[c] else 0
      invariant forall c :: c in counts ==> counts[c] > 0
    {
      var code := issues[i].code;
      assert issues[..i + 1][..i] == issues[..i];
      counts := counts[code := (if code in counts then counts[code] else 0) + 1];
    }
    assert issues[..|issues|] == issues;
  }

  /** dominantIssueCode: whatever order the map is walked in, the answer is the dominant code. */
  method DominantIssueCode(issues: seq<Issue>) returns (code: Option<Code>)
    ensures code.None? <==> issues == []
    ensures code.Some? ==> IsDominant(issues, code.value)
    ensures code.Some? ==> forall d :: d != code.value ==>
      || Count(issues, d) < Count(issues, code.value)
      || (Count(issues, d) == Count(issues, code.value) && Before(Name(code.value), Name(d)))
  {
    if issues == [] {
      return None;
    }
    var counts := CountCodes(issues);
    var best, bestCount := issues[0].code, 0;
    var rest := counts.Keys;
    while rest != {}
      invariant rest <= counts.Keys && bestCount >= 0
      invariant bestCount == 0 ==> rest == counts.Keys
      invariant bestCount > 0 ==> best in counts && counts[best] == bestCount
      invariant bestCount > 0 ==> forall d :: d in counts && d !in rest ==>
        counts[d] < bestCount || (counts[d] == bestCount && Rank(best) <= Rank(d))
      decreases |rest|
    {
      var c :| c in rest;
      rest := rest - {c};
      if counts[c] > bestCount || (counts[c] == bestCount && Rank(c) < Rank(best)) {
        best, bestCount := c, counts[c];
      }
    }
    LastIsCounted(issues);
    assert issues[|issues| - 1].code in counts.Keys;
    assert bestCount == Count(issues, best);
    code := Some(best);
    forall d | d != best && Count(issues, d) >= bestCount ensures Before(Name(best), Name(d)) {
      RankIsPosition(best);
      RankIsPosition(d);
      RankIsAlphabetical(best, d);
    }
  }

  lemma LastIsCounted(issues: seq<Issue>)
    requires issues != []
    ensures Count(issues, issues[|issues| - 1].code) > 0
  {
  }
}

/** Bounding the nesting of a submitted event (igris-overture/api/routes_evidence.go, jsonDepth). */
module EvidenceDepth {
  import opened EvidenceEvents

  /** No path through the value goes through more than n containers. */
  ghost predicate NestsAtMost(v: Json, n: int) {
    match v
    case Array(elems) => n >= 1 && forall i :: 0 <= i < |elems| ==> NestsAtMost(elems[i], n - 1)
    case Object(fields) => n >= 1 && forall k :: k in fields ==> NestsAtMost(fields[k], n - 1)
    case _ => n >= 0
  }

  /** jsonDepth: with its early cutoff, comparing the result with 64 still rejects exactly the
      values nested deeper than that. */
  method JsonDepth(value: Json, depth: nat) returns (d: nat)
    requires depth <= 65
    ensures depth <= d
    ensures d <= 64 <==> NestsAtMost(value, 64 - depth)
    decreases value
  {
    if depth > MAX_DEPTH {
      return depth;
    }
    match value {
      case Object(fields) =>
        d := depth + 1;
        var rest := fields.Keys;
        while rest != {}
          invariant rest <= fields.Keys && depth < d
          invariant d <= MAX_DEPTH <==>
            depth < MAX_DEPTH && forall k :: k in fields && k !in rest ==> NestsAtMost(fields[k], MAX_DEPTH - depth - 1)
          decreases |rest|
        {
          var k :| k in rest;
          var child := JsonDepth(fields[k], depth + 1);
          rest := rest - {k};
          if child > d {
            d := child;
          }
        }
      case Array(elems) =>
        d := depth + 1;
        for i := 0 to |elems|
          invariant depth < d
          invariant d <= MAX_DEPTH <==>
            depth < MAX_DEPTH && forall j :: 0 <= j < i ==> NestsAtMost(elems[j], MAX_DEPTH - depth - 1)
        {
          var child := JsonDepth(elems[i], depth + 1);
          if child > d {
            d := child;
          }
        }
      case _ =>
        d := depth;
    }
  }
}
