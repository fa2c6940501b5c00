/**
 Go visits the keys of a map in no particular order, so sanitizing (igris-overture/agentregistry/metadata.go)
 may give several results when keys collide. Which results, and exactly when there is only one.
 */
module MetadataOrder {
  import opened Metadata
  import opened Strings

  // ---- Values that come out the same ----

  /**
   Whatever survives in `v` and whatever survives in `w`, they come out the same: equal up to key
   spelling, every field of one against every field of the other under the same normalised key.
   */
  predicate Agree(v: Value, w: Value)
    decreases v
  {
    match v
    case Obj(fields) =>
      && w.Obj?
      && NormalizedKeys(fields) == NormalizedKeys(w.fields)
      && forall k <- fields, l <- w.fields :: NormalizeKey(k) == NormalizeKey(l) ==> Agree(fields[k], w.fields[l])
    case Arr(items) => w.Arr? && |items| == |w.items| && forall i :: 0 <= i < |items| ==> Agree(items[i], w.items[i])
    case Str(_) => w == v
    case Scalar(_) => w == v
  }

  function NormalizedKeys(fields: map<string, Value>): set<string> {
    set k | k in fields :: NormalizeKey(k)
  }

  /** Keys of one object that normalise alike hold values that come out the same, at every depth. */
  predicate Determined(v: Value) { Agree(v, v) }

  lemma {:induction false} AgreeingComeOutEqual(v: Value, w: Value, a: Value, b: Value)
    requires Agree(v, w) && Sanitizes(v, a) && Sanitizes(w, b)
    ensures a == b
    decreases v, 1
  {
    match v
    case Obj(_) => AgreeingFields(v, w, a, b);
    case Arr(items) =>
      forall i | 0 <= i < |items| ensures a.items[i] == b.items[i] {
        AgreeingComeOutEqual(items[i], w.items[i], a.items[i], b.items[i]);
      }
    case Str(_) =>
    case Scalar(_) =>
  }

  lemma {:induction false} AgreeingFields(v: Value, w: Value, a: Value, b: Value)
    requires v.Obj? && Agree(v, w) && Sanitizes(v, a) && Sanitizes(w, b)
    ensures a == b
    decreases v, 0, 1
  {
    SanitizedKeys(v, a);
    SanitizedKeys(w, b);
    forall n | n in a.fields ensures a.fields[n] == b.fields[n] {
      AgreeingAt(v, w, a, b, n);
    }
  }

  lemma {:induction false} AgreeingAt(v: Value, w: Value, a: Value, b: Value, n: string)
    requires v.Obj? && w.Obj? && a.Obj? && b.Obj? && n in a.fields && n in b.fields
    requires Agree(v, w) && Sanitizes(v, a) && Sanitizes(w, b)
    ensures a.fields[n] == b.fields[n]
    decreases v, 0, 0
  {
    var k := FieldBehind(v, a, n);
    var l := FieldBehind(w, b, n);
    AgreeingComeOutEqual(v.fields[k], w.fields[l], a.fields[n], b.fields[n]);
  }

  /** The field that survived under a normalised key. */
  lemma FieldBehind(v: Value, out: Value, n: string) returns (k: string)
    requires v.Obj? && out.Obj? && Sanitizes(v, out) && n in out.fields
    ensures k in v.fields && NormalizeKey(k) == n && Sanitizes(v.fields[k], out.fields[n])
  {
    assert Collects(v, v.fields.Keys, out.fields);
    k :| k in v.fields && NormalizeKey(k) == n && Sanitizes(v.fields[k], out.fields[n]);
  }

  lemma SanitizedKeys(v: Value, out: Value)
    requires v.Obj? && Sanitizes(v, out)
    ensures out.Obj? && out.fields.Keys == NormalizedKeys(v.fields)
  {
    assert Collects(v, v.fields.Keys, out.fields);
  }

  /** Every value has a sanitizing. */
  lemma {:induction false} SomeSanitizing(v: Value) returns (out: Value)
    ensures Sanitizes(v, out)
    decreases v, 1
  {
    match v
    case Obj(_) =>
      var fields := SomeFields(v, v.fields.Keys);
      out := Obj(fields);
    case Arr(items) =>
      var outs := [];
      while |outs| < |items|
        invariant |outs| <= |items| && forall i :: 0 <= i < |outs| ==> Sanitizes(items[i], outs[i])
      {
        var next := SomeSanitizing(items[|outs|]);
        outs := outs + [next];
      }
      out := Arr(outs);
    case Str(_) => out := v;
    case Scalar(_) => out := v;
  }

  lemma {:induction false} SomeFields(v: Value, done: set<string>) returns (out: map<string, Value>)
    requires v.Obj? && done <= v.fields.Keys
    ensures Collects(v, done, out)
    decreases v, 0, done
  {
    if done == {} {
      out := map[];
    } else {
      var key :| key in done;
      var rest := SomeFields(v, done - {key});
      var clean := SomeSanitizing(v.fields[key]);
      CollectOne(v, done - {key}, rest, key, clean);
      out := rest[NormalizeKey(key) := clean];
      assert done - {key} + {key} == done;
    }
  }

  /** A sanitizing in which the field at `key` survives, as `clean`. */
  lemma SurvivorAt(v: Value, key: string, clean: Value) returns (out: Value)
    requires v.Obj? && key in v.fields && Sanitizes(v.fields[key], clean)
    ensures Sanitizes(v, out) && out.Obj? && NormalizeKey(key) in out.fields && out.fields[NormalizeKey(key)] == clean
  {
    var fields := SomeFields(v, v.fields.Keys);
    CollectAgain(v, fields, key, clean);
    out := Obj(fields[NormalizeKey(key) := clean]);
  }

  lemma CollectAgain(v: Value, fields: map<string, Value>, key: string, clean: Value)
    requires v.Obj? && key in v.fields && Sanitizes(v.fields[key], clean) && Collects(v, v.fields.Keys, fields)
    ensures Collects(v, v.fields.Keys, fields[NormalizeKey(key) := clean])
  {
    var keys := v.fields.Keys;
    assert keys + {key} == keys;
    CollectOne(v, keys, fields, key, clean);
  }

  /** Values that do not agree have sanitizings that differ. */
  lemma {:induction false} DisagreeingCanDiffer(v: Value, w: Value) returns (a: Value, b: Value)
    requires !Agree(v, w)
    ensures Sanitizes(v, a) && Sanitizes(w, b) && a != b
    decreases v
  {
    a := SomeSanitizing(v);
    b := SomeSanitizing(w);
    if v.Obj? && w.Obj? {
      SanitizedKeys(v, a);
      SanitizedKeys(w, b);
      if NormalizedKeys(v.fields) == NormalizedKeys(w.fields) {
        var k, l :| k in v.fields && l in w.fields && NormalizeKey(k) == NormalizeKey(l)
                 && !Agree(v.fields[k], w.fields[l]);
        var x, y := DisagreeingCanDiffer(v.fields[k], w.fields[l]);
        a := SurvivorAt(v, k, x);
        b := SurvivorAt(w, l, y);
      }
    } else if v.Arr? && w.Arr? && |v.items| == |w.items| {
      var i :| 0 <= i < |v.items| && !Agree(v.items[i], w.items[i]);
      var x, y := DisagreeingCanDiffer(v.items[i], w.items[i]);
      a := Arr(a.items[i := x]);
      b := Arr(b.items[i := y]);
    }
  }

  // ---- Sanitizings are what the visiting orders give ----

  /** The object built by visiting keys in this order, each field coming out as `clean` says. */
  function Overwrite(order: seq<string>, clean: map<string, Value>): map<string, Value>
    requires forall k <- order :: k in clean
  {
    if order == [] then map[]
    else
      var n := |order| - 1;
      Overwrite(order[..n], clean)[NormalizeKey(order[n]) := clean[order[n]]]
  }

  predicate Lists(order: seq<string>, keys: set<string>) {
    && (forall k <- order :: k in keys) && (forall k <- keys :: k in order)
    && (forall i, j :: 0 <= i < j < |order| ==> order[i] != order[j])
  }

  /** `out` is what some order of visiting the keys of every object in `v` gives. */
  ghost predicate Visited(v: Value, out: Value)
    decreases v, 1
  {
    match v
    case Obj(fields) => out.Obj? && exists order, clean :: VisitGives(v, order, clean, out.fields)
    case Arr(items) =>
      out.Arr? && |out.items| == |items| && forall i :: 0 <= i < |items| ==> Visited(items[i], out.items[i])
    case Str(_) => out == v
    case Scalar(_) => out == v
  }

  ghost predicate VisitGives(v: Value, order: seq<string>, clean: map<string, Value>, out: map<string, Value>)
    requires v.Obj?
    decreases v, 0
  {
    && Lists(order, v.fields.Keys) && clean.Keys == v.fields.Keys
    && (forall k <- v.fields :: Visited(v.fields[k], clean[k]))
    && out == Overwrite(order, clean)
  }

  /** The last visited key of a spelling class decides. */
  lemma {:induction false} LastVisitDecides(order: seq<string>, clean: map<string, Value>, i: nat)
    requires (forall k <- order :: k in clean) && i < |order|
    requires forall j :: i < j < |order| ==> NormalizeKey(order[j]) != NormalizeKey(order[i])
    ensures NormalizeKey(order[i]) in Overwrite(order, clean)
    ensures Overwrite(order, clean)[NormalizeKey(order[i])] == clean[order[i]]
    decreases |order|
  {
    if i < |order| - 1 {
      LastVisitDecides(order[..|order| - 1], clean, i);
    }
  }

  lemma {:induction false} VisitedKeys(order: seq<string>, clean: map<string, Value>)
    requires forall k <- order :: k in clean
    ensures Overwrite(order, clean).Keys == set k | k in order :: NormalizeKey(k)
    decreases |order|
  {
    if order != [] {
      var n := |order| - 1;
      VisitedKeys(order[..n], clean);
      assert order == order[..n] + [order[n]];
    }
  }

  function Elements(order: seq<string>): set<string> { set k | k in order }

  lemma ElementsSnoc(order: seq<string>)
    requires order != []
    ensures Elements(order) == Elements(order[..|order| - 1]) + {order[|order| - 1]}
  {
    assert order == order[..|order| - 1] + [order[|order| - 1]];
  }

  lemma {:induction false} VisitCollects(v: Value, order: seq<string>, clean: map<string, Value>)
    requires v.Obj? && clean.Keys == v.fields.Keys && forall k <- order :: k in v.fields
    requires forall k <- v.fields :: Sanitizes(v.fields[k], clean[k])
    ensures Collects(v, Elements(order), Overwrite(order, clean))
    decreases |order|
  {
    if order != [] {
      var n := |order| - 1;
      VisitCollects(v, order[..n], clean);
      CollectOne(v, Elements(order[..n]), Overwrite(order[..n], clean), order[n], clean[order[n]]);
      ElementsSnoc(order);
    }
  }

  /** Some order of listing a set of keys. */
  lemma {:induction false} SomeOrder(keys: set<string>) returns (order: seq<string>)
    ensures Lists(order, keys)
    decreases keys
  {
    order := [];
    if keys != {} {
      var k :| k in keys;
      var rest := SomeOrder(keys - {k});
      order := rest + [k];
    }
  }

  /** The survivor under every normalised key. */
  lemma Survivors(v: Value, out: Value) returns (pick: map<string, string>)
    requires v.Obj? && out.Obj? && Sanitizes(v, out)
    ensures pick.Keys == out.fields.Keys
    ensures forall n <- pick :: pick[n] in v.fields && NormalizeKey(pick[n]) == n
                             && Sanitizes(v.fields[pick[n]], out.fields[n])
  {
    pick := map[];
    var todo := out.fields.Keys;
    while todo != {}
      invariant todo <= out.fields.Keys && pick.Keys == out.fields.Keys - todo
      invariant forall n <- pick :: pick[n] in v.fields && NormalizeKey(pick[n]) == n
                                 && Sanitizes(v.fields[pick[n]], out.fields[n])
      decreases todo
    {
      var n :| n in todo;
      var k := FieldBehind(v, out, n);
      pick := pick[n := k];
      todo := todo - {n};
    }
  }

  /** How each field comes out: the survivors as `out` shows, the others anyhow. */
  lemma FieldsComeOut(v: Value, out: Value, pick: map<string, string>) returns (clean: map<string, Value>)
    requires v.Obj? && out.Obj? && Sanitizes(v, out) && pick.Keys == out.fields.Keys
    requires forall n <- pick :: pick[n] in v.fields && NormalizeKey(pick[n]) == n
                              && Sanitizes(v.fields[pick[n]], out.fields[n])
    ensures clean.Keys == v.fields.Keys && forall k <- v.fields :: Sanitizes(v.fields[k], clean[k])
    ensures forall n <- pick :: clean[pick[n]] == out.fields[n]
  {
    clean := map[];
    var todo := v.fields.Keys;
    while todo != {}
      invariant todo <= v.fields.Keys && clean.Keys == v.fields.Keys - todo
      invariant forall k <- clean :: Sanitizes(v.fields[k], clean[k])
      invariant forall n <- pick :: pick[n] in clean ==> clean[pick[n]] == out.fields[n]
      decreases todo
    {
      var k :| k in todo;
      var n := NormalizeKey(k);
      if n in pick && pick[n] == k {
        clean := clean[k := out.fields[n]];
      } else {
        var any := SomeSanitizing(v.fields[k]);
        clean := clean[k := any];
      }
      todo := todo - {k};
    }
  }

  lemma ListsConcat(a: seq<string>, b: seq<string>, keys: set<string>, more: set<string>)
    requires Lists(a, keys) && Lists(b, more) && keys !! more
    ensures Lists(a + b, keys + more)
  {
    var all := a + b;
    forall i, j | 0 <= i < j < |all| ensures all[i] != all[j] {
      if i < |a| <= j {
        assert all[i] in keys && all[j] in more;
      }
    }
  }

  lemma OrderKeys(keys: set<string>, order: seq<string>, clean: map<string, Value>)
    requires Lists(order, keys) && clean.Keys == keys
    ensures Overwrite(order, clean).Keys == set k | k in keys :: NormalizeKey(k)
  {
    VisitedKeys(order, clean);
    assert forall k :: k in order <==> k in keys;
  }

  /** Visiting the survivors last gives `out`. */
  lemma SurvivorsLast(keys: set<string>, out: map<string, Value>, pick: map<string, string>, clean: map<string, Value>)
    returns (order: seq<string>)
    requires clean.Keys == keys && pick.Keys == out.Keys && out.Keys == set k | k in keys :: NormalizeKey(k)
    requires forall n <- pick :: pick[n] in keys && NormalizeKey(pick[n]) == n && clean[pick[n]] == out[n]
    ensures Lists(order, keys) && Overwrite(order, clean) == out
  {
    var survivors := pick.Values;
    assert survivors <= keys;
    var rest := SomeOrder(keys - survivors);
    var last := SomeOrder(survivors);
    order := rest + last;
    ListsConcat(rest, last, keys - survivors, survivors);
    assert keys - survivors + survivors == keys;
    OrderKeys(keys, order, clean);
    SurvivorValues(rest, last, out, pick, clean);
  }

  lemma SurvivorValues(
    rest: seq<string>, last: seq<string>, out: map<string, Value>, pick: map<string, string>, clean: map<string, Value>)
    requires (forall k <- rest + last :: k in clean) && pick.Keys == out.Keys && Lists(last, pick.Values)
    requires forall n <- pick :: NormalizeKey(pick[n]) == n && pick[n] in clean && clean[pick[n]] == out[n]
    requires Overwrite(rest + last, clean).Keys == out.Keys
    ensures Overwrite(rest + last, clean) == out
  {
    forall n | n in out ensures Overwrite(rest + last, clean)[n] == out[n] {
      SurvivorValue(rest, last, pick, clean, n);
    }
  }

  lemma SurvivorValue(
    rest: seq<string>, last: seq<string>, pick: map<string, string>, clean: map<string, Value>, n: string)
    requires (forall k <- rest + last :: k in clean) && n in pick && Lists(last, pick.Values)
    requires forall m <- pick :: NormalizeKey(pick[m]) == m && pick[m] in clean
    ensures n in Overwrite(rest + last, clean) && Overwrite(rest + last, clean)[n] == clean[pick[n]]
  {
    var i := SurvivorIndex(rest, last, pick, n);
    LastVisitDecides(rest + last, clean, i);
  }

  lemma SurvivorIndex(rest: seq<string>, last: seq<string>, pick: map<string, string>, n: string) returns (i: nat)
    requires n in pick && Lists(last, pick.Values) && forall m <- pick :: NormalizeKey(pick[m]) == m
    ensures i < |rest + last| && (rest + last)[i] == pick[n]
    ensures forall j :: i < j < |rest + last| ==> NormalizeKey((rest + last)[j]) != n
  {
    assert pick[n] in last;
    var l :| 0 <= l < |last| && last[l] == pick[n];
    i := |rest| + l;
    forall j | i < j < |rest + last|
      ensures NormalizeKey((rest + last)[j]) != n
    {
      assert (rest + last)[j] == last[j - |rest|] && last[j - |rest|] in pick.Values;
    }
  }

  lemma {:induction false} VisitedIsSanitized(v: Value, out: Value)
    requires Visited(v, out)
    ensures Sanitizes(v, out)
    decreases v
  {
    match v
    case Obj(fields) =>
      var order, clean :| VisitGives(v, order, clean, out.fields);
      forall k <- fields ensures Sanitizes(fields[k], clean[k]) {
        VisitedIsSanitized(fields[k], clean[k]);
      }
      VisitCollects(v, order, clean);
      assert Elements(order) == fields.Keys;
    case Arr(items) =>
      forall i | 0 <= i < |items| ensures Sanitizes(items[i], out.items[i]) {
        VisitedIsSanitized(items[i], out.items[i]);
      }
    case Str(_) =>
    case Scalar(_) =>
  }

  lemma {:induction false} SanitizedIsVisited(v: Value, out: Value)
    requires Sanitizes(v, out)
    ensures Visited(v, out)
    decreases v
  {
    match v
    case Obj(fields) =>
      var pick := Survivors(v, out);
      var clean := FieldsComeOut(v, out, pick);
      SanitizedKeys(v, out);
      var order := SurvivorsLast(fields.Keys, out.fields, pick, clean);
      forall k <- fields ensures Visited(fields[k], clean[k]) {
        SanitizedIsVisited(fields[k], clean[k]);
      }
      assert VisitGives(v, order, clean, out.fields);
    case Arr(items) =>
      forall i | 0 <= i < |items| ensures Visited(items[i], out.items[i]) {
        SanitizedIsVisited(items[i], out.items[i]);
      }
    case Str(_) =>
    case Scalar(_) =>
  }

  /** The sanitizings of a value are exactly what the orders of visiting its keys can give. */
  lemma SanitizesIffVisited(v: Value, out: Value)
    ensures Sanitizes(v, out) <==> Visited(v, out)
  {
    if Sanitizes(v, out) {
      SanitizedIsVisited(v, out);
    }
    if Visited(v, out) {
      VisitedIsSanitized(v, out);
    }
  }

  // ---- Exactly when the order does not matter ----

  /** Every order of visiting keys gives one and the same result. */
  ghost predicate OrderDoesNotMatter(v: Value) {
    forall a, b :: Visited(v, a) && Visited(v, b) ==> a == b
  }

  /** The result does not depend on the order of visiting keys exactly when the value is determined. */
  lemma DeterminedIff(v: Value)
    ensures OrderDoesNotMatter(v) <==> Determined(v)
  {
    if Determined(v) {
      forall a, b | Visited(v, a) && Visited(v, b)
        ensures a == b
      {
        VisitedIsSanitized(v, a);
        VisitedIsSanitized(v, b);
        AgreeingComeOutEqual(v, v, a, b);
      }
    } else {
      var a, b := DisagreeingCanDiffer(v, v);
      SanitizedIsVisited(v, a);
      SanitizedIsVisited(v, b);
      assert !OrderDoesNotMatter(v);
    }
  }

  /** A collision at the top: two spellings of one key are harmless exactly when they hold the same number. */
  lemma CollidingScalarsIff(k: string, l: string, x: int, y: int)
    requires k != l && NormalizeKey(k) == NormalizeKey(l)
    ensures Determined(Obj(map[k := Scalar(x), l := Scalar(y)])) <==> x == y
  {
    var v := Obj(map[k := Scalar(x), l := Scalar(y)]);
    assert k in v.fields && l in v.fields;
    assert Agree(v.fields[k], v.fields[l]) <==> x == y;
  }

  /** Two spellings of an allowed key with different numbers: acceptable, and the result depends on the order. */
  lemma CollidingScalarsDepend(k: string, l: string, x: int, y: int)
    requires k != l && NormalizeKey(k) == NormalizeKey(l) && AllowedKey(NormalizeKey(k)) && x != y
    ensures var v := Obj(map[k := Scalar(x), l := Scalar(y)]); Acceptable(v) && !OrderDoesNotMatter(v)
  {
    CollidingScalarsIff(k, l, x, y);
    DeterminedIff(Obj(map[k := Scalar(x), l := Scalar(y)]));
  }

  lemma SpellingsOfA()
    ensures NormalizeKey("a") == "a" && NormalizeKey("A") == "a" && AllowedKey("a")
  {
    TrimSpaceIsTrimmed("a");
    TrimSpaceIsTrimmed("A");
    OneLetterIsAllowed("a");
  }

  /** The object {"a": 1, "A": 2}. */
  lemma TwoSpellingsDependOnOrder()
    ensures var v := Obj(map["a" := Scalar(1), "A" := Scalar(2)]); Acceptable(v) && !OrderDoesNotMatter(v)
  {
    SpellingsOfA();
    CollidingScalarsDepend("a", "A", 1, 2);
  }

  lemma {:induction false} ContainsIsShorter(s: string, t: string)
    requires Contains(s, t)
    ensures |t| <= |s|
    decreases |s|
  {
    if !(t <= s) {
      ContainsIsShorter(s[1..], t);
    }
  }

  lemma LongerIsNotContained(s: string, markers: seq<string>)
    requires forall i :: 0 <= i < |markers| ==> |markers[i]| > |s|
    ensures !ContainsAny(s, markers)
  {
    forall m <- markers ensures !Contains(s, m) {
      if Contains(s, m) {
        ContainsIsShorter(s, m);
      }
    }
  }

  /** Every forbidden key and marker is longer than one letter. */
  lemma OneLetterIsAllowed(key: string)
    requires |key| == 1
    ensures AllowedKey(key)
  {
    ForbiddenAreLonger();
    LongerIsNotContained(ToLower(key), FORBIDDEN_SUBSTRINGS);
  }

  lemma ForbiddenAreLonger()
    ensures forall i :: 0 <= i < |FORBIDDEN_KEYS| ==> |FORBIDDEN_KEYS[i]| > 1
    ensures forall i :: 0 <= i < |FORBIDDEN_SUBSTRINGS| ==> |FORBIDDEN_SUBSTRINGS[i]| > 1
  {
  }
}
