/**
 Binding a contract's parameters to target fields: validated when the binding is created, applied when
 an action runs (igris-overture/api/routes_contracts.go validateContractInputMapping,
 igris-overture/api/routes_actions.go mapBoundActionInput).
 */
module InputMapping {
  import opened Options
  import opened Strings

  datatype Descriptor = Descriptor(name: string, hasDefault: bool, annotation: Option<string>)

  type Mapping = map<string, string>

  predicate NameChar(c: char) {
    'a' <= c <= 'z' || 'A' <= c <= 'Z' || '0' <= c <= '9' || c == '_' || c == '.' || c == ':' || c == '-'
  }

  /** `^[a-zA-Z][a-zA-Z0-9_.:-]{0,127}$` */
  predicate FieldName(s: string) {
    && 1 <= |s| <= 128 && ('a' <= s[0] <= 'z' || 'A' <= s[0] <= 'Z')
    && forall i :: 0 <= i < |s| ==> NameChar(s[i])
  }

  const OTHERS := "0123456789_.:-"

  lemma OtherIff(c: char)
    ensures c in OTHERS <==> '0' <= c <= '9' || c in ['_', '.', ':', '-']
  {
    if '0' <= c <= '9' {
      assert OTHERS[c as int - '0' as int] == c;
    } else {
      assert OTHERS[10] == '_' && OTHERS[11] == '.' && OTHERS[12] == ':' && OTHERS[13] == '-';
    }
  }

  /** A field name is one to 128 characters, a letter first, and only letters, digits and four marks. */
  lemma FieldNameIff(s: string)
    ensures FieldName(s) <==>
      && 1 <= |s| <= 128 && (s[0] in LOWER || s[0] in UPPER)
      && forall i :: 0 <= i < |s| ==> s[i] in LOWER || s[i] in UPPER || s[i] in OTHERS
  {
    forall i | 0 <= i < |s| ensures NameChar(s[i]) <==> s[i] in LOWER || s[i] in UPPER || s[i] in OTHERS {
      LowerIff(s[i]);
      UpperIff(s[i]);
      OtherIff(s[i]);
    }
    if s != "" {
      LowerIff(s[0]);
      UpperIff(s[0]);
    }
  }

  // ---- Validation ----

  datatype MappingError = WrongSize | MissingMapping | InvalidField | FieldReused | UnknownParameter

  /** Every parameter has its own valid target field, and there are as many entries as parameters. */
  ghost predicate Binds(ds: seq<Descriptor>, m: Mapping) {
    && |m| == |ds|
    && (forall i :: 0 <= i < |ds| ==> ds[i].name in m && FieldName(TrimSpace(m[ds[i].name])))
    && (forall i, j :: 0 <= i < j < |ds| && ds[i].name in m && ds[j].name in m ==>
         TrimSpace(m[ds[i].name]) != TrimSpace(m[ds[j].name]))
  }

  ghost function Names(ds: seq<Descriptor>): set<string> { set i | 0 <= i < |ds| :: ds[i].name }

  lemma {:induction false} DistinctNamesCard(ds: seq<Descriptor>)
    requires DistinctNames(ds)
    ensures |Names(ds)| == |ds|
    decreases |ds|
  {
    if ds != [] {
      var n := |ds| - 1;
      DistinctNamesCard(ds[..n]);
      assert Names(ds) == Names(ds[..n]) + {ds[n].name};
      assert ds[n].name !in Names(ds[..n]);
    }
  }

  lemma SubsetOfSameSize(a: set<string>, b: set<string>)
    requires a <= b && |a| == |b|
    ensures a == b
  {
    assert b == a + (b - a);
  }

  ghost predicate Injective(m: Mapping) {
    forall p, q :: p in m && q in m && p != q ==> m[p] != m[q]
  }

  ghost predicate DistinctNames(ds: seq<Descriptor>) {
    forall i, j :: 0 <= i < j < |ds| ==> ds[i].name != ds[j].name
  }

  /** An accepted mapping names each parameter once, has no other key, and is injective (pigeonhole). */
  lemma BindsIsABijection(ds: seq<Descriptor>, m: Mapping)
    requires Binds(ds, m)
    ensures DistinctNames(ds) && m.Keys == Names(ds) && Injective(m)
  {
    forall i, j | 0 <= i < j < |ds| ensures ds[i].name != ds[j].name {
      assert ds[i].name in m && ds[j].name in m;
    }
    DistinctNamesCard(ds);
    assert Names(ds) <= m.Keys;
    SubsetOfSameSize(Names(ds), m.Keys);
    forall p, q | p in m && q in m && p != q ensures m[p] != m[q] {
      FieldsDiffer(ds, m, p, q);
    }
  }

  lemma FieldsDiffer(ds: seq<Descriptor>, m: Mapping, p: string, q: string)
    requires Binds(ds, m) && p in m && q in m && p in Names(ds) && q in Names(ds) && p != q
    ensures m[p] != m[q]
  {
    var i :| 0 <= i < |ds| && ds[i].name == p;
    var j :| 0 <= j < |ds| && ds[j].name == q;
    assert i < j || j < i;
  }

  /** The target field the i-th parameter would get, trimmed; empty when it has none. */
  function FieldOf(ds: seq<Descriptor>, m: Mapping, i: nat): string
    requires i < |ds|
  {
    if ds[i].name in m then TrimSpace(m[ds[i].name]) else ""
  }

  /** The first i parameters have valid fields of their own. */
  ghost predicate FieldsOwned(ds: seq<Descriptor>, m: Mapping, i: nat)
    requires i <= |ds|
  {
    && (forall k :: 0 <= k < i ==> FieldName(FieldOf(ds, m, k)))
    && (forall k, l :: 0 <= k < l < i ==> FieldOf(ds, m, k) != FieldOf(ds, m, l))
  }

  /** The error that the i-th parameter is refused with, the ones before it being in order. */
  ghost predicate RefusedAt(ds: seq<Descriptor>, m: Mapping, i: nat, error: MappingError) {
    && i < |ds| && FieldsOwned(ds, m, i)
    && var field := FieldOf(ds, m, i);
      || (error == MissingMapping && field == "")
      || (error == InvalidField && field != "" && !FieldName(field))
      || (error == FieldReused && FieldName(field) && exists k :: 0 <= k < i && FieldOf(ds, m, k) == field)
  }

  /** The fields of the first i parameters. */
  ghost function FieldsUpTo(ds: seq<Descriptor>, m: Mapping, i: nat): set<string>
    requires i <= |ds|
  {
    set k | 0 <= k < i :: FieldOf(ds, m, k)
  }

  lemma FieldsUpToNext(ds: seq<Descriptor>, m: Mapping, i: nat)
    requires i < |ds|
    ensures FieldsUpTo(ds, m, i + 1) == FieldsUpTo(ds, m, i) + {FieldOf(ds, m, i)}
    ensures FieldsOwned(ds, m, i + 1) <==>
      FieldsOwned(ds, m, i) && FieldName(FieldOf(ds, m, i)) && FieldOf(ds, m, i) !in FieldsUpTo(ds, m, i)
    ensures FieldOf(ds, m, i) in FieldsUpTo(ds, m, i) <==>
      exists k :: 0 <= k < i && FieldOf(ds, m, k) == FieldOf(ds, m, i)
  {
  }

  lemma OwnedIsBinds(ds: seq<Descriptor>, m: Mapping)
    requires |m| == |ds|
    ensures FieldsOwned(ds, m, |ds|) <==> Binds(ds, m)
  {
    if FieldsOwned(ds, m, |ds|) {
      forall k | 0 <= k < |ds| ensures ds[k].name in m {
        assert FieldName(FieldOf(ds, m, k));
      }
      assert forall k :: 0 <= k < |ds| ==> FieldOf(ds, m, k) == TrimSpace(m[ds[k].name]);
    }
  }

  /** A refused parameter leaves the mapping unbound. */
  lemma RefusedIsUnbound(ds: seq<Descriptor>, m: Mapping, i: nat, error: MappingError)
    requires |m| == |ds| && RefusedAt(ds, m, i, error)
    ensures !Binds(ds, m) && exists k :: RefusedAt(ds, m, k, error)
  {
    OwnedIsBinds(ds, m);
    assert FieldsOwned(ds, m, |ds|) ==> FieldName(FieldOf(ds, m, i));
  }

  /** The first loop: one valid, unused target field per descriptor. */
  method CheckTargetFields(ds: seq<Descriptor>, m: Mapping) returns (error: Option<MappingError>)
    requires |m| == |ds|
    ensures error.None? <==> Binds(ds, m)
    ensures error.Some? ==> exists i :: RefusedAt(ds, m, i, error.value)
  {
    var fields: set<string> := {};
    for i := 0 to |ds|
      invariant FieldsOwned(ds, m, i)
      invariant fields == FieldsUpTo(ds, m, i)
    {
      FieldsUpToNext(ds, m, i);
      if ds[i].name !in m {
        RefusedIsUnbound(ds, m, i, MissingMapping);
        return Some(MissingMapping);
      }
      var field := TrimSpace(m[ds[i].name]);
      if field == "" {
        RefusedIsUnbound(ds, m, i, MissingMapping);
        return Some(MissingMapping);
      }
      if !FieldName(field) {
        RefusedIsUnbound(ds, m, i, InvalidField);
        return Some(InvalidField);
      }
      if field in fields {
        RefusedIsUnbound(ds, m, i, FieldReused);
        return Some(FieldReused);
      }
      fields := fields + {field};
    }
    OwnedIsBinds(ds, m);
    error := None;
  }

  /** The last loop: is every mapped parameter some descriptor's? */
  method AllParametersKnown(ds: seq<Descriptor>, m: Mapping) returns (known: bool)
    ensures known <==> m.Keys <= Names(ds)
  {
    var rest := m.Keys;
    while rest != {}
      invariant rest <= m.Keys && m.Keys - rest <= Names(ds)
      decreases |rest|
    {
      var parameter :| parameter in rest;
      rest := rest - {parameter};
      var found := false;
      for k := 0 to |ds|
        invariant found <==> exists l :: 0 <= l < k && ds[l].name == parameter
      {
        if ds[k].name == parameter {
          found := true;
        }
      }
      if !found {
        assert parameter !in Names(ds);
        return false;
      }
    }
    known := true;
  }

  /** validateContractInputMapping accepts exactly the binding mappings, and its last loop never finds a
      parameter that no descriptor has. */
  method ValidateContractInputMapping(ds: seq<Descriptor>, m: Mapping) returns (error: Option<MappingError>)
    ensures error.None? <==> Binds(ds, m)
    ensures error == Some(WrongSize) <==> |m| != |ds|
    ensures error.Some? && |m| == |ds| ==> exists i :: RefusedAt(ds, m, i, error.value)
  {
    if |m| != |ds| {
      return Some(WrongSize);
    }
    error := CheckTargetFields(ds, m);
    if error.Some? {
      return;
    }
    BindsIsABijection(ds, m);
    var known := AllParametersKnown(ds, m);
    error := if known then None else Some(UnknownParameter);
  }

  // ---- Application ----

  datatype InputError = UnexpectedField | MissingField | WrongType

  datatype Mapped<V> = Ok(fields: map<string, V>) | Rejected(error: InputError)

  /** Every input is a known parameter, every parameter without a default is given, and given values have
      the annotated type. */
  ghost predicate InputFits<V(!new)>(ds: seq<Descriptor>, input: map<string, V>, typed: (Descriptor, V) -> bool) {
    && input.Keys <= Names(ds)
    && forall i :: 0 <= i < |ds| ==>
         (if ds[i].name in input then typed(ds[i], input[ds[i].name]) else ds[i].hasDefault)
  }

  /** The first n parameters are in order. */
  ghost predicate FitsBefore<V(!new)>(
    ds: seq<Descriptor>, input: map<string, V>, typed: (Descriptor, V) -> bool, n: nat)
  {
    forall k :: 0 <= k < n && k < |ds| ==>
      (if ds[k].name in input then typed(ds[k], input[ds[k].name]) else ds[k].hasDefault)
  }

  /** Go's `mapping[name]`: the empty string when absent. */
  function TargetField(m: Mapping, name: string): string { if name in m then m[name] else "" }

  ghost function Rename<V>(ds: seq<Descriptor>, m: Mapping, input: map<string, V>, n: nat): map<string, V>
    requires n <= |ds|
  {
    if n == 0 then map[]
    else
      var before := Rename(ds, m, input, n - 1);
      var name := ds[n - 1].name;
      if name in input then before[TargetField(m, name) := input[name]] else before
  }

  /** The i-th parameter is the first not in order, and this is what is wrong with it. */
  ghost predicate InputRefusedAt<V(!new)>(
    ds: seq<Descriptor>, input: map<string, V>, typed: (Descriptor, V) -> bool, i: nat, error: InputError)
  {
    && i < |ds| && FitsBefore(ds, input, typed, i)
    && (error == MissingField ==> ds[i].name !in input && !ds[i].hasDefault)
    && (error == WrongType ==> ds[i].name in input && !typed(ds[i], input[ds[i].name]))
    && error != UnexpectedField
  }

  /** The first two loops of mapBoundActionInput: is some input no parameter's? */
  method HasUnexpected<V>(ds: seq<Descriptor>, input: map<string, V>) returns (unexpected: bool)
    ensures unexpected <==> exists p <- input :: p !in Names(ds)
  {
    var known: set<string> := {};
    for i := 0 to |ds|
      invariant known == set k | 0 <= k < i :: ds[k].name
    {
      known := known + {ds[i].name};
    }
    assert known == Names(ds);
    var rest := input.Keys;
    while rest != {}
      invariant rest <= input.Keys && input.Keys - rest <= known
      decreases rest
    {
      var key :| key in rest;
      if key !in known {
        return true;
      }
      rest := rest - {key};
    }
    unexpected := false;
  }

  /** mapBoundActionInput. */
  method MapBoundActionInput<V(!new)>(
    ds: seq<Descriptor>, m: Mapping, input: map<string, V>, typed: (Descriptor, V) -> bool)
    returns (r: Mapped<V>)
    ensures r.Ok? <==> InputFits(ds, input, typed)
    ensures r.Ok? ==> r.fields == Rename(ds, m, input, |ds|)
    ensures r == Rejected(UnexpectedField) <==> exists p <- input :: p !in Names(ds)
    ensures r.Rejected? && r.error != UnexpectedField ==> exists i :: InputRefusedAt(ds, input, typed, i, r.error)
  {
    var unexpected := HasUnexpected(ds, input);
    if unexpected {
      return Rejected(UnexpectedField);
    }
    var mapped: map<string, V> := map[];
    for i := 0 to |ds|
      invariant mapped == Rename(ds, m, input, i)
      invariant FitsBefore(ds, input, typed, i)
    {
      if ds[i].name !in input {
        if !ds[i].hasDefault {
          assert InputRefusedAt(ds, input, typed, i, MissingField);
          return Rejected(MissingField);
        }
      } else {
        var value := input[ds[i].name];
        if !typed(ds[i], value) {
          assert InputRefusedAt(ds, input, typed, i, WrongType);
          return Rejected(WrongType);
        }
        mapped := mapped[TargetField(m, ds[i].name) := value];
      }
    }
    r := Ok(mapped);
  }

  /** Reading the target fields back under the parameters' names. */
  function Unmap<V>(m: Mapping, fields: map<string, V>): map<string, V> {
    map p | p in m && m[p] in fields :: fields[m[p]]
  }

  lemma {:induction false} RenameContents<V>(ds: seq<Descriptor>, m: Mapping, input: map<string, V>, n: nat)
    requires m.Keys == Names(ds) && Injective(m) && n <= |ds|
    ensures forall p :: p in Names(ds[..n]) && p in input ==>
      p in m && m[p] in Rename(ds, m, input, n) && Rename(ds, m, input, n)[m[p]] == input[p]
    ensures forall f :: f in Rename(ds, m, input, n) ==> exists p :: p in m && p in input && m[p] == f
    decreases n
  {
    if n > 0 {
      RenameContents(ds, m, input, n - 1);
      assert Names(ds[..n]) == Names(ds[..n - 1]) + {ds[n - 1].name};
      assert ds[n - 1].name in m;
    }
  }

  /** Mapping an accepted input and reading the target back returns exactly that input: no value is lost,
      merged or swapped. */
  lemma MappedInputIsInvertible<V>(ds: seq<Descriptor>, m: Mapping, input: map<string, V>)
    requires Binds(ds, m) && input.Keys <= Names(ds)
    ensures Unmap(m, Rename(ds, m, input, |ds|)) == input
    ensures |Rename(ds, m, input, |ds|)| == |input|
  {
    BindsIsABijection(ds, m);
    UnmapRename(ds, m, input);
  }

  lemma UnmapRename<V>(ds: seq<Descriptor>, m: Mapping, input: map<string, V>)
    requires m.Keys == Names(ds) && Injective(m) && input.Keys <= Names(ds)
    ensures Unmap(m, Rename(ds, m, input, |ds|)) == input
    ensures |Rename(ds, m, input, |ds|)| == |input|
  {
    RenameContents(ds, m, input, |ds|);
    assert ds[..|ds|] == ds;
    RenamedIsInvertible(m, input, Rename(ds, m, input, |ds|));
  }

  /** Fields that hold exactly the inputs, each under its own target name. */
  lemma RenamedIsInvertible<V>(m: Mapping, input: map<string, V>, fields: map<string, V>)
    requires Injective(m)
    requires forall p :: p in input ==> p in m && m[p] in fields && fields[m[p]] == input[p]
    requires forall f :: f in fields ==> exists p :: p in m && p in input && m[p] == f
    ensures Unmap(m, fields) == input && |fields| == |input|
  {
    forall p | p in m && m[p] in fields ensures p in input {
      var q :| q in m && q in input && m[q] == m[p];
    }
    assert Unmap(m, fields).Keys == input.Keys;
    assert fields.Keys == set p | p in input.Keys :: m[p];
    ImageCard(m, input.Keys);
  }

  lemma {:induction false} ImageCard(m: Mapping, keys: set<string>)
    requires keys <= m.Keys && Injective(m)
    ensures |set p | p in keys :: m[p]| == |keys|
    decreases |keys|
  {
    if keys != {} {
      var k :| k in keys;
      ImageCard(m, keys - {k});
      assert (set p | p in keys :: m[p]) == (set p | p in keys - {k} :: m[p]) + {m[k]};
    }
  }

  // ---- The field that is validated is not always the field that is used ----

  /** Validation looks at the trimmed field, application uses the stored one. */
  lemma PaddedFieldIsAcceptedButInvalid()
    ensures var ds, m := [Descriptor("p", false, None)], map["p" := " f"];
            Binds(ds, m) && !FieldName(TargetField(m, "p"))
  {
    var m := map["p" := " f"];
    assert TrimLeft(" f") == TrimLeft("f") by {
      assert " f"[1..] == "f";
    }
    assert TrimSpace(" f") == "f";
    assert |m| == 1 by {
      assert m.Keys == {"p"};
    }
  }

  /** In an accepted mapping, the field used at run time is a valid field name exactly when it was stored
      without surrounding white space. */
  lemma AppliedFieldIsValidIff(ds: seq<Descriptor>, m: Mapping, i: nat)
    requires Binds(ds, m) && i < |ds|
    ensures FieldName(TargetField(m, ds[i].name)) <==> Trimmed(m[ds[i].name])
  {
    TrimSpaceIsTrimmed(m[ds[i].name]);
  }
}
