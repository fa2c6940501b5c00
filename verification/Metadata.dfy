/**
 The agent registry's metadata sanitizer, applied when an agent is written and
 again whenever it is read (igris-overture/agentregistry/metadata.go, store.go scanAgent).
 */
module Metadata {
  import opened Options
  import opened Strings

  /** A JSON value; numbers, booleans and null are `Scalar`. */
  datatype Value =
    | Obj(fields: map<string, Value>)
    | Arr(items: seq<Value>)
    | Str(text: string)
    | Scalar(tag: int)

  datatype Problem = EmptyKey | ForbiddenKey | SensitiveString | TooLarge

  datatype Result<T> = Ok(value: T) | Err(problem: Problem)

  // ---- Keys and strings ----

  const FORBIDDEN_KEYS: seq<string> := [
    "tenant_id", "task_definition", "task_type", "runtime_target", "execution_graph", "ciphertext", "nonce",
    "runtime_endpoint", "runtime_id", "key_material", "secret_refs", "secret_ref", "api_key", "password", "token",
    "credential", "credentials", "prompt", "prompts", "system_prompt", "chain_of_thought", "chain-of-thought",
    "reasoning", "raw_body", "request_body", "response_body"
  ]

  const FORBIDDEN_SUBSTRINGS: seq<string> := [
    "prompt", "chain_of_thought", "chain-of-thought", "system_message", "secret", "password", "api_key", "bearer",
    "private_key", "-----begin"
  ]

  const MAX_BYTES := 4096

  function NormalizeKey(key: string): string { ToLower(TrimSpace(key)) }

  predicate ContainsAny(s: string, markers: seq<string>) { exists m <- markers :: Contains(s, m) }

  predicate AllowedKey(key: string) {
    key != "" && key !in FORBIDDEN_KEYS && !ContainsAny(ToLower(key), FORBIDDEN_SUBSTRINGS)
  }

  predicate Sensitive(value: string) {
    var lower := ToLower(TrimSpace(value));
    && lower != ""
    && (|| ContainsAny(lower, ["bearer", "password", "authorization", "private_key", "-----begin", "chain of thought"])
        || HasPrefix(lower, "sk-") || HasPrefix(lower, "igris_")
        || (|value| > 512 && ContainsAny(lower, ["you are", "system:"])))
  }

  lemma NormalizeKeyTwice(key: string)
    ensures NormalizeKey(NormalizeKey(key)) == NormalizeKey(key)
  {
    TrimSpaceIsTrimmed(key);
    ToLowerKeepsTrimmed(TrimSpace(key));
    TrimSpaceIsTrimmed(NormalizeKey(key));
    ToLowerTwice(TrimSpace(key));
  }

  ghost predicate OccursIn(s: string, t: string) { exists i :: OccursAt(s, t, i) }

  lemma ContainsAnyIff(s: string, markers: seq<string>)
    ensures ContainsAny(s, markers) <==> exists m <- markers :: OccursIn(s, m)
  {
    forall m <- markers ensures Contains(s, m) <==> OccursIn(s, m) {
      ContainsIff(s, m);
    }
  }

  /** A normalised key is what is left between the white space at both ends, in lower case. */
  lemma NormalizeKeyMeans(key: string) returns (left: string, middle: string, right: string)
    ensures key == left + middle + right && AllSpaces(left) && AllSpaces(right) && Trimmed(middle)
    ensures |NormalizeKey(key)| == |middle|
    ensures forall i :: 0 <= i < |middle| ==> NormalizeKey(key)[i] == ToLowerChar(middle[i])
  {
    left, right := TrimSpaceDropsOnlySpaces(key);
    middle := TrimSpace(key);
    TrimSpaceIsTrimmed(key);
  }

  /** A key is refused when it is empty, one of 26 names, or has one of ten markers anywhere in it. */
  lemma AllowedKeyIff(key: string)
    ensures AllowedKey(key) <==>
      && key != ""
      && key !in ["tenant_id", "task_definition", "task_type", "runtime_target", "execution_graph", "ciphertext",
                  "nonce", "runtime_endpoint", "runtime_id", "key_material", "secret_refs", "secret_ref", "api_key",
                  "password", "token", "credential", "credentials", "prompt", "prompts", "system_prompt",
                  "chain_of_thought", "chain-of-thought", "reasoning", "raw_body", "request_body", "response_body"]
      && !exists m <- ["prompt", "chain_of_thought", "chain-of-thought", "system_message", "secret", "password",
                       "api_key", "bearer", "private_key", "-----begin"] :: OccursIn(ToLower(key), m)
  {
    ContainsAnyIff(ToLower(key), FORBIDDEN_SUBSTRINGS);
  }

  /** A string is sensitive when, trimmed and in lower case, it has one of six markers anywhere, starts with one of
      two prefixes, or is part of a long text with one of two phrases. */
  lemma SensitiveIff(value: string)
    ensures var lower := ToLower(TrimSpace(value));
      Sensitive(value) <==>
        || (exists m <- ["bearer", "password", "authorization", "private_key", "-----begin", "chain of thought"] ::
              OccursIn(lower, m))
        || OccursAt(lower, "sk-", 0) || OccursAt(lower, "igris_", 0)
        || (|value| > 512 && exists m <- ["you are", "system:"] :: OccursIn(lower, m))
  {
    var lower := ToLower(TrimSpace(value));
    ContainsAnyIff(lower, ["bearer", "password", "authorization", "private_key", "-----begin", "chain of thought"]);
    ContainsAnyIff(lower, ["you are", "system:"]);
    HasPrefixIff(lower, "sk-");
    HasPrefixIff(lower, "igris_");
  }

  method RejectForbiddenMetadataKey(key: string) returns (problem: Option<Problem>)
    ensures problem.None? <==> AllowedKey(key)
    ensures problem == Some(EmptyKey) <==> key == ""
    ensures problem.Some? ==> problem.value in {EmptyKey, ForbiddenKey}
  {
    if key == "" {
      return Some(EmptyKey);
    }
    if key in FORBIDDEN_KEYS {
      return Some(ForbiddenKey);
    }
    var lower := ToLower(key);
    for i := 0 to |FORBIDDEN_SUBSTRINGS|
      invariant !ContainsAny(lower, FORBIDDEN_SUBSTRINGS[..i])
    {
      if Contains(lower, FORBIDDEN_SUBSTRINGS[i]) {
        return Some(ForbiddenKey);
      }
      assert FORBIDDEN_SUBSTRINGS[..i + 1] == FORBIDDEN_SUBSTRINGS[..i] + [FORBIDDEN_SUBSTRINGS[i]];
    }
    assert FORBIDDEN_SUBSTRINGS[..|FORBIDDEN_SUBSTRINGS|] == FORBIDDEN_SUBSTRINGS;
    return None;
  }

  // ---- What is accepted, and what comes out ----

  /** No forbidden or empty key and no sensitive string at any depth. */
  predicate Acceptable(v: Value)
    decreases v, 0
  {
    match v
    case Obj(fields) => forall k <- fields :: FieldAcceptable(k, fields[k])
    case Arr(items) => forall i :: 0 <= i < |items| ==> Acceptable(items[i])
    case Str(text) => !Sensitive(text)
    case Scalar(_) => true
  }

  predicate FieldAcceptable(key: string, value: Value)
    decreases value, 1
  {
    AllowedKey(NormalizeKey(key)) && Acceptable(value)
  }

  /** The problem is there: at this key, or somewhere in its value. */
  ghost predicate FieldHas(key: string, value: Value, problem: Problem)
    decreases value, 1
  {
    || (problem == EmptyKey && NormalizeKey(key) == "")
    || (problem == ForbiddenKey && NormalizeKey(key) != "" && !AllowedKey(NormalizeKey(key)))
    || Has(value, problem)
  }

  /** The problem occurs at some depth. */
  ghost predicate Has(v: Value, problem: Problem)
    decreases v, 0
  {
    match v
    case Obj(fields) => exists k <- fields :: FieldHas(k, fields[k], problem)
    case Arr(items) => exists i :: 0 <= i < |items| && Has(items[i], problem)
    case Str(text) => problem == SensitiveString && Sensitive(text)
    case Scalar(_) => false
  }

  /** Acceptable, and every key at every depth is already normalised. */
  predicate Clean(v: Value)
    decreases v
  {
    match v
    case Obj(fields) => forall k <- fields :: NormalizeKey(k) == k && AllowedKey(k) && Clean(fields[k])
    case Arr(items) => forall i :: 0 <= i < |items| ==> Clean(items[i])
    case Str(text) => !Sensitive(text)
    case Scalar(_) => true
  }

  /**
   `out` is a possible sanitizing of `v`: keys normalised at every depth, nothing else changed.
   Of keys that collide, whichever is visited last survives.
   */
  ghost predicate Sanitizes(v: Value, out: Value)
    decreases v, 1
  {
    match v
    case Obj(fields) => out.Obj? && Collects(v, fields.Keys, out.fields)
    case Arr(items) =>
      out.Arr? && |out.items| == |items| && forall i :: 0 <= i < |items| ==> Sanitizes(items[i], out.items[i])
    case Str(_) => out == v
    case Scalar(_) => out == v
  }

  /** `out` holds the normalised fields of `v` among `done`. */
  ghost predicate Collects(v: Value, done: set<string>, out: map<string, Value>)
    requires v.Obj? && done <= v.fields.Keys
    decreases v, 0
  {
    && (forall k <- done :: NormalizeKey(k) in out)
    && (forall n <- out :: exists k <- done :: NormalizeKey(k) == n && Sanitizes(v.fields[k], out[n]))
  }

  /** sanitizeMetadataValue. */
  method SanitizeMetadataValue(v: Value) returns (r: Result<Value>)
    ensures r.Ok? <==> Acceptable(v)
    ensures r.Ok? ==> Sanitizes(v, r.value)
    ensures r.Err? ==> Has(v, r.problem)
    decreases v, 1
  {
    match v
    case Obj(_) =>
      var fields := SanitizeFields(v);
      r := if fields.Ok? then Ok(Obj(fields.value)) else Err(fields.problem);
    case Arr(_) =>
      var items := SanitizeItems(v);
      r := if items.Ok? then Ok(Arr(items.value)) else Err(items.problem);
    case Str(text) => r := if Sensitive(text) then Err(SensitiveString) else Ok(v);
    case Scalar(_) => r := Ok(v);
  }

  /** The loop over an object's keys, in any order. */
  method SanitizeFields(v: Value) returns (r: Result<map<string, Value>>)
    requires v.Obj?
    ensures r.Ok? <==> Acceptable(v)
    ensures r.Ok? ==> Collects(v, v.fields.Keys, r.value)
    ensures r.Err? ==> Has(v, r.problem)
    decreases v, 0
  {
    var todo, out := v.fields.Keys, map[];
    ghost var done: set<string> := {};
    while todo != {}
      invariant done <= v.fields.Keys && todo == v.fields.Keys - done
      invariant forall k <- done :: FieldAcceptable(k, v.fields[k])
      invariant Collects(v, done, out)
      decreases todo
    {
      var key :| key in todo;
      var field := SanitizeField(key, v.fields[key]);
      if field.Err? {
        return Err(field.problem);
      }
      CollectOne(v, done, out, key, field.value.1);
      done, todo := done + {key}, todo - {key};
      out := out[field.value.0 := field.value.1];
    }
    assert done == v.fields.Keys;
    return Ok(out);
  }

  /** The body of that loop: the field under its normalised key. */
  method SanitizeField(key: string, value: Value) returns (r: Result<(string, Value)>)
    ensures r.Ok? <==> FieldAcceptable(key, value)
    ensures r.Ok? ==> r.value.0 == NormalizeKey(key) && Sanitizes(value, r.value.1)
    ensures r.Err? ==> FieldHas(key, value, r.problem)
    decreases value, 2
  {
    var normalized := NormalizeKey(key);
    var problem := RejectForbiddenMetadataKey(normalized);
    if problem.Some? {
      return Err(problem.value);
    }
    var clean := SanitizeMetadataValue(value);
    if clean.Err? {
      return Err(clean.problem);
    }
    return Ok((normalized, clean.value));
  }

  lemma CollectOne(v: Value, done: set<string>, out: map<string, Value>, key: string, clean: Value)
    requires v.Obj? && done <= v.fields.Keys && key in v.fields
    requires Collects(v, done, out) && Sanitizes(v.fields[key], clean)
    ensures Collects(v, done + {key}, out[NormalizeKey(key) := clean])
  {
    var next := out[NormalizeKey(key) := clean];
    forall n <- next
      ensures exists k <- done + {key} :: NormalizeKey(k) == n && Sanitizes(v.fields[k], next[n])
    {
      if n == NormalizeKey(key) {
        assert key in done + {key};
      } else {
        var k :| k in done && NormalizeKey(k) == n && Sanitizes(v.fields[k], out[n]);
        assert k in done + {key};
      }
    }
  }

  /** The loop over an array's elements. */
  method SanitizeItems(v: Value) returns (r: Result<seq<Value>>)
    requires v.Arr?
    ensures r.Ok? <==> Acceptable(v)
    ensures r.Ok? ==> Sanitizes(v, Arr(r.value))
    ensures r.Err? ==> Has(v, r.problem)
    decreases v, 0
  {
    var out := [];
    for i := 0 to |v.items|
      invariant |out| == i
      invariant forall j :: 0 <= j < i ==> Acceptable(v.items[j]) && Sanitizes(v.items[j], out[j])
    {
      var clean := SanitizeMetadataValue(v.items[i]);
      if clean.Err? {
        return Err(clean.problem);
      }
      out := out + [clean.value];
    }
    return Ok(out);
  }

  /**
   What SanitizeMetadata may answer, `size` being the length of a value's JSON text:
   an acceptable object gives one of its sanitizings, or is refused when that one is too long.
   */
  ghost predicate Answers(meta: Option<Value>, size: Value -> nat, r: Result<Value>) {
    match meta
    case None => r == Ok(Obj(map[]))
    case Some(v) =>
      if !Acceptable(v) then r.Err? && Has(v, r.problem)
      else if r.Ok? then Sanitizes(v, r.value) && size(r.value) <= MAX_BYTES
      else r.problem.TooLarge? && exists out :: Sanitizes(v, out) && size(out) > MAX_BYTES
  }

  /** SanitizeMetadata; a nil map is `None`. */
  method SanitizeMetadata(meta: Option<Value>, size: Value -> nat) returns (r: Result<Value>)
    requires meta.Some? ==> meta.value.Obj?
    ensures Answers(meta, size, r)
    ensures meta.None? ==> r == Ok(Obj(map[]))
    ensures meta.Some? && r.Ok? ==> Sanitizes(meta.value, r.value) && size(r.value) <= 4096
    ensures meta.Some? ==> (Acceptable(meta.value) <==> r.Ok? || r.problem.TooLarge?)
  {
    if meta.None? {
      return Ok(Obj(map[]));
    }
    var fields := SanitizeFields(meta.value);
    if fields.Err? {
      SizeIsNotInside(meta.value);
      return Err(fields.problem);
    }
    var out := Obj(fields.value);
    assert Sanitizes(meta.value, out);
    if size(out) > MAX_BYTES {
      return Err(TooLarge);
    }
    return Ok(out);
  }

  // ---- Theorems ----

  /** Whatever comes out of an acceptable value is clean at every depth. */
  lemma {:induction false} SanitizedIsClean(v: Value, out: Value)
    requires Acceptable(v) && Sanitizes(v, out)
    ensures Clean(out)
    decreases v
  {
    match v
    case Obj(fields) =>
      forall n <- out.fields
        ensures NormalizeKey(n) == n && AllowedKey(n) && Clean(out.fields[n])
      {
        var k :| k in fields && NormalizeKey(k) == n && Sanitizes(fields[k], out.fields[n]);
        NormalizeKeyTwice(k);
        SanitizedIsClean(fields[k], out.fields[n]);
      }
    case Arr(items) =>
      forall i | 0 <= i < |items|
        ensures Clean(out.items[i])
      {
        SanitizedIsClean(items[i], out.items[i]);
      }
    case Str(_) =>
    case Scalar(_) =>
  }

  lemma {:induction false} CleanIsAcceptable(v: Value)
    requires Clean(v)
    ensures Acceptable(v)
    decreases v
  {
    match v
    case Obj(fields) =>
      forall k <- fields
        ensures Acceptable(fields[k])
      {
        CleanIsAcceptable(fields[k]);
      }
    case Arr(items) =>
      forall i | 0 <= i < |items|
        ensures Acceptable(items[i])
      {
        CleanIsAcceptable(items[i]);
      }
    case Str(_) =>
    case Scalar(_) =>
  }

  lemma FixedFields(v: Value, out: Value)
    requires v.Obj? && forall k <- v.fields :: NormalizeKey(k) == k
    requires forall k, o | k in v.fields :: Sanitizes(v.fields[k], o) <==> o == v.fields[k]
    ensures Sanitizes(v, out) <==> out == v
  {
    if Sanitizes(v, out) {
      assert Collects(v, v.fields.Keys, out.fields);
      assert forall n <- v.fields :: NormalizeKey(n) in out.fields;
      assert out.fields == v.fields;
    }
    if out == v {
      forall n <- v.fields
        ensures exists k <- v.fields.Keys :: NormalizeKey(k) == n && Sanitizes(v.fields[k], v.fields[n])
      {
        assert NormalizeKey(n) == n && Sanitizes(v.fields[n], v.fields[n]);
      }
    }
  }

  /** A clean value is its own only sanitizing, in whatever order keys are visited. */
  lemma {:induction false} CleanIsFixed(v: Value, out: Value)
    requires Clean(v)
    ensures Sanitizes(v, out) <==> out == v
    decreases v
  {
    match v
    case Obj(fields) =>
      forall k, o: Value | k in fields
        ensures Sanitizes(fields[k], o) <==> o == fields[k]
      {
        CleanIsFixed(fields[k], o);
      }
      FixedFields(v, out);
    case Arr(items) =>
      forall i, o: Value | 0 <= i < |items|
        ensures Sanitizes(items[i], o) <==> o == items[i]
      {
        CleanIsFixed(items[i], o);
      }
    case Str(_) =>
    case Scalar(_) =>
  }

  /** The reported problem is never the size. */
  lemma {:induction false} SizeIsNotInside(v: Value)
    ensures !Has(v, TooLarge)
    decreases v
  {
    match v
    case Obj(fields) =>
      forall k <- fields ensures !FieldHas(k, fields[k], TooLarge) {
        SizeIsNotInside(fields[k]);
      }
    case Arr(items) =>
      forall i | 0 <= i < |items| ensures !Has(items[i], TooLarge) {
        SizeIsNotInside(items[i]);
      }
    case Str(_) =>
    case Scalar(_) =>
  }

  /** A clean object is answered with itself up to 4096 bytes, and as too large beyond. */
  lemma CleanAnswer(v: Value, size: Value -> nat, r: Result<Value>)
    requires Clean(v) && Answers(Some(v), size, r)
    ensures r == if size(v) <= 4096 then Ok(v) else Err(TooLarge)
  {
    CleanIsAcceptable(v);
    forall out ensures Sanitizes(v, out) <==> out == v {
      CleanIsFixed(v, out);
    }
  }

  /**
   What a write accepts, every later read returns unchanged, even where keys collided.
   The JSON text of the empty object is two bytes, so the limit never refuses it.
   */
  lemma ReadReturnsWhatWasAccepted(meta: Option<Value>, size: Value -> nat, stored: Value, r: Result<Value>)
    requires Answers(meta, size, Ok(stored)) && Answers(Some(stored), size, r)
    requires size(Obj(map[])) <= MAX_BYTES
    ensures Clean(stored) && r == Ok(stored)
  {
    if meta.Some? {
      SanitizedIsClean(meta.value, stored);
    }
    CleanIsAcceptable(stored);
    forall out
      ensures Sanitizes(stored, out) <==> out == stored
    {
      CleanIsFixed(stored, out);
    }
  }
}
