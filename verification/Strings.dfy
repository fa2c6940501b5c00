// The string operations of the Go standard library that the modelled code uses.
module Strings {
  /** Latin-1 white space, as unicode.IsSpace defines it. */
  predicate IsSpace(c: char) {
    var n := c as int;
    9 <= n <= 13 || n == 32 || n == 0x85 || n == 0xA0
  }

  /** Tab, line feed, vertical tab, form feed, carriage return, space, next line, no-break space. */
  lemma IsSpaceIff(c: char)
    ensures IsSpace(c) <==> c as int in [9, 10, 11, 12, 13, 32, 133, 160]
  {
  }

  function TrimLeft(s: string): string {
    if s != "" && IsSpace(s[0]) then TrimLeft(s[1..]) else s
  }

  function TrimRight(s: string): string {
    if s != "" && IsSpace(s[|s| - 1]) then TrimRight(s[..|s| - 1]) else s
  }

  /** strings.TrimSpace. */
  function TrimSpace(s: string): string { TrimRight(TrimLeft(s)) }

  /** No white space at either end. */
  predicate Trimmed(s: string) {
    s == "" || (!IsSpace(s[0]) && !IsSpace(s[|s| - 1]))
  }

  lemma {:induction false} TrimRightKeepsStart(s: string)
    ensures TrimRight(s) <= s
    ensures TrimRight(s) == "" || !IsSpace(TrimRight(s)[|TrimRight(s)| - 1])
    decreases |s|
  {
    if s != "" && IsSpace(s[|s| - 1]) {
      TrimRightKeepsStart(s[..|s| - 1]);
    }
  }

  lemma {:induction false} TrimLeftStart(s: string)
    ensures TrimLeft(s) == "" || !IsSpace(TrimLeft(s)[0])
    decreases |s|
  {
    if s != "" && IsSpace(s[0]) {
      TrimLeftStart(s[1..]);
    }
  }

  /** The result is trimmed, and exactly the trimmed strings are left alone. */
  lemma TrimSpaceIsTrimmed(s: string)
    ensures Trimmed(TrimSpace(s))
    ensures TrimSpace(s) == s <==> Trimmed(s)
  {
    TrimLeftStart(s);
    TrimRightKeepsStart(TrimLeft(s));
  }

  predicate AllSpaces(s: string) { forall i :: 0 <= i < |s| ==> IsSpace(s[i]) }

  lemma {:induction false} TrimLeftDrops(s: string) returns (dropped: string)
    ensures s == dropped + TrimLeft(s) && AllSpaces(dropped)
    decreases |s|
  {
    dropped := "";
    if s != "" && IsSpace(s[0]) {
      var rest := TrimLeftDrops(s[1..]);
      dropped := [s[0]] + rest;
    }
  }

  lemma {:induction false} TrimRightDrops(s: string) returns (dropped: string)
    ensures s == TrimRight(s) + dropped && AllSpaces(dropped)
    decreases |s|
  {
    dropped := "";
    if s != "" && IsSpace(s[|s| - 1]) {
      var rest := TrimRightDrops(s[..|s| - 1]);
      dropped := rest + [s[|s| - 1]];
    }
  }

  /** Trimming removes white space from the ends and nothing else. */
  lemma TrimSpaceDropsOnlySpaces(s: string) returns (left: string, right: string)
    ensures s == left + TrimSpace(s) + right && AllSpaces(left) && AllSpaces(right)
  {
    left := TrimLeftDrops(s);
    right := TrimRightDrops(TrimLeft(s));
  }

  const UPPER := "ABCDEFGHIJKLMNOPQRSTUVWXYZ"
  const LOWER := "abcdefghijklmnopqrstuvwxyz"

  lemma LowerIff(c: char)
    ensures c in LOWER <==> 'a' <= c <= 'z'
  {
    if 'a' <= c <= 'z' {
      assert LOWER[c as int - 'a' as int] == c;
    }
  }

  lemma UpperIff(c: char)
    ensures c in UPPER <==> 'A' <= c <= 'Z'
  {
    if 'A' <= c <= 'Z' {
      assert UPPER[c as int - 'A' as int] == c;
    }
  }

  /** Each capital letter becomes its small one, and no other character changes. */
  lemma ToLowerLetters(c: char, i: nat)
    requires i < 26
    ensures UPPER[i] == c ==> ToLowerChar(c) == LOWER[i]
    ensures c !in UPPER ==> ToLowerChar(c) == c
  {
    UpperIff(c);
  }

  function ToLowerChar(c: char): char {
    if 'A' <= c <= 'Z' then (c as int + 32) as char else c
  }

  /** strings.ToLower on ASCII letters. */
  function ToLower(s: string): (r: string)
    ensures |r| == |s|
    ensures forall i :: 0 <= i < |s| ==> r[i] == ToLowerChar(s[i])
  {
    seq(|s|, i requires 0 <= i < |s| => ToLowerChar(s[i]))
  }

  lemma ToLowerTwice(s: string)
    ensures ToLower(ToLower(s)) == ToLower(s)
  {
  }

  lemma ToLowerKeepsTrimmed(s: string)
    requires Trimmed(s)
    ensures Trimmed(ToLower(s))
  {
  }

  /** strings.Contains. */
  predicate Contains(s: string, t: string) {
    t <= s || (s != "" && Contains(s[1..], t))
  }

  predicate HasPrefix(s: string, t: string) { t <= s }

  predicate OccursAt(s: string, t: string, i: nat) { i + |t| <= |s| && s[i..i + |t|] == t }

  lemma OccursShift(s: string, t: string, i: nat)
    requires s != ""
    ensures OccursAt(s[1..], t, i) <==> OccursAt(s, t, i + 1)
  {
    if i + 1 + |t| <= |s| {
      assert s[1..][i..i + |t|] == s[i + 1..i + 1 + |t|];
    }
  }

  lemma {:induction false} ContainsWhereOccurs(s: string, t: string, i: nat)
    requires OccursAt(s, t, i)
    ensures Contains(s, t)
    decreases |s|
  {
    if i > 0 {
      OccursShift(s, t, i - 1);
      ContainsWhereOccurs(s[1..], t, i - 1);
    }
  }

  lemma {:induction false} OccursWhereContains(s: string, t: string) returns (i: nat)
    requires Contains(s, t)
    ensures OccursAt(s, t, i)
    decreases |s|
  {
    i := 0;
    if !(t <= s) {
      i := OccursWhereContains(s[1..], t);
      OccursShift(s, t, i);
      i := i + 1;
    }
  }

  /** One string contains another exactly when it occurs at some position. */
  lemma ContainsIff(s: string, t: string)
    ensures Contains(s, t) <==> exists i :: OccursAt(s, t, i)
  {
    if Contains(s, t) {
      var i := OccursWhereContains(s, t);
    }
    forall i: nat | OccursAt(s, t, i) ensures Contains(s, t) {
      ContainsWhereOccurs(s, t, i);
    }
  }

  lemma HasPrefixIff(s: string, t: string)
    ensures HasPrefix(s, t) <==> OccursAt(s, t, 0)
  {
  }
}
