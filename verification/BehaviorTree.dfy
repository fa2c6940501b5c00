/**
 Flattening a behaviour-tree snapshot for the live view
 (igris-overture/api/routes_execution.go flattenBTTree).
 */
module BehaviorTree {
  import opened Options
  import opened Sequences
  import opened Strings

  datatype Attrs = Attrs(
    name: string,
    kind: string,
    status: string,
    durationMs: int,
    executionId: string,
    timestamp: string,
    proposal: Option<string>,
    envelope: string)

  /** A raw JSON child: null, empty or unparsable input is `Absent`. */
  datatype Tree = Absent | Node(attrs: Attrs, children: seq<Tree>)

  /** One entry of the flat list. */
  datatype Flat = Flat(id: string, attrs: Attrs, depth: nat)

  // ---- Labels ----

  function ReplaceSpaces(s: string): string {
    seq(|s|, i requires 0 <= i < |s| => if s[i] == ' ' then '_' else s[i])
  }

  function Decimal(n: nat): string {
    if n < 10 then [('0' as int + n) as char] else Decimal(n / 10) + Decimal(n % 10)
  }

  /** The number a decimal numeral stands for. */
  function Reading(digits: string): nat
    requires forall i :: 0 <= i < |digits| ==> '0' <= digits[i] <= '9'
  {
    if digits == "" then 0
    else 10 * Reading(digits[..|digits| - 1]) + (digits[|digits| - 1] as int - '0' as int)
  }

  predicate Digits(s: string) { forall i :: 0 <= i < |s| ==> '0' <= s[i] <= '9' }

  /** The numeral of a number reads back as it, and has no leading zero. */
  lemma {:induction false} DecimalReadsBack(n: nat)
    ensures var d := Decimal(n); d != "" && Digits(d) && Reading(d) == n && (d[0] == '0' ==> n == 0)
    decreases n
  {
    var d := Decimal(n);
    if n < 10 {
      assert d[..0] == "";
    } else {
      DecimalReadsBack(n / 10);
      assert Decimal(n % 10) == [('0' as int + n % 10) as char];
      assert d[..|d| - 1] == Decimal(n / 10);
    }
  }

  function NodeId(attrs: Attrs, depth: nat): string {
    ToLower(attrs.kind) + "_" + ReplaceSpaces(attrs.name) + "_" + Decimal(depth)
  }

  /** Lower-case type, default status, envelope status derived from the status. */
  function Normalize(l: Attrs): Attrs {
    var status := if l.status == "" then "pending" else l.status;
    var envelope :=
      if l.envelope == "" && status == "violation" then "violated"
      else if l.envelope == "" && (status == "completed" || status == "Success") then "passed"
      else l.envelope;
    l.(kind := ToLower(l.kind), status := status, envelope := envelope)
  }

  /**
   Normalising never leaves the status empty, keeps what was reported, and fills in an envelope
   status only where none was reported: a verdict exactly for the statuses that decide one.
   */
  lemma NormalizeMeaning(l: Attrs)
    ensures var n := Normalize(l);
      && n.status == (if l.status == "" then "pending" else l.status)
      && (l.envelope != "" ==> n.envelope == l.envelope)
      && (l.envelope == "" ==>
            && (n.envelope == "violated" <==> n.status == "violation")
            && (n.envelope == "passed" <==> n.status in ["completed", "Success"])
            && n.envelope in ["", "violated", "passed"])
      && n.kind == ToLower(l.kind)
      && n == l.(kind := n.kind, status := n.status, envelope := n.envelope)
  {
  }

  function Entry(l: Attrs, depth: nat): Flat { Flat(NodeId(l, depth), Normalize(l), depth) }

  /** An id is the lower-case type, the name with its spaces as underscores, and the depth. */
  lemma NodeIdParts(attrs: Attrs, depth: nat)
    ensures var id, k, n := NodeId(attrs, depth), |attrs.kind|, |attrs.name|;
      && |id| > k + n + 2 && id[k] == '_' && id[k + 1 + n] == '_'
      && (forall i :: 0 <= i < k ==> id[i] == ToLowerChar(attrs.kind[i]))
      && (forall i :: 0 <= i < n ==> id[k + 1 + i] == if attrs.name[i] == ' ' then '_' else attrs.name[i])
      && Digits(id[k + n + 2..]) && Reading(id[k + n + 2..]) == depth
  {
    var id, k, n := NodeId(attrs, depth), |attrs.kind|, |attrs.name|;
    DecimalReadsBack(depth);
    assert id[k + n + 2..] == Decimal(depth);
  }

  predicate Kept(t: Tree) { t.Node? && t.attrs.name != "" }

  // ---- Flattening ----

  function Flatten(t: Tree, depth: nat): seq<Flat>
    decreases t, 0
  {
    if !Kept(t) then [] else [Entry(t.attrs, depth)] + FlattenAll(t.children, depth + 1)
  }

  function FlattenAll(ts: seq<Tree>, depth: nat): seq<Flat>
    decreases ts, |ts|
  {
    if ts == [] then []
    else FlattenAll(ts[..|ts| - 1], depth) + Flatten(ts[|ts| - 1], depth)
  }

  class Output {
    var nodes: seq<Flat>

    constructor ()
      ensures nodes == []
    {
      nodes := [];
    }
  }

  /** flattenBTTree: appends in place to the shared list. */
  method FlattenBTTree(t: Tree, depth: nat, out: Output)
    modifies out
    ensures out.nodes == old(out.nodes) + Flatten(t, depth)
    decreases t, 1
  {
    if !Kept(t) {
      return;
    }
    ghost var before := out.nodes;
    var entry := Entry(t.attrs, depth);
    out.nodes := out.nodes + [entry];
    FlattenChildren(t.children, depth + 1, out);
    ConcatAssoc(before, [entry], FlattenAll(t.children, depth + 1));
  }

  /** The loop over a node's children. */
  method FlattenChildren(ts: seq<Tree>, depth: nat, out: Output)
    modifies out
    ensures out.nodes == old(out.nodes) + FlattenAll(ts, depth)
    decreases ts, 0
  {
    for i := 0 to |ts|
      invariant out.nodes == old(out.nodes) + FlattenAll(ts[..i], depth)
    {
      FlattenBTTree(ts[i], depth, out);
      FlattenAllSnoc(ts, i, depth);
      ConcatAssoc(old(out.nodes), FlattenAll(ts[..i], depth), Flatten(ts[i], depth));
    }
    assert ts[..|ts|] == ts;
  }

  lemma FlattenAllSnoc(ts: seq<Tree>, i: nat, depth: nat)
    requires i < |ts|
    ensures FlattenAll(ts[..i + 1], depth) == FlattenAll(ts[..i], depth) + Flatten(ts[i], depth)
  {
    assert ts[..i + 1][..i] == ts[..i];
  }

  // ---- The forest a flat list stands for ----

  /** What is left of a tree: named nodes only, with normalised attributes. */
  datatype Clean = Clean(attrs: Attrs, children: seq<Clean>)

  function Prune(t: Tree): seq<Clean>
    decreases t, 0
  {
    if !Kept(t) then [] else [Clean(Normalize(t.attrs), PruneAll(t.children))]
  }

  function PruneAll(ts: seq<Tree>): seq<Clean>
    decreases ts, |ts|
  {
    if ts == [] then [] else PruneAll(ts[..|ts| - 1]) + Prune(ts[|ts| - 1])
  }

  function Row(attrs: Attrs, depth: nat): Flat { Flat(NodeId(attrs, depth), attrs, depth) }

  /** The preorder listing of a forest. */
  function Preorder(f: seq<Clean>, depth: nat): seq<Flat>
    decreases f, |f|
  {
    if f == [] then [] else Listing(f[0], depth) + Preorder(f[1..], depth)
  }

  function Listing(c: Clean, depth: nat): seq<Flat>
    decreases c, 0
  {
    [Row(c.attrs, depth)] + Preorder(c.children, depth + 1)
  }

  /** Reads the forest at `depth` off the front of a flat list, using nothing but depths. */
  function Parse(list: seq<Flat>, depth: nat): (r: (seq<Clean>, seq<Flat>))
    ensures |r.1| <= |list|
    decreases |list|
  {
    if list == [] || list[0].depth != depth then ([], list)
    else
      var kids := Parse(list[1..], depth + 1);
      var siblings := Parse(kids.1, depth);
      ([Clean(list[0].attrs, kids.0)] + siblings.0, siblings.1)
  }

  /** The next entry does not belong to the forest at this depth. */
  predicate Closes(list: seq<Flat>, depth: nat) { list == [] || list[0].depth < depth }

  lemma NormalizeTwice(l: Attrs)
    ensures Normalize(Normalize(l)) == Normalize(l)
  {
    ToLowerTwice(l.kind);
  }

  lemma EntryIsRow(l: Attrs, depth: nat)
    ensures Entry(l, depth) == Row(Normalize(l), depth)
  {
    ToLowerTwice(l.kind);
  }

  lemma {:induction false} PreorderAppend(f: seq<Clean>, g: seq<Clean>, depth: nat)
    ensures Preorder(f + g, depth) == Preorder(f, depth) + Preorder(g, depth)
    decreases f
  {
    if f == [] {
      assert f + g == g;
    } else {
      PreorderAppend(f[1..], g, depth);
      assert (f + g)[1..] == f[1..] + g;
      ConcatAssoc(Listing(f[0], depth), Preorder(f[1..], depth), Preorder(g, depth));
    }
  }

  lemma {:induction false} FlattenIsPreorder(t: Tree, depth: nat)
    ensures Flatten(t, depth) == Preorder(Prune(t), depth)
    decreases t, 0
  {
    if Kept(t) {
      FlattenAllIsPreorder(t.children, depth + 1);
      EntryIsRow(t.attrs, depth);
      assert Prune(t)[1..] == [];
    }
  }

  lemma {:induction false} FlattenAllIsPreorder(ts: seq<Tree>, depth: nat)
    ensures FlattenAll(ts, depth) == Preorder(PruneAll(ts), depth)
    decreases ts, |ts|
  {
    if ts != [] {
      var n := |ts| - 1;
      FlattenAllIsPreorder(ts[..n], depth);
      FlattenIsPreorder(ts[n], depth);
      PreorderAppend(PruneAll(ts[..n]), Prune(ts[n]), depth);
    }
  }

  lemma PreorderStart(f: seq<Clean>, tail: seq<Flat>, depth: nat)
    requires Closes(tail, depth)
    ensures Closes(Preorder(f, depth) + tail, depth + 1)
  {
  }

  lemma {:induction false} ParsePreorder(f: seq<Clean>, tail: seq<Flat>, depth: nat)
    requires Closes(tail, depth)
    ensures Parse(Preorder(f, depth) + tail, depth) == (f, tail)
    decreases f
  {
    var list := Preorder(f, depth) + tail;
    if f == [] {
      assert list == tail;
    } else {
      var below, rest := Preorder(f[0].children, depth + 1), Preorder(f[1..], depth) + tail;
      ConcatAssoc(Listing(f[0], depth), Preorder(f[1..], depth), tail);
      ConcatAssoc([Row(f[0].attrs, depth)], below, rest);
      ConsParts(Row(f[0].attrs, depth), below + rest);
      PreorderStart(f[1..], tail, depth);
      ParsePreorder(f[0].children, rest, depth + 1);
      ParsePreorder(f[1..], tail, depth);
      assert f == [f[0]] + f[1..];
    }
  }

  /** The depths alone recover every named node, its parent and the order of its siblings. */
  lemma FlattenIsInvertible(t: Tree, depth: nat)
    ensures Parse(Flatten(t, depth), depth) == (Prune(t), [])
  {
    FlattenIsPreorder(t, depth);
    ParsePreorder(Prune(t), [], depth);
    assert Preorder(Prune(t), depth) + [] == Preorder(Prune(t), depth);
  }

  /** How many nodes have a name, and only named nodes above them. */
  function NamedNodes(t: Tree): nat
    decreases t, 0
  {
    match t
    case Absent => 0
    case Node(attrs, children) => if attrs.name == "" then 0 else 1 + NamedNodesIn(children)
  }

  function NamedNodesIn(ts: seq<Tree>): nat
    decreases ts, |ts|
  {
    if ts == [] then 0 else NamedNodesIn(ts[..|ts| - 1]) + NamedNodes(ts[|ts| - 1])
  }

  /** Exactly those nodes are listed. */
  lemma {:induction false} EveryNamedNodeIsListed(t: Tree, depth: nat)
    ensures |Flatten(t, depth)| == NamedNodes(t)
    decreases t, 0
  {
    if t.Node? {
      EveryNamedNodeInIsListed(t.children, depth + 1);
    }
  }

  lemma {:induction false} EveryNamedNodeInIsListed(ts: seq<Tree>, depth: nat)
    ensures |FlattenAll(ts, depth)| == NamedNodesIn(ts)
    decreases ts, |ts|
  {
    if ts != [] {
      EveryNamedNodeInIsListed(ts[..|ts| - 1], depth);
      EveryNamedNodeIsListed(ts[|ts| - 1], depth);
    }
  }

  // ---- Exactly which lists are flattenings ----

  /** Depth does not rise by more than one from entry `i` to the next. */
  predicate ClimbsAt(list: seq<Flat>, i: nat)
    requires i + 1 < |list|
  {
    list[i + 1].depth <= list[i].depth + 1
  }

  predicate Climbs(list: seq<Flat>) {
    forall i :: 0 <= i < |list| - 1 ==> ClimbsAt(list, i)
  }

  predicate AtLeast(list: seq<Flat>, depth: nat) {
    forall e <- list :: depth <= e.depth
  }

  /** An entry the live view could have been sent: named, normalised, with the derived id. */
  predicate WellMade(e: Flat) {
    e.attrs.name != "" && Normalize(e.attrs) == e.attrs && e.id == NodeId(e.attrs, e.depth)
  }

  predicate AllWellMade(list: seq<Flat>) { forall i :: 0 <= i < |list| ==> WellMade(list[i]) }

  /** One root at depth 0, everything else below it, no level skipped. */
  predicate TreeShaped(list: seq<Flat>) {
    list == [] || (list[0].depth == 0 && AtLeast(list[1..], 1) && Climbs(list))
  }

  predicate Made(f: seq<Clean>)
    decreases f
  {
    f == [] ||
    (f[0].attrs.name != "" && Normalize(f[0].attrs) == f[0].attrs && Made(f[0].children) && Made(f[1..]))
  }

  lemma {:induction false} MadeAppend(f: seq<Clean>, g: seq<Clean>)
    requires Made(f) && Made(g)
    ensures Made(f + g)
    decreases f
  {
    if f == [] {
      assert f + g == g;
    } else {
      MadeAppend(f[1..], g);
      assert (f + g)[1..] == f[1..] + g;
    }
  }

  lemma {:induction false} PruneIsMade(t: Tree)
    ensures Made(Prune(t))
    decreases t, 0
  {
    if Kept(t) {
      PruneAllIsMade(t.children);
      NormalizeTwice(t.attrs);
    }
  }

  lemma {:induction false} PruneAllIsMade(ts: seq<Tree>)
    ensures Made(PruneAll(ts))
    decreases ts, |ts|
  {
    if ts != [] {
      var n := |ts| - 1;
      PruneAllIsMade(ts[..n]);
      PruneIsMade(ts[n]);
      MadeAppend(PruneAll(ts[..n]), Prune(ts[n]));
    }
  }

  lemma ClimbsConcat(a: seq<Flat>, b: seq<Flat>, depth: nat)
    requires Climbs(a) && Climbs(b) && AtLeast(a, depth)
    requires b != [] ==> b[0].depth <= depth + 1
    ensures Climbs(a + b)
  {
    forall i | 0 <= i < |a + b| - 1
      ensures ClimbsAt(a + b, i)
    {
      if i < |a| - 1 {
        assert ClimbsAt(a, i);
      } else if i == |a| - 1 {
        assert a[i] in a;
      } else {
        assert ClimbsAt(b, i - |a|);
      }
    }
  }

  lemma ClimbsSuffix(list: seq<Flat>, k: nat)
    requires Climbs(list) && k <= |list|
    ensures Climbs(list[k..])
  {
    forall i | 0 <= i < |list[k..]| - 1
      ensures ClimbsAt(list[k..], i)
    {
      assert ClimbsAt(list, k + i);
    }
  }

  lemma {:induction false} PreorderShape(f: seq<Clean>, depth: nat)
    requires Made(f)
    ensures var list := Preorder(f, depth);
      Climbs(list) && AtLeast(list, depth) && AllWellMade(list) && (list == [] || list[0].depth == depth)
    decreases f
  {
    if f != [] {
      var root, below, after := [Row(f[0].attrs, depth)], Preorder(f[0].children, depth + 1), Preorder(f[1..], depth);
      PreorderShape(f[0].children, depth + 1);
      PreorderShape(f[1..], depth);
      ClimbsConcat(root, below, depth);
      assert root + below == Listing(f[0], depth);
      ClimbsConcat(root + below, after, depth);
    }
  }

  /** What is left over is a suffix. */
  lemma {:induction false} ParseSuffix(list: seq<Flat>, depth: nat)
    ensures var rest := Parse(list, depth).1; rest == list[|list| - |rest|..]
    decreases |list|
  {
    if list != [] && list[0].depth == depth {
      var rest := Parse(list[1..], depth + 1).1;
      ParseSuffix(list[1..], depth + 1);
      ParseSuffix(rest, depth);
    }
  }

  lemma {:induction false} ParseStops(list: seq<Flat>, depth: nat)
    requires Climbs(list)
    requires list == [] || list[0].depth <= depth
    ensures Closes(Parse(list, depth).1, depth)
    decreases |list|
  {
    if list != [] && list[0].depth == depth {
      var below := list[1..];
      var rest := Parse(below, depth + 1).1;
      ClimbsSuffix(list, 1);
      assert below != [] ==> ClimbsAt(list, 0);
      ParseStops(below, depth + 1);
      ParseSuffix(below, depth + 1);
      ClimbsSuffix(below, |below| - |rest|);
      ParseStops(rest, depth);
    }
  }

  lemma WellMadeSuffix(list: seq<Flat>, k: nat)
    requires AllWellMade(list) && k <= |list|
    ensures AllWellMade(list[k..])
  {
  }

  lemma RootReads(e: Flat, kids: (seq<Clean>, seq<Flat>), siblings: (seq<Clean>, seq<Flat>), depth: nat)
    requires WellMade(e) && e.depth == depth && Made(kids.0) && Made(siblings.0)
    requires Preorder(siblings.0, depth) + siblings.1 == kids.1
    ensures var f := [Clean(e.attrs, kids.0)] + siblings.0;
      Made(f) && Preorder(f, depth) + siblings.1 == [e] + (Preorder(kids.0, depth + 1) + kids.1)
  {
    var root := Clean(e.attrs, kids.0);
    ConsParts(root, siblings.0);
    ConcatAssoc(Listing(root, depth), Preorder(siblings.0, depth), siblings.1);
    ConcatAssoc([e], Preorder(kids.0, depth + 1), kids.1);
  }

  lemma {:induction false} ParseReads(list: seq<Flat>, depth: nat)
    requires AllWellMade(list)
    ensures var r := Parse(list, depth); Made(r.0) && Preorder(r.0, depth) + r.1 == list
    decreases |list|
  {
    if list != [] && list[0].depth == depth {
      var below := list[1..];
      var kids := Parse(below, depth + 1);
      WellMadeSuffix(list, 1);
      ParseReads(below, depth + 1);
      ParseSuffix(below, depth + 1);
      WellMadeSuffix(below, |below| - |kids.1|);
      ParseReads(kids.1, depth);
      RootReads(list[0], kids, Parse(kids.1, depth), depth);
      HeadTail(list);
    }
  }

  /** The raw tree that a clean one is its own pruning of. */
  function Embed(c: Clean): Tree
    decreases c, 0
  {
    Node(c.attrs, EmbedAll(c.children))
  }

  function EmbedAll(f: seq<Clean>): seq<Tree>
    decreases f, |f|
  {
    if f == [] then [] else EmbedAll(f[..|f| - 1]) + [Embed(f[|f| - 1])]
  }

  lemma {:induction false} MadeAt(f: seq<Clean>, n: nat)
    requires Made(f) && n < |f|
    ensures Made(f[..n]) && Made([f[n]])
    decreases f
  {
    if n == 0 {
      assert [f[0]][1..] == [];
    } else {
      MadeAt(f[1..], n - 1);
      assert f[..n][1..] == f[1..][..n - 1];
    }
  }

  lemma {:induction false} PruneEmbed(c: Clean)
    requires Made([c])
    ensures Prune(Embed(c)) == [c]
    decreases c, 0
  {
    PruneEmbedAll(c.children);
  }

  lemma {:induction false} PruneEmbedAll(f: seq<Clean>)
    requires Made(f)
    ensures PruneAll(EmbedAll(f)) == f
    decreases f, |f|
  {
    if f != [] {
      var n := |f| - 1;
      MadeAt(f, n);
      PruneEmbedAll(f[..n]);
      PruneEmbed(f[n]);
      var ts := EmbedAll(f);
      assert ts[..|ts| - 1] == EmbedAll(f[..n]);
    }
  }

  lemma FlatteningIsTreeShaped(t: Tree)
    ensures TreeShaped(Flatten(t, 0)) && AllWellMade(Flatten(t, 0))
  {
    var f, list := Prune(t), Flatten(t, 0);
    FlattenIsPreorder(t, 0);
    PruneIsMade(t);
    PreorderShape(f, 0);
    if f != [] {
      assert f[1..] == [];
      PreorderShape(f[0].children, 1);
      assert list[1..] == Preorder(f[0].children, 1);
    }
  }

  /** The tree a tree-shaped list came from. */
  function Rebuild(list: seq<Flat>): Tree {
    var f := Parse(list, 0).0;
    if f == [] then Absent else Embed(f[0])
  }

  lemma RebuildFlattens(list: seq<Flat>)
    requires TreeShaped(list) && AllWellMade(list)
    ensures Flatten(Rebuild(list), 0) == list
  {
    if list != [] {
      var kids := Parse(list[1..], 1);
      ClimbsSuffix(list, 1);
      assert list[1..] != [] ==> ClimbsAt(list, 0);
      ParseStops(list[1..], 1);
      ParseSuffix(list[1..], 1);
      assert AtLeast(kids.1, 1);
      ParseReads(list, 0);
      var f := Parse(list, 0).0;
      assert f == [f[0]];
      PruneEmbed(f[0]);
      FlattenIsPreorder(Embed(f[0]), 0);
    }
  }

  /** A list is some snapshot's flattening exactly when it is tree-shaped with well-made entries. */
  lemma FlatteningIff(list: seq<Flat>)
    ensures (exists t :: Flatten(t, 0) == list) <==> TreeShaped(list) && AllWellMade(list)
  {
    if TreeShaped(list) && AllWellMade(list) {
      RebuildFlattens(list);
    }
    forall t | Flatten(t, 0) == list
      ensures TreeShaped(list) && AllWellMade(list)
    {
      FlatteningIsTreeShaped(t);
    }
  }
}
