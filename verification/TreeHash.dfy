/** Structural hashing of syntax trees and the comparison of two hashings by subtree path. */
module TreeHash {
  import opened Prelude

  /** A parse-tree node with the source text its span covers. */
  datatype Node = Node(kind: string, named: bool, text: string, children: seq<Node>)

  datatype Norm = Norm(kind: string, children: seq<Norm>, text: Option<string>)

  type Path = seq<nat>

  datatype Entry = Entry(path: Path, kind: string, digest: string)

  datatype Hashing = Hashing(root: string, subtrees: seq<Entry>)

  /** Comments and anonymous nodes are passed over. */
  predicate Relevant(n: Node) {
    n.named && n.kind != "comment"
  }

  function Kept(children: seq<Node>): (kept: seq<Node>)
    ensures forall n :: n in kept <==> n in children && Relevant(n)
  {
    if children == [] then []
    else (if Relevant(children[0]) then [children[0]] else []) + Kept(children[1..])
  }

  function KeptChildren(n: Node): nat {
    |Kept(n.children)|
  }

  function Child(n: Node, i: nat): (child: Node)
    requires i < KeptChildren(n)
    ensures child < n && Relevant(child)
  {
    var child := Kept(n.children)[i];
    assert child in Kept(n.children);
    child
  }

  /** The normal form forgets coordinates; only a node without kept children shows its text. */
  function Normal(n: Node, withText: bool): Norm {
    Norm(n.kind, seq(KeptChildren(n), i requires 0 <= i < KeptChildren(n) => Normal(Child(n, i), withText)),
         if withText && KeptChildren(n) == 0 then Some(n.text) else None)
  }

  /** Settings of one hashing: the digest of normal forms, and whether leaf text takes part. */
  datatype Hasher = Hasher(digest: Norm -> string, withText: bool)

  function Digest(h: Hasher, n: Node): string {
    h.digest(Normal(n, h.withText))
  }

  ghost predicate CollisionFree(h: Hasher) {
    forall a, b :: h.digest(a) == h.digest(b) ==> a == b
  }

  // Walking -----------------------------------------------------------------------------------

  /** The subtree at a path of kept-child positions. */
  function At(n: Node, path: Path): Option<Node>
    decreases |path|
  {
    if path == [] then Some(n)
    else if path[0] < KeptChildren(n) then At(Child(n, path[0]), path[1..])
    else None
  }

  /** A walk lists a subtree before those below it. */
  function Subtrees(h: Hasher, n: Node, path: Path): seq<Entry>
    decreases n, 1
  {
    (if Relevant(n) then [Entry(path, n.kind, Digest(h, n))] else []) + Below(h, n, path, KeptChildren(n))
  }

  /** The entries under the first `count` kept children. */
  function Below(h: Hasher, n: Node, path: Path, count: nat): seq<Entry>
    requires count <= KeptChildren(n)
    decreases n, 0, count
  {
    if count == 0 then []
    else Below(h, n, path, count - 1) + Subtrees(h, Child(n, count - 1), path + [count - 1])
  }

  lemma BelowNext(h: Hasher, n: Node, path: Path, i: nat, child: Node, here: Path, before: seq<Entry>)
    requires i < KeptChildren(n) && child == Child(n, i) && here == path + [i]
    ensures before + Below(h, n, path, i) + Subtrees(h, child, here) == before + Below(h, n, path, i + 1)
  {
  }

  class TreeHasher {
    const h: Hasher
    var subtrees: seq<Entry>

    constructor (h: Hasher)
      ensures this.h == h && subtrees == []
    {
      this.h := h;
      subtrees := [];
    }

    method Walk(n: Node, path: Path)
      modifies this
      ensures subtrees == old(subtrees) + Subtrees(h, n, path)
      decreases n, 1
    {
      if Relevant(n) {
        subtrees := subtrees + [Entry(path, n.kind, Digest(h, n))];
      }
      WalkChildren(n, path);
    }

    method WalkChildren(n: Node, path: Path)
      modifies this
      ensures subtrees == old(subtrees) + Below(h, n, path, KeptChildren(n))
      decreases n, 0
    {
      ghost var before := subtrees;
      var count := KeptChildren(n);
      for i := 0 to count
        invariant subtrees == before + Below(h, n, path, i)
      {
        var child, here := Child(n, i), path + [i];
        Walk(child, here);
        BelowNext(h, n, path, i, child, here, before);
      }
    }
  }

  method HashTree(h: Hasher, root: Node) returns (r: Hashing)
    ensures r == Hashing(Digest(h, root), Subtrees(h, root, []))
  {
    var hasher := new TreeHasher(h);
    hasher.Walk(root, []);
    return Hashing(Digest(h, root), hasher.subtrees);
  }

  // Comparing ---------------------------------------------------------------------------------

  /** The digest a listing gives for a path; a later entry for the same path would win. */
  function Lookup(entries: seq<Entry>, path: Path): Option<string> {
    if entries == [] then None
    else
      var last := entries[|entries|-1];
      if last.path == path then Some(last.digest) else Lookup(entries[..|entries|-1], path)
  }

  method DigestsByPath(entries: seq<Entry>) returns (m: map<Path, string>)
    ensures forall p :: Lookup(entries, p) == if p in m then Some(m[p]) else None
  {
    m := map[];
    for i := 0 to |entries|
      invariant forall p :: Lookup(entries[..i], p) == if p in m then Some(m[p]) else None
    {
      assert entries[..i+1][..i] == entries[..i];
      m := m[entries[i].path := entries[i].digest];
    }
    assert entries[..|entries|] == entries;
  }

  method CompareHashes(before: Hashing, after: Hashing) returns (rootChanged: bool, changed: set<Path>, same: set<Path>)
    ensures rootChanged <==> before.root != after.root
    ensures forall p :: (p in changed <==> Lookup(before.subtrees, p) != Lookup(after.subtrees, p))
    ensures forall p :: (p in same <==>
      Lookup(before.subtrees, p).Some? && Lookup(before.subtrees, p) == Lookup(after.subtrees, p))
  {
    var b := DigestsByPath(before.subtrees);
    var a := DigestsByPath(after.subtrees);
    var paths := b.Keys + a.Keys;
    changed := set p | p in paths && !(p in b && p in a && b[p] == a[p]);
    same := set p | p in paths && p in b && p in a && b[p] == a[p];
    rootChanged := before.root != after.root;
  }

  /** What a hashing says about a path, read off the tree. */
  function DigestAt(h: Hasher, n: Node, path: Path): Option<string> {
    var at := At(n, path);
    if at.None? || (path == [] && !Relevant(n)) then None else Some(Digest(h, at.value))
  }

  lemma {:induction false} LookupConcat(a: seq<Entry>, b: seq<Entry>, path: Path)
    ensures Lookup(a + b, path) == if Lookup(b, path).Some? then Lookup(b, path) else Lookup(a, path)
  {
    if b == [] {
      assert a + b == a;
    } else {
      assert (a + b)[..|a + b|-1] == a + b[..|b|-1];
      LookupConcat(a, b[..|b|-1], path);
    }
  }

  /** What the entries under the first `count` kept children say about a path. */
  function DigestBelow(h: Hasher, n: Node, prefix: Path, count: nat, path: Path): Option<string> {
    if prefix < path && path[|prefix|] < count then DigestAt(h, n, path[|prefix|..]) else None
  }

  function DigestUnder(h: Hasher, n: Node, prefix: Path, path: Path): Option<string> {
    if prefix <= path then DigestAt(h, n, path[|prefix|..]) else None
  }

  lemma {:induction false} LookupBelow(h: Hasher, n: Node, prefix: Path, count: nat, path: Path)
    requires count <= KeptChildren(n)
    ensures Lookup(Below(h, n, prefix, count), path) == DigestBelow(h, n, prefix, count, path)
    decreases n, 0, count
  {
    if count > 0 {
      var i := count - 1;
      var child, here := Child(n, i), prefix + [i];
      LookupBelow(h, n, prefix, i, path);
      LookupSubtrees(h, child, here, path);
      LookupOneMore(h, n, prefix, i, path, child, here);
    }
  }

  lemma LookupOneMore(h: Hasher, n: Node, prefix: Path, i: nat, path: Path, child: Node, here: Path)
    requires i < KeptChildren(n) && child == Child(n, i) && here == prefix + [i]
    requires Lookup(Below(h, n, prefix, i), path) == DigestBelow(h, n, prefix, i, path)
    requires Lookup(Subtrees(h, child, here), path) == DigestUnder(h, child, here, path)
    ensures Lookup(Below(h, n, prefix, i + 1), path) == DigestBelow(h, n, prefix, i + 1, path)
  {
    LookupConcat(Below(h, n, prefix, i), Subtrees(h, child, here), path);
    Extension(prefix, path, i);
    if here <= path {
      DigestAtChild(h, n, i, path[|prefix| + 1..]);
    }
  }

  lemma Extension(prefix: Path, path: Path, i: nat)
    ensures prefix + [i] <= path <==> prefix < path && path[|prefix|] == i
    ensures prefix + [i] <= path ==> path[|prefix|..] == [i] + path[|prefix| + 1..]
  {
    if prefix < path {
      assert path[..|prefix|+1] == prefix + [path[|prefix|]];
    }
  }

  lemma DigestAtChild(h: Hasher, n: Node, i: nat, rest: Path)
    requires i < KeptChildren(n)
    ensures DigestAt(h, n, [i] + rest) == DigestAt(h, Child(n, i), rest)
  {
    assert ([i] + rest)[1..] == rest;
  }

  /** A hashing lists exactly the subtrees of its tree, each once and with its own digest. */
  lemma {:induction false} LookupSubtrees(h: Hasher, n: Node, prefix: Path, path: Path)
    ensures Lookup(Subtrees(h, n, prefix), path) == DigestUnder(h, n, prefix, path)
    decreases n, 1
  {
    var own := if Relevant(n) then [Entry(prefix, n.kind, Digest(h, n))] else [];
    LookupConcat(own, Below(h, n, prefix, KeptChildren(n)), path);
    LookupBelow(h, n, prefix, KeptChildren(n), path);
    if Relevant(n) {
      assert own[..0] == [];
    }
    if prefix <= path && |path| > |prefix| {
      assert path[|prefix|..][0] == path[|prefix|];
    }
  }

  /** Comparing two hashed trees therefore finds exactly the paths at which they differ. */
  method CompareTrees(h: Hasher, a: Node, b: Node) returns (rootChanged: bool, changed: set<Path>)
    ensures rootChanged <==> Digest(h, a) != Digest(h, b)
    ensures forall p :: (p in changed <==> Changed(h, a, b, p))
  {
    var before := HashTree(h, a);
    var after := HashTree(h, b);
    var same;
    rootChanged, changed, same := CompareHashes(before, after);
    forall p
      ensures p in changed <==> Changed(h, a, b, p)
    {
      LookupSubtrees(h, a, [], p);
      LookupSubtrees(h, b, [], p);
      assert p[0..] == p;
    }
  }

  // Changed paths -----------------------------------------------------------------------------

  predicate Changed(h: Hasher, a: Node, b: Node, path: Path) {
    DigestAt(h, a, path) != DigestAt(h, b, path)
  }

  lemma {:induction false} AtConcat(n: Node, p: Path, q: Path)
    ensures At(n, p + q) == if At(n, p).Some? then At(At(n, p).value, q) else None
    decreases |p|
  {
    if p == [] {
      assert p + q == q;
    } else {
      assert (p + q)[1..] == p[1..] + q;
      if p[0] < KeptChildren(n) {
        AtConcat(Child(n, p[0]), p[1..], q);
      }
    }
  }

  /** Equal normal forms have equal normal forms below them, place by place. */
  lemma {:induction false} SameBelow(a: Node, b: Node, withText: bool, path: Path)
    requires Normal(a, withText) == Normal(b, withText)
    ensures At(a, path).Some? <==> At(b, path).Some?
    ensures At(a, path).Some? ==> Normal(At(a, path).value, withText) == Normal(At(b, path).value, withText)
    decreases |path|
  {
    assert KeptChildren(a) == |Normal(a, withText).children| == KeptChildren(b);
    if path != [] && path[0] < KeptChildren(a) {
      var i := path[0];
      assert Normal(a, withText).children[i] == Normal(Child(a, i), withText);
      assert Normal(b, withText).children[i] == Normal(Child(b, i), withText);
      SameBelow(Child(a, i), Child(b, i), withText, path[1..]);
    }
  }

  /** Under a named root the changed paths are closed under taking ancestors. */
  lemma AncestorsChange(h: Hasher, a: Node, b: Node, path: Path, ancestor: Path)
    requires CollisionFree(h) && (Relevant(a) || Relevant(b))
    requires ancestor <= path && Changed(h, a, b, path)
    ensures Changed(h, a, b, ancestor)
  {
    var rest := path[|ancestor|..];
    assert path == ancestor + rest;
    AtConcat(a, ancestor, rest);
    AtConcat(b, ancestor, rest);
    if !Changed(h, a, b, ancestor) && At(a, ancestor).Some? && At(b, ancestor).Some? {
      SameBelow(At(a, ancestor).value, At(b, ancestor).value, h.withText, rest);
    }
  }

  /** With named roots, the root changed exactly when some listed path did. */
  lemma RootChangedExactly(h: Hasher, a: Node, b: Node)
    requires CollisionFree(h) && Relevant(a) && Relevant(b)
    ensures Digest(h, a) != Digest(h, b) <==> exists path :: Changed(h, a, b, path)
  {
    if path :| Changed(h, a, b, path) {
      AncestorsChange(h, a, b, path, []);
    }
    if Digest(h, a) != Digest(h, b) {
      assert Changed(h, a, b, []);
    }
  }

  /** Under an unnamed root a path can change while the root's own entry does not exist. */
  lemma UnnamedRootHidesChange(h: Hasher)
    requires CollisionFree(h)
    ensures exists a, b, path :: Changed(h, a, b, path) && !Changed(h, a, b, []) && path != []
  {
    var leaf, leaf' := Node("x", true, "", []), Node("y", true, "", []);
    var a, b := OverLeaf(leaf), OverLeaf(leaf');
    assert Normal(leaf, h.withText).kind == "x" && Normal(leaf', h.withText).kind == "y";
    assert Changed(h, a, b, [0]) && !Changed(h, a, b, []);
  }

  /** An unnamed root over one leaf. */
  function OverLeaf(leaf: Node): (root: Node)
    requires Relevant(leaf)
    ensures !Relevant(root) && At(root, [0]) == Some(leaf)
  {
    assert Kept([leaf]) == [leaf];
    Node("r", false, "", [leaf])
  }

  // Edits that do not matter ------------------------------------------------------------------

  /** The same tree up to passed-over children anywhere, and up to the text of nodes with kept children. */
  ghost predicate Alike(a: Node, b: Node, withText: bool) {
    && a.kind == b.kind && KeptChildren(a) == KeptChildren(b)
    && (withText && KeptChildren(a) == 0 ==> a.text == b.text)
    && forall i :: 0 <= i < KeptChildren(a) ==> Alike(Child(a, i), Child(b, i), withText)
  }

  lemma {:induction false} AlikeExactlySameNormal(a: Node, b: Node, withText: bool)
    ensures Alike(a, b, withText) <==> Normal(a, withText) == Normal(b, withText)
    decreases a
  {
    var na, nb := Normal(a, withText), Normal(b, withText);
    assert |na.children| == KeptChildren(a) && |nb.children| == KeptChildren(b);
    if KeptChildren(a) == KeptChildren(b) {
      forall i | 0 <= i < KeptChildren(a)
        ensures Alike(Child(a, i), Child(b, i), withText) <==> na.children[i] == nb.children[i]
      {
        AlikeExactlySameNormal(Child(a, i), Child(b, i), withText);
      }
      if Alike(a, b, withText) {
        assert na.children == nb.children;
      }
    }
  }

  /** No digest tells two trees apart exactly when they are alike. */
  lemma DigestsAgreeExactly(h: Hasher, a: Node, b: Node)
    requires CollisionFree(h) && a.named == b.named
    ensures Alike(a, b, h.withText) <==> Digest(h, a) == Digest(h, b)
    ensures Alike(a, b, h.withText) ==> forall path :: !Changed(h, a, b, path)
  {
    AlikeExactlySameNormal(a, b, h.withText);
    if Alike(a, b, h.withText) {
      forall path
        ensures !Changed(h, a, b, path)
      {
        SameBelow(a, b, h.withText, path);
      }
    }
  }

  lemma {:induction false} InsertPassedOver(children: seq<Node>, i: nat, n: Node)
    requires i <= |children| && !Relevant(n)
    ensures Kept(children[..i] + [n] + children[i..]) == Kept(children)
  {
    var more := children[..i] + [n] + children[i..];
    if i == 0 {
      assert more[1..] == children;
    } else {
      assert more[1..] == children[1..][..i - 1] + [n] + children[1..][i - 1..];
      InsertPassedOver(children[1..], i - 1, n);
    }
  }

  lemma AlikeItself(n: Node, withText: bool)
    ensures Alike(n, n, withText)
  {
    AlikeExactlySameNormal(n, n, withText);
  }

  /** The children with the `k`-th kept one replaced. */
  function WithChild(children: seq<Node>, k: nat, child: Node): seq<Node>
    requires k < |Kept(children)|
  {
    if !Relevant(children[0]) then [children[0]] + WithChild(children[1..], k, child)
    else if k == 0 then [child] + children[1..]
    else [children[0]] + WithChild(children[1..], k - 1, child)
  }

  lemma {:induction false} KeptWithChild(children: seq<Node>, k: nat, child: Node)
    requires k < |Kept(children)| && Relevant(child)
    ensures Kept(WithChild(children, k, child)) == Kept(children)[k := child]
  {
    var edited := WithChild(children, k, child);
    if !Relevant(children[0]) {
      KeptWithChild(children[1..], k, child);
      assert edited[1..] == WithChild(children[1..], k, child);
    } else if k == 0 {
      assert edited[1..] == children[1..];
    } else {
      KeptWithChild(children[1..], k - 1, child);
      assert edited[1..] == WithChild(children[1..], k - 1, child);
    }
  }

  /** May `extra` be put in at place `i` of the subtree at `path` without becoming part of a leaf? */
  predicate Insertable(n: Node, path: Path, i: nat, extra: Node) {
    var at := At(n, path);
    at.Some? && i <= |at.value.children| && KeptChildren(at.value) > 0 && !Relevant(extra)
  }

  /** The tree with `extra` put in there; `texts` is what the nodes on the way now cover. */
  function Inserted(n: Node, path: Path, i: nat, extra: Node, texts: seq<string>): Node
    requires Insertable(n, path, i, extra) && |texts| == |path| + 1
    decreases |path|
  {
    if path == [] then n.(children := n.children[..i] + [extra] + n.children[i..], text := texts[0])
    else
      var child := Inserted(Child(n, path[0]), path[1..], i, extra, texts[1..]);
      n.(children := WithChild(n.children, path[0], child), text := texts[0])
  }

  lemma {:induction false} InsertedIsAlike(n: Node, path: Path, i: nat, extra: Node, texts: seq<string>, withText: bool)
    requires Insertable(n, path, i, extra) && |texts| == |path| + 1
    ensures var edited := Inserted(n, path, i, extra, texts);
      edited.named == n.named && edited.kind == n.kind && Alike(n, edited, withText)
    decreases |path|
  {
    var edited := Inserted(n, path, i, extra, texts);
    if path == [] {
      InsertPassedOver(n.children, i, extra);
      AlikeChildren(n, edited, withText);
    } else {
      var k := path[0];
      InsertedIsAlike(Child(n, k), path[1..], i, extra, texts[1..], withText);
      KeptWithChild(n.children, k, Inserted(Child(n, k), path[1..], i, extra, texts[1..]));
      forall c | 0 <= c < KeptChildren(n)
        ensures Alike(Child(n, c), Child(edited, c), withText)
      {
        AlikeItself(Child(n, c), withText);
      }
    }
  }

  lemma AlikeChildren(a: Node, b: Node, withText: bool)
    requires a.kind == b.kind && Kept(a.children) == Kept(b.children) != []
    ensures Alike(a, b, withText)
  {
    forall k | 0 <= k < KeptChildren(a)
      ensures Alike(Child(a, k), Child(b, k), withText)
    {
      AlikeItself(Child(a, k), withText);
    }
  }

  /**
   A comment or anonymous child put into any node of the tree that keeps a child, with whatever text the
   nodes around it then cover, changes no digest.
   */
  lemma CommentsDoNotMatter(h: Hasher, root: Node, path: Path, i: nat, extra: Node, texts: seq<string>)
    requires Insertable(root, path, i, extra) && |texts| == |path| + 1
    ensures var edited := Inserted(root, path, i, extra, texts);
      && Alike(root, edited, h.withText) && Digest(h, edited) == Digest(h, root)
      && forall p :: !Changed(h, root, edited, p)
  {
    var edited := Inserted(root, path, i, extra, texts);
    InsertedIsAlike(root, path, i, extra, texts, h.withText);
    AlikeExactlySameNormal(root, edited, h.withText);
    forall p
      ensures !Changed(h, root, edited, p)
    {
      SameBelow(root, edited, h.withText, p);
    }
  }

  /** In a node without kept children the comment's text becomes leaf text and does matter. */
  lemma CommentInLeafMatters(h: Hasher, n: Node, comment: Node, text: string)
    requires CollisionFree(h) && h.withText && KeptChildren(n) == 0 && !Relevant(comment) && text != n.text
    ensures Digest(h, n.(children := n.children + [comment], text := text)) != Digest(h, n)
  {
    var edited := n.(children := n.children + [comment], text := text);
    InsertPassedOver(n.children, |n.children|, comment);
    assert n.children[..|n.children|] + [comment] + n.children[|n.children|..] == n.children + [comment];
    AlikeExactlySameNormal(n, edited, true);
  }
}
