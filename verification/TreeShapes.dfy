/** What a hashing keeps of a tree: which children, which text, and its listing in reading order. */
module TreeShapes {
  import opened Prelude
  import opened TreeHash

  /** Exactly the named children that are not comments are kept, in their order. */
  lemma {:induction false} KeptSplits(a: seq<Node>, b: seq<Node>)
    ensures Kept(a + b) == Kept(a) + Kept(b)
  {
    if a == [] {
      assert a + b == b;
    } else {
      assert (a + b)[1..] == a[1..] + b;
      KeptSplits(a[1..], b);
    }
  }

  lemma KeptOne(n: Node)
    ensures Kept([n]) == if !n.named || n.kind == "comment" then [] else [n]
  {
    assert [n][1..] == [];
  }

  /** The normal form of a node: its kind, those of its kept children, and its text only when it has none. */
  lemma NormalReads(n: Node, withText: bool)
    ensures var norm := Normal(n, withText);
      && norm.kind == n.kind && |norm.children| == |Kept(n.children)|
      && (forall i :: 0 <= i < |norm.children| ==> norm.children[i] == Normal(Kept(n.children)[i], withText))
      && (norm.text.Some? <==> withText && forall c :: c in n.children ==> !c.named || c.kind == "comment")
      && (norm.text.Some? ==> norm.text.value == n.text)
  {
    if Kept(n.children) != [] {
      assert Kept(n.children)[0] in Kept(n.children);
    }
    forall c
      ensures c in Kept(n.children) <==> c in n.children && c.named && c.kind != "comment"
    {
    }
  }

  // The listing ---------------------------------------------------------------------------------

  /** The entry stands for the subtree at its place. */
  predicate IsSubtree(h: Hasher, n: Node, prefix: Path, e: Entry) {
    && prefix <= e.path
    && var at := At(n, e.path[|prefix|..]);
       at.Some? && e.kind == at.value.kind && e.digest == Digest(h, at.value)
  }

  lemma {:induction false} EntryIsSubtree(h: Hasher, n: Node, prefix: Path, e: Entry)
    requires e in Subtrees(h, n, prefix)
    ensures IsSubtree(h, n, prefix, e)
    decreases n, 1, 0
  {
    if e in Below(h, n, prefix, KeptChildren(n)) {
      EntryBelow(h, n, prefix, KeptChildren(n), e);
    } else {
      assert e.path == prefix && e.path[|prefix|..] == [];
    }
  }

  lemma {:induction false} EntryBelow(h: Hasher, n: Node, prefix: Path, count: nat, e: Entry)
    requires count <= KeptChildren(n) && e in Below(h, n, prefix, count)
    ensures IsSubtree(h, n, prefix, e) && prefix < e.path && e.path[|prefix|] < count
    decreases n, 0, count
  {
    if e in Below(h, n, prefix, count - 1) {
      EntryBelow(h, n, prefix, count - 1, e);
    } else {
      var here := prefix + [count - 1];
      EntryIsSubtree(h, Child(n, count - 1), here, e);
      Extension(prefix, e.path, count - 1);
      assert e.path[|here|..] == e.path[|prefix|..][1..];
    }
  }

  /** Reading order: a subtree before those below it, and those before the ones to their right. */
  predicate Earlier(p: Path, q: Path) {
    q != [] && (p == [] || p[0] < q[0] || (p[0] == q[0] && Earlier(p[1..], q[1..])))
  }

  lemma {:induction false} EarlierUnder(prefix: Path, p: Path, q: Path)
    requires prefix <= p && prefix <= q && Earlier(p[|prefix|..], q[|prefix|..])
    ensures Earlier(p, q)
  {
    if prefix != [] {
      assert p[1..][|prefix[1..]|..] == p[|prefix|..] && q[1..][|prefix[1..]|..] == q[|prefix|..];
      EarlierUnder(prefix[1..], p[1..], q[1..]);
    } else {
      assert p[|prefix|..] == p && q[|prefix|..] == q;
    }
  }

  predicate InReadingOrder(entries: seq<Entry>) {
    forall i, j :: 0 <= i < j < |entries| ==> Earlier(entries[i].path, entries[j].path)
  }

  lemma OrderConcat(a: seq<Entry>, b: seq<Entry>)
    requires InReadingOrder(a) && InReadingOrder(b)
    requires forall x, y :: x in a && y in b ==> Earlier(x.path, y.path)
    ensures InReadingOrder(a + b)
  {
    var all := a + b;
    forall i, j | 0 <= i < j < |all|
      ensures Earlier(all[i].path, all[j].path)
    {
      if i < |a| <= j {
        assert all[i] in a && all[j] in b;
      }
    }
  }

  /** Every hashing lists its subtrees in reading order, no place twice. */
  lemma {:induction false} ListedInOrder(h: Hasher, n: Node, prefix: Path)
    ensures InReadingOrder(Subtrees(h, n, prefix))
    decreases n, 1, 0
  {
    var below := Below(h, n, prefix, KeptChildren(n));
    BelowInOrder(h, n, prefix, KeptChildren(n));
    var own := if Relevant(n) then [Entry(prefix, n.kind, Digest(h, n))] else [];
    forall x, y | x in own && y in below
      ensures Earlier(x.path, y.path)
    {
      EntryBelow(h, n, prefix, KeptChildren(n), y);
      EarlierUnder(prefix, x.path, y.path);
    }
    OrderConcat(own, below);
  }

  /** All entries lie under the first `count` children of the place. */
  predicate AllUnder(entries: seq<Entry>, prefix: Path, count: nat) {
    forall e :: e in entries ==> prefix < e.path && e.path[|prefix|] < count
  }

  predicate AllFrom(entries: seq<Entry>, here: Path) {
    forall e :: e in entries ==> here <= e.path
  }

  lemma BelowIsUnder(h: Hasher, n: Node, prefix: Path, count: nat)
    requires count <= KeptChildren(n)
    ensures AllUnder(Below(h, n, prefix, count), prefix, count)
  {
    forall e | e in Below(h, n, prefix, count)
      ensures prefix < e.path && e.path[|prefix|] < count
    {
      EntryBelow(h, n, prefix, count, e);
    }
  }

  lemma SubtreesAreFrom(h: Hasher, n: Node, here: Path)
    ensures AllFrom(Subtrees(h, n, here), here)
  {
    forall e | e in Subtrees(h, n, here)
      ensures here <= e.path
    {
      EntryIsSubtree(h, n, here, e);
    }
  }

  lemma {:induction false} BelowInOrder(h: Hasher, n: Node, prefix: Path, count: nat)
    requires count <= KeptChildren(n)
    ensures InReadingOrder(Below(h, n, prefix, count))
    decreases n, 0, count
  {
    if count > 0 {
      var before, here := Below(h, n, prefix, count - 1), prefix + [count - 1];
      var last := Subtrees(h, Child(n, count - 1), here);
      BelowInOrder(h, n, prefix, count - 1);
      ListedInOrder(h, Child(n, count - 1), here);
      BelowIsUnder(h, n, prefix, count - 1);
      SubtreesAreFrom(h, Child(n, count - 1), here);
      AllLeftOf(before, last, prefix, count - 1);
      OrderConcat(before, last);
    }
  }

  lemma AllLeftOf(before: seq<Entry>, last: seq<Entry>, prefix: Path, i: nat)
    requires AllUnder(before, prefix, i) && AllFrom(last, prefix + [i])
    ensures forall x, y :: x in before && y in last ==> Earlier(x.path, y.path)
  {
    forall x, y | x in before && y in last
      ensures Earlier(x.path, y.path)
    {
      LeftOf(prefix, i, x.path, y.path);
    }
  }

  lemma LeftOf(prefix: Path, i: nat, p: Path, q: Path)
    requires prefix < p && p[|prefix|] < i && prefix + [i] <= q
    ensures Earlier(p, q)
  {
    Extension(prefix, q, i);
    EarlierUnder(prefix, p, q);
  }
}
