/** The Merkle identity of a context pack's components and the difference of two such identities. */
module ContextMerkle {
  import opened Prelude

  datatype Component = Policy | Usage | Selection | Exclusions | Compression | Lineage

  const ORDER: seq<Component> := [Policy, Usage, Selection, Exclusions, Compression, Lineage]

  /** The digests of a component's payload and of a pair of digests. */
  datatype Hashes<!P> = Hashes(leaf: (Component, P) -> string, pair: (string, string) -> string)

  ghost predicate CollisionFree<P(!new)>(h: Hashes<P>) {
    && (forall c, p, c', p' :: h.leaf(c, p) == h.leaf(c', p') ==> c == c' && p == p')
    && (forall x, y, x', y' :: h.pair(x, y) == h.pair(x', y') ==> x == x' && y == y')
  }

  datatype Leaf = Leaf(identity: Component, digest: string)

  datatype Merkle = Merkle(leaves: seq<Leaf>, root: string, height: nat)

  function Position(c: Component): (k: nat)
    ensures k < |ORDER| && ORDER[k] == c
  {
    match c
    case Policy => 0
    case Usage => 1
    case Selection => 2
    case Exclusions => 3
    case Compression => 4
    case Lineage => 5
  }

  // Levels ------------------------------------------------------------------------------------

  /** The level above: neighbours paired, an odd last node with itself. */
  function Above(pair: (string, string) -> string, level: seq<string>): (above: seq<string>)
    ensures |above| == (|level| + 1) / 2
  {
    seq((|level| + 1) / 2, i requires 0 <= i < (|level| + 1) / 2 =>
      pair(level[2 * i], level[if 2 * i + 1 < |level| then 2 * i + 1 else 2 * i]))
  }

  function Root(pair: (string, string) -> string, level: seq<string>): string
    requires level != []
    decreases |level|
  {
    if |level| == 1 then level[0] else Root(pair, Above(pair, level))
  }

  /** The number of levels above and including one of `n` nodes. */
  function Height(n: nat): nat {
    if n <= 1 then 1 else 1 + Height((n + 1) / 2)
  }

  method PairUp(pair: (string, string) -> string, current: seq<string>) returns (next: seq<string>)
    ensures next == Above(pair, current)
  {
    next := [];
    var index := 0;
    while index < |current|
      invariant index == 2 * |next| && |next| <= (|current| + 1) / 2
      invariant forall i :: 0 <= i < |next| ==> next[i] == Above(pair, current)[i]
    {
      var left := current[index];
      var right := if index + 1 < |current| then current[index + 1] else left;
      next := next + [pair(left, right)];
      index := index + 2;
    }
  }

  /** The pairing loop ends, with the root of its leaves. */
  method BuildContextMerkle<P>(h: Hashes<P>, pack: Component -> P) returns (m: Merkle)
    ensures m.leaves == seq(|ORDER|, i requires 0 <= i < |ORDER| => Leaf(ORDER[i], h.leaf(ORDER[i], pack(ORDER[i]))))
    ensures m.root == Root(h.pair, LeafDigests(h, pack)) && m.height == Height(|ORDER|)
  {
    var leaves: seq<Leaf> := [];
    for i := 0 to |ORDER|
      invariant |leaves| == i
      invariant forall k :: 0 <= k < i ==> leaves[k] == Leaf(ORDER[k], h.leaf(ORDER[k], pack(ORDER[k])))
    {
      leaves := leaves + [Leaf(ORDER[i], h.leaf(ORDER[i], pack(ORDER[i])))];
    }
    var current := seq(|leaves|, i requires 0 <= i < |leaves| => leaves[i].digest);
    assert current == LeafDigests(h, pack);
    var levels := 1;
    while |current| > 1
      invariant current != [] && Root(h.pair, current) == Root(h.pair, LeafDigests(h, pack))
      invariant levels + Height(|current|) == 1 + Height(|ORDER|)
      decreases |current|
    {
      current := PairUp(h.pair, current);
      levels := levels + 1;
    }
    return Merkle(leaves, current[0], levels);
  }

  function LeafDigests<P>(h: Hashes<P>, pack: Component -> P): (digests: seq<string>)
    ensures |digests| == 6
  {
    seq(|ORDER|, i requires 0 <= i < |ORDER| => h.leaf(ORDER[i], pack(ORDER[i])))
  }

  // Equal roots -------------------------------------------------------------------------------

  ghost predicate InjectivePair(pair: (string, string) -> string) {
    forall x, y, x', y' :: pair(x, y) == pair(x', y') ==> x == x' && y == y'
  }

  lemma AboveIsInjective(pair: (string, string) -> string, a: seq<string>, b: seq<string>)
    requires InjectivePair(pair) && |a| == |b| && Above(pair, a) == Above(pair, b)
    ensures a == b
  {
    forall k | 0 <= k < |a|
      ensures a[k] == b[k]
    {
      var i := k / 2;
      assert Above(pair, a)[i] == Above(pair, b)[i];
      assert k == 2 * i || k == 2 * i + 1;
    }
  }

  /** For leaf lists of one length, whatever that length: equal roots exactly for equal leaves. */
  lemma {:induction false} EqualRootsExactly(pair: (string, string) -> string, a: seq<string>, b: seq<string>)
    requires InjectivePair(pair) && |a| == |b| && a != []
    ensures Root(pair, a) == Root(pair, b) <==> a == b
    decreases |a|
  {
    if |a| > 1 {
      EqualRootsExactly(pair, Above(pair, a), Above(pair, b));
      if Above(pair, a) == Above(pair, b) {
        AboveIsInjective(pair, a, b);
      }
    }
  }

  /** Lists of different lengths can share a root: a repeated last node is not seen. */
  lemma RepeatedLastIsHidden(pair: (string, string) -> string, a: seq<string>)
    requires |a| > 1 && |a| % 2 == 1
    ensures Root(pair, a + [a[|a|-1]]) == Root(pair, a)
  {
    RepeatedLastAbove(pair, a, a + [a[|a|-1]]);
  }

  lemma RepeatedLastAbove(pair: (string, string) -> string, a: seq<string>, b: seq<string>)
    requires |a| % 2 == 1 && b == a + [a[|a|-1]]
    ensures Above(pair, b) == Above(pair, a)
  {
    forall i | 0 <= i < |Above(pair, a)|
      ensures Above(pair, b)[i] == Above(pair, a)[i]
    {
      assert b[2 * i] == a[2 * i];
    }
  }

  // Differences -------------------------------------------------------------------------------

  function DigestsByComponent(m: Merkle): map<Component, string> {
    map leaf | leaf in m.leaves :: leaf.identity := Lookup(m.leaves, leaf.identity)
  }

  /** A later leaf of the same component would win. */
  function Lookup(leaves: seq<Leaf>, c: Component): string {
    if leaves == [] then ""
    else if leaves[|leaves|-1].identity == c then leaves[|leaves|-1].digest
    else Lookup(leaves[..|leaves|-1], c)
  }

  method DiffContextMerkle(before: Merkle, after: Merkle)
    returns (changed: set<Component>, same: set<Component>, rootChanged: bool)
    ensures changed !! same && changed + same == Listed(before) + Listed(after)
    ensures Listed(before) !! Listed(after) ==> same == {}
    ensures OnePerComponent(before.leaves) && OnePerComponent(after.leaves) ==>
      forall leaf :: leaf in before.leaves ==> (leaf.identity in same <==> leaf in after.leaves)
    ensures before == after ==> changed == {} && !rootChanged
    ensures rootChanged <==> before.root != after.root
  {
    var b, a := DigestsByComponent(before), DigestsByComponent(after);
    SharedLeaves(before, after);
    changed := set c | c in b.Keys + a.Keys && !(c in b && c in a && b[c] == a[c]);
    same := set c | c in b.Keys + a.Keys && c in b && c in a && b[c] == a[c];
    rootChanged := before.root != after.root;
  }

  function Listed(m: Merkle): set<Component> {
    set leaf | leaf in m.leaves :: leaf.identity
  }

  predicate OnePerComponent(leaves: seq<Leaf>) {
    forall i, j :: 0 <= i < j < |leaves| ==> leaves[i].identity != leaves[j].identity
  }

  /** With one leaf per component, equal digests of a component are a leaf that both lists hold. */
  lemma SharedLeaves(before: Merkle, after: Merkle)
    ensures DigestsByComponent(before).Keys == Listed(before) && DigestsByComponent(after).Keys == Listed(after)
    ensures OnePerComponent(before.leaves) && OnePerComponent(after.leaves) ==>
      forall leaf :: leaf in before.leaves ==>
        (leaf in after.leaves <==>
          leaf.identity in Listed(after) && Lookup(before.leaves, leaf.identity) == Lookup(after.leaves, leaf.identity))
  {
    if OnePerComponent(before.leaves) && OnePerComponent(after.leaves) {
      forall leaf | leaf in before.leaves
        ensures leaf in after.leaves <==>
          leaf.identity in Listed(after) && Lookup(before.leaves, leaf.identity) == Lookup(after.leaves, leaf.identity)
      {
        LeafDigest(before.leaves, leaf);
        if leaf.identity in Listed(after) {
          var other :| other in after.leaves && other.identity == leaf.identity;
          LeafDigest(after.leaves, other);
          if leaf in after.leaves {
            LeafDigest(after.leaves, leaf);
          }
        }
      }
    }
  }

  lemma LeafDigest(leaves: seq<Leaf>, leaf: Leaf)
    requires OnePerComponent(leaves) && leaf in leaves
    ensures Lookup(leaves, leaf.identity) == leaf.digest
  {
    var k :| 0 <= k < |leaves| && leaves[k] == leaf;
    LookupLeaf(leaves, k);
  }

  lemma {:induction false} LookupLeaf(leaves: seq<Leaf>, k: nat)
    requires k < |leaves| && OnePerComponent(leaves)
    ensures Lookup(leaves, leaves[k].identity) == leaves[k].digest
  {
    if k < |leaves| - 1 {
      LookupLeaf(leaves[..|leaves|-1], k);
    }
  }

  lemma BuiltDigests<P>(h: Hashes<P>, pack: Component -> P, m: Merkle)
    requires m.leaves == seq(|ORDER|, i requires 0 <= i < |ORDER| => Leaf(ORDER[i], h.leaf(ORDER[i], pack(ORDER[i]))))
    ensures forall c :: c in DigestsByComponent(m) && DigestsByComponent(m)[c] == h.leaf(c, pack(c))
  {
    forall c
      ensures c in DigestsByComponent(m) && DigestsByComponent(m)[c] == h.leaf(c, pack(c))
    {
      var k := Position(c);
      assert ORDER[k] == c && m.leaves[k] in m.leaves;
      LookupLeaf(m.leaves, k);
    }
  }

  /** Two built identities: exactly the components with another payload change, and the root if one of them does. */
  method DiffOfPacks<P(!new)>(h: Hashes<P>, before: Component -> P, after: Component -> P)
    returns (changed: set<Component>, rootChanged: bool)
    requires CollisionFree(h)
    ensures forall c :: (c in changed <==> before(c) != after(c))
    ensures rootChanged <==> changed != {}
  {
    var b := BuildContextMerkle(h, before);
    var a := BuildContextMerkle(h, after);
    BuiltDigests(h, before, b);
    BuiltDigests(h, after, a);
    var same;
    changed, same, rootChanged := DiffContextMerkle(b, a);
    EqualRootsExactly(h.pair, LeafDigests(h, before), LeafDigests(h, after));
    ChangedLeaf(h, before, after);
  }

  lemma ChangedLeaf<P(!new)>(h: Hashes<P>, before: Component -> P, after: Component -> P)
    requires CollisionFree(h)
    ensures LeafDigests(h, before) == LeafDigests(h, after) <==> forall c :: before(c) == after(c)
  {
    var b, a := LeafDigests(h, before), LeafDigests(h, after);
    if b == a {
      forall c
        ensures before(c) == after(c)
      {
        var k := Position(c);
        assert ORDER[k] == c && b[k] == h.leaf(c, before(c)) && a[k] == h.leaf(c, after(c));
      }
    }
  }

  /** The root of a pack spelled out: the last two of its six leaves are paired with themselves. */
  lemma RootOfPack<P>(h: Hashes<P>, pack: Component -> P)
    ensures var policy, usage := h.leaf(Policy, pack(Policy)), h.leaf(Usage, pack(Usage));
      var selection, exclusions := h.leaf(Selection, pack(Selection)), h.leaf(Exclusions, pack(Exclusions));
      var compression, lineage := h.leaf(Compression, pack(Compression)), h.leaf(Lineage, pack(Lineage));
      var first := h.pair(h.pair(policy, usage), h.pair(selection, exclusions));
      var last := h.pair(compression, lineage);
      Root(h.pair, LeafDigests(h, pack)) == h.pair(first, h.pair(last, last))
    ensures Height(|ORDER|) == 4
  {
    var level := LeafDigests(h, pack);
    assert level[0] == h.leaf(ORDER[0], pack(ORDER[0])) && level[1] == h.leaf(ORDER[1], pack(ORDER[1]));
    assert level[2] == h.leaf(ORDER[2], pack(ORDER[2])) && level[3] == h.leaf(ORDER[3], pack(ORDER[3]));
    assert level[4] == h.leaf(ORDER[4], pack(ORDER[4])) && level[5] == h.leaf(ORDER[5], pack(ORDER[5]));
    RootOfSix(h.pair, level);
    assert Height(6) == 1 + Height(3) && Height(3) == 1 + Height(2) && Height(2) == 1 + Height(1);
  }

  lemma RootOfSix(pair: (string, string) -> string, level: seq<string>)
    requires |level| == 6
    ensures var last := pair(level[4], level[5]);
      Root(pair, level) == pair(pair(pair(level[0], level[1]), pair(level[2], level[3])), pair(last, last))
  {
    var second := Above(pair, level);
    assert second == [pair(level[0], level[1]), pair(level[2], level[3]), pair(level[4], level[5])];
    var third := Above(pair, second);
    assert third == [pair(second[0], second[1]), pair(second[2], second[2])];
    var top := Above(pair, third);
    assert top == [pair(third[0], third[1])];
    assert Root(pair, level) == Root(pair, second) == Root(pair, third) == Root(pair, top) == top[0];
  }
}
