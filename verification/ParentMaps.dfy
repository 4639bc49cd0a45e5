/** Partial parent maps: climbing them, and when they have no cycle. */
module ParentMaps {
  import opened Prelude

  /** The node `n` steps above `b`, if the map leads that far. */
  function Up(m: map<string, string>, b: string, n: nat): Option<string>
    decreases n
  {
    if n == 0 then Some(b) else if b in m then Up(m, m[b], n - 1) else None
  }

  ghost predicate Acyclic(m: map<string, string>) {
    forall b, n: nat :: n > 0 ==> Up(m, b, n) != Some(b)
  }

  ghost predicate Submap(m: map<string, string>, big: map<string, string>) {
    forall k :: k in m ==> k in big && big[k] == m[k]
  }

  lemma {:induction false} UpSubmap(m: map<string, string>, big: map<string, string>, b: string, n: nat)
    requires Submap(m, big)
    ensures Up(m, b, n).Some? ==> Up(big, b, n) == Up(m, b, n)
    decreases n
  {
    if n > 0 && b in m {
      UpSubmap(m, big, m[b], n - 1);
    }
  }

  lemma AcyclicSubmap(m: map<string, string>, big: map<string, string>)
    requires Submap(m, big) && Acyclic(big)
    ensures Acyclic(m)
  {
    forall b, n: nat | n > 0
      ensures Up(m, b, n) != Some(b)
    {
      UpSubmap(m, big, b, n);
    }
  }

  lemma {:induction false} UpSplit(m: map<string, string>, b: string, i: nat, j: nat)
    ensures Up(m, b, i + j) == if Up(m, b, i).Some? then Up(m, Up(m, b, i).value, j) else None
    decreases i
  {
    if i > 0 && b in m {
      UpSplit(m, m[b], i - 1, j);
    }
  }

  /** Nodes from which `d` cannot be climbed to do not notice a new edge out of `d`. */
  lemma {:induction false} UpUnaffected(m: map<string, string>, d: string, p: string, b: string, n: nat)
    requires forall k: nat :: Up(m, b, k) != Some(d)
    ensures Up(m[d := p], b, n) == Up(m, b, n)
    decreases n
  {
    assert Up(m, b, 0) != Some(d);
    if n > 0 && b in m {
      forall k: nat
        ensures Up(m, m[b], k) != Some(d)
      {
        assert Up(m, b, k + 1) == Up(m, m[b], k);
      }
      UpUnaffected(m, d, p, m[b], n - 1);
    }
  }

  /** A new edge from `d`, which had none, to a node not below `d` closes no cycle. */
  lemma AcyclicExtended(m: map<string, string>, d: string, p: string)
    requires Acyclic(m) && d !in m && forall k: nat :: Up(m, p, k) != Some(d)
    ensures Acyclic(m[d := p])
  {
    var m' := m[d := p];
    forall b, n: nat | n > 0
      ensures Up(m', b, n) != Some(b)
    {
      if i: nat :| Up(m, b, i) == Some(d) {
        UpSubmap(m, m', b, i);
        UpSplit(m', b, n, i);
        UpSplit(m', b, i, n);
        UpUnaffected(m, d, p, p, n - 1);
        assert Up(m', d, n) == Up(m', p, n - 1);
      } else {
        UpUnaffected(m, d, p, b, n);
      }
    }
  }
}
