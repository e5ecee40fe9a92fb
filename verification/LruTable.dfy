/** The hash table of extensions/lrucache.c as pointers: the `next` links of the chains and the
    `pthis` back-pointers, which name the place that holds the link to an entry. */
module LruTable {
  import opened Lists

  /** A `stx_cache_entry_t**`. */
  datatype Place<!K> = Nowhere | Head(b: nat) | NextOf(node: Node<K>)

  /** The link fields of a `_stx_centry`. */
  class Node<K> {
    const id: nat
    const key: K
    var next: Node?<K>
    var pthis: Place<K>

    constructor (id: nat, key: K)
      ensures this.id == id && this.key == key && next == null && pthis == Nowhere
    {
      this.id, this.key := id, key;
      next, pthis := null, Nowhere;
    }
  }

  /** `chains` lists the nodes of each bucket in link order. */
  class Table<K> {
    const hash: K -> nat
    const buckets: array<Node?<K>>
    ghost var chains: seq<seq<Node<K>>>
    ghost var repr: set<Node<K>>

    constructor (n: nat, hash: K -> nat)
      ensures Valid() && fresh(buckets) && buckets.Length == n && repr == {} && this.hash == hash
      ensures chains == seq(n, _ => [])
    {
      this.hash := hash;
      buckets := new Node?<K>[n](_ => null);
      chains := seq(n, _ => []);
      repr := {};
    }

    ghost function NodeAt(b: int, j: int): Node?<K>
      reads this`chains
      requires 0 <= b < |chains| && 0 <= j
    {
      if j < |chains[b]| then chains[b][j] else null
    }

    /** The node at position `j` of chain `b` is in the right bucket, links to its successor
        and knows the place that links to it. */
    ghost predicate LinkedAt(b: int, j: int)
      reads this`chains, this`repr, repr`next, repr`pthis
    {
      0 <= b < |chains| && 0 <= j < |chains[b]| ==>
        var x := chains[b][j];
        && x in repr && hash(x.key) % |chains| == b && x.next == NodeAt(b, j + 1)
        && x.pthis == if j == 0 then Head(b) else NextOf(chains[b][j - 1])
    }

    ghost predicate Valid()
      reads this, buckets, repr`next, repr`pthis
    {
      && buckets.Length == |chains|
      && (forall b :: 0 <= b < |chains| ==> buckets[b] == NodeAt(b, 0) && NoDup(chains[b]))
      && (forall b, j {:trigger LinkedAt(b, j)} :: LinkedAt(b, j))
    }

    /** The node `x` stands before the old head of chain `b`, which knows it: the other links
        are those of the longer chain. */
    twostate lemma Prepended(at: (Node<K>, nat))
      requires old(Valid()) && at.1 < |old(chains)| && at.0 !in old(repr) && hash(at.0.key) % |old(chains)| == at.1
      requires var x, b, q := at.0, at.1, old(chains)[at.1];
               && chains == old(chains)[b := [x] + q] && repr == old(repr) + {x}
               && (forall d :: 0 <= d < |chains| ==> buckets[d] == if d == b then x else old(buckets[d]))
               && x.next == old(NodeAt(b, 0)) && x.pthis == Head(b)
               && forall y :: y in old(repr) ==>
                    y.next == old(y.next) && y.pthis == if q != [] && y == q[0] then NextOf(x) else old(y.pthis)
      ensures Valid()
    {
      var b: int := at.1;
      forall j | 0 <= j < |old(chains[b])|
        ensures old(chains[b])[j] in old(repr)
      {
        assert old(LinkedAt(b, j));
      }
      assert old(LinkedAt(b, 0));
      forall d, j
        ensures LinkedAt(d, j)
      {
        assert old(LinkedAt(d, j)) && old(LinkedAt(d, j - 1));
      }
    }

    /** The insertion at the head of a bucket. */
    method Prepend(x: Node<K>, b: nat)
      requires Valid() && b < |chains| && hash(x.key) % |chains| == b && x !in repr
      modifies this`chains, this`repr, buckets, repr`pthis, x`next, x`pthis
      ensures Valid() && repr == old(repr) + {x} && chains == old(chains)[b := [x] + old(chains[b])]
    {
      assert LinkedAt(b, 0);
      x.next := buckets[b];
      buckets[b] := x;
      x.pthis := Head(b);
      if x.next != null {
        x.next.pthis := NextOf(x);
      }
      chains, repr := chains[b := [x] + chains[b]], repr + {x};
      Prepended((x, b));
    }

    /** The one link to the node at position `at` now leads past it, and the back-pointer of
        its successor has followed: the other links are those of the shortened chain. */
    twostate lemma Unlinked(at: (nat, nat))
      requires old(Valid()) && at.0 < |old(chains)| && at.1 < |old(chains)[at.0]|
      requires var b, j, q := at.0, at.1, old(chains)[at.0];
               && chains == old(chains)[b := q[..j] + q[j + 1..]] && repr == old(repr) - {q[j]}
               && (forall d :: 0 <= d < |chains| ==> buckets[d] == if d == b && j == 0 then old(NodeAt(b, 1)) else old(buckets[d]))
               && (forall x :: x in repr ==>
                     && x.next == (if j > 0 && x == q[j - 1] then old(NodeAt(b, j + 1)) else old(x.next))
                     && x.pthis == (if j + 1 < |q| && x == q[j + 1] then old(q[j].pthis) else old(x.pthis)))
      ensures Valid()
    {
      var b: int, j: int := at.0, at.1;
      assert old(LinkedAt(b, j)) && old(LinkedAt(b, j - 1)) && old(LinkedAt(b, j + 1));
      forall d, i
        ensures LinkedAt(d, i)
      {
        assert old(LinkedAt(d, i)) && old(LinkedAt(d, i + 1)) && old(LinkedAt(d, i - 1));
      }
    }

    /** The unlinking through `pthis` in `stx_cache_entry_delete`. */
    method Unlink(x: Node<K>, ghost b: nat, ghost j: nat)
      requires Valid() && b < |chains| && j < |chains[b]| && chains[b][j] == x
      modifies this`chains, this`repr, buckets, repr`next, repr`pthis
      ensures Valid() && repr == old(repr) - {x} && x.pthis == Nowhere
      ensures chains == old(chains)[b := Remove(old(chains[b]), x)]
    {
      assert LinkedAt(b, j) && LinkedAt(b, j - 1) && LinkedAt(b, j + 1);
      RemoveIndex(chains[b], j);
      match x.pthis {
        case Head(i) => buckets[i] := x.next;
        case NextOf(p) => p.next := x.next;
      }
      if x.next != null {
        x.next.pthis := x.pthis;
      }
      x.pthis := Nowhere;
      chains, repr := chains[b := Remove(chains[b], x)], repr - {x};
      Unlinked((b, j));
    }
  }
}
