/** The cache object of extensions/lrucache.c: its table of linked nodes, its entries, its LRU
    list and its counters, updated in place by the operations and tied to the functions of
    module Lru. */
module LruCache {
  import opened Lists
  import opened Lru
  import opened LruInv
  import opened LruTheorems
  import opened LruTable

  ghost function Ids<K>(q: seq<Node<K>>): seq<Eid> {
    seq(|q|, i requires 0 <= i < |q| => q[i].id)
  }

  ghost function IdChains<K>(chains: seq<seq<Node<K>>>): (r: seq<seq<Eid>>)
    ensures |r| == |chains|
  {
    seq(|chains|, b requires 0 <= b < |chains| => Ids(chains[b]))
  }

  /** A table of empty chains. */
  lemma EmptyIdChains<K, V>(chains: seq<seq<Node<K>>>, maxSize: nat, maxWeight: nat)
    requires forall b :: 0 <= b < |chains| ==> chains[b] == []
    ensures IdChains(chains) == Create<K, V>(maxSize, maxWeight, |chains|).chains
  {
    assert forall b :: 0 <= b < |chains| ==> IdChains(chains)[b] == [];
  }

  lemma {:induction false} IdsRemove<K>(q: seq<Node<K>>, x: Node<K>)
    requires forall y :: y in q && y.id == x.id ==> y == x
    ensures Ids(Remove(q, x)) == Remove(Ids(q), x.id)
  {
    if q == [] {
    } else {
      assert q[0] in q;
      assert Ids(q)[1..] == Ids(q[1..]);
      IdsRemove(q[1..], x);
      var r := Remove(q[1..], x);
      assert Ids([q[0]] + r) == [q[0].id] + Ids(r);
    }
  }

  /** The history does not matter to the place of an entry. */
  lemma PlacedFacts<K(!new), V>(h: K -> nat, c: Cache<K, V>, facts: seq<Fact<K>>)
    requires Ok(h, c)
    ensures Placed(h, c.(facts := facts))
  {
    forall b | 0 <= b < |c.chains|
      ensures ChainOk(h, c.(facts := facts), b)
    {
      assert ChainOk(h, c, b);
    }
  }

  lemma PlacedIdle<K(!new), V>(h: K -> nat, c: Cache<K, V>, e: Eid)
    requires Ok(h, c) && e in c.ents && c.ents[e].refs == 1
    ensures Placed(h, SetEnt(c, e, c.ents[e].(refs := 0, idleSince := c.ticks)).(lru := c.lru + [e], ticks := c.ticks + 1))
  {
    IdleParts(h, c, e, SetEnt(c, e, c.ents[e].(refs := 0, idleSince := c.ticks)).(lru := c.lru + [e], ticks := c.ticks + 1));
  }

  lemma FoundAlive<K, V>(h: K -> nat, c: Cache<K, V>, k: K)
    requires |c.chains| > 0 && FindKey(h, c, k).Some?
    ensures FindKey(h, c, k).value in c.ents
  {
  }

  /** The same entries, with the same keys and links. */
  ghost predicate SameNodes<K, V>(ents: map<Eid, Ent<K, V>>, ents': map<Eid, Ent<K, V>>) {
    && ents'.Keys == ents.Keys
    && forall e :: e in ents ==> ents'[e].key == ents[e].key && ents'[e].linked == ents[e].linked
  }

  /** Linking after the same-key entry is gone. */
  lemma LinkIs<K, V>(h: K -> nat, c: Cache<K, V>, e: Eid)
    requires e in c.ents && |c.chains| > 0
    ensures var x, c1 := c.ents[e], WithoutKey(h, c, c.ents[e].key);
            var b := Bucket(h, |c.chains|, x.key);
            && b < |c1.chains|
            && Link(h, c, e) == SetEnt(SetChain(c1, b, [e] + c1.chains[b]), e, x.(refs := x.refs + 1, linked := true)).(
                                  inserts := c1.inserts + 1, curSize := c1.curSize + 1, curWeight := c1.curWeight + x.weight,
                                  facts := c1.facts + [Put(x.key, e)])
  {
  }

  /** Deleting an entry of a chain leaves what follows it in the chain. */
  lemma DeleteSuffix<K(!new), V>(h: K -> nat, c: Cache<K, V>, b: nat, k: nat)
    requires Ok(h, c) && b < |c.chains| && k < |c.chains[b]|
    ensures var e := c.chains[b][k];
            && e in c.ents && |Delete(h, c, e).chains| == |c.chains|
            && var k', q := if c.ents[e].refs > 0 then k + 1 else k, Delete(h, c, e).chains[b];
            k' <= |q| && q[k'..] == c.chains[b][k + 1..]
  {
    assert ChainOk(h, c, b);
    var e, q := c.chains[b][k], c.chains[b];
    assert e in q;
    hide Ok, Placed, Remove;
    RemoveIndex(q, k);
    assert (q[..k] + q[k + 1..])[k..] == q[k + 1..];
  }

  class Store<K(==, !new), V> {
    const table: Table<K>
    const maxSize: nat
    const maxWeight: nat
    var ents: map<Eid, Ent<K, V>>
    var nodes: map<Eid, Node<K>>
    var lru: seq<Eid>
    var curSize: int
    var curWeight: int
    var hits: nat
    var lookups: nat
    var inserts: nat
    var deletes: nat
    var ticks: nat
    ghost var cleaned: seq<Eid>
    ghost var facts: seq<Fact<K>>

    ghost function Snapshot(): Cache<K, V>
      reads this, table`chains
    {
      Cache(maxSize, maxWeight, IdChains(table.chains), lru, ents, curSize, curWeight,
            hits, lookups, inserts, deletes, cleaned, facts, ticks)
    }

    /** Each entry has its own node, and the nodes of unlinked entries are outside the table. */
    ghost predicate Mirror()
      reads this, table, table.buckets, table.repr
    {
      && table.Valid() && |table.chains| > 0 && ents.Keys == nodes.Keys
      && (forall e :: e in ents ==> nodes[e].id == e && nodes[e].key == ents[e].key)
      && (forall x :: x in table.repr ==> x.id in nodes && nodes[x.id] == x && ents[x.id].linked)
    }

    ghost predicate Valid()
      reads this, table, table.buckets, table.repr
    {
      Mirror() && Ok(table.hash, Snapshot())
    }

    /** `stx_cache_create`. */
    constructor (maxSize: nat, maxWeight: nat, hashSize: nat, hash: K -> nat)
      requires hashSize > 0
      ensures Valid() && fresh(table) && fresh(table.buckets) && table.hash == hash && table.repr == {}
      ensures Snapshot() == Create(maxSize, maxWeight, hashSize)
    {
      table := new Table<K>(hashSize, hash);
      this.maxSize, this.maxWeight := maxSize, maxWeight;
      ents, nodes, lru := map[], map[], [];
      curSize, curWeight, hits, lookups, inserts, deletes := 0, 0, 0, 0, 0, 0;
      cleaned, facts, ticks := [], [], 0;
      new;
      hide Ok;
      EmptyIdChains<K, V>(table.chains, maxSize, maxWeight);
      CreateOk<K, V>(hash, maxSize, maxWeight, hashSize);
    }

    lemma IsOk()
      requires Valid()
      ensures Ok(table.hash, Snapshot()) && ents.Keys == nodes.Keys
    {
    }

    /** `x` is the node at position `k` of the current chain `b`, or null at its end. */
    ghost predicate At(x: Node?<K>, b: nat, k: nat)
      reads this, table`chains
    {
      && |Snapshot().chains| == |table.chains| && b < |Snapshot().chains| && k <= |Snapshot().chains[b]|
      && var q := Snapshot().chains[b];
      if k < |q| then q[k] in nodes && x == nodes[q[k]] else x == null
    }

    lemma HasBuckets()
      requires Valid()
      ensures |Snapshot().chains| == |table.chains| == table.buckets.Length > 0 && ents.Keys == nodes.Keys
    {
    }

    lemma HeadIs(b: nat)
      requires Valid() && b < |table.chains|
      ensures b < table.buckets.Length && At(table.buckets[b], b, 0)
    {
      assert table.LinkedAt(b, 0);
    }

    lemma InChain(b: nat, k: nat)
      requires Valid() && b < |Snapshot().chains| && k < |Snapshot().chains[b]|
      ensures Snapshot().chains[b][k] in nodes
    {
      assert ChainOk(table.hash, Snapshot(), b);
    }

    /** The node at a position of a chain, and where its link leads. */
    lemma NodeIs(x: Node<K>, b: nat, k: nat)
      requires Valid() && At(x, b, k)
      ensures k < |Snapshot().chains[b]| && x.id == Snapshot().chains[b][k] && x.id in ents && At(x.next, b, k + 1)
    {
      assert table.LinkedAt(b, k) && table.LinkedAt(b, k + 1);
    }

    /** A linked entry stands in its chain at the position of its identity. */
    lemma Position(e: Eid) returns (b: nat, j: nat)
      requires Mirror() && Placed(table.hash, Snapshot()) && e in ents && ents[e].linked
      ensures b == Bucket(table.hash, |table.chains|, ents[e].key) && b < |table.chains|
      ensures j < |table.chains[b]| && table.chains[b][j] == nodes[e]
      ensures Ids(Remove(table.chains[b], nodes[e])) == Remove(Ids(table.chains[b]), e)
    {
      b := Bucket(table.hash, |table.chains|, ents[e].key);
      var q := table.chains[b];
      assert e in Snapshot().chains[b];
      j :| 0 <= j < |Ids(q)| && Ids(q)[j] == e;
      forall i | 0 <= i < |q|
        ensures q[i] in table.repr
      {
        assert table.LinkedAt(b, i);
      }
      assert forall y :: y in q ==> y in table.repr;
      IdsRemove(q, nodes[e]);
    }

    /** The node of a linked entry leaves its chain. */
    method UnlinkEntry(e: Eid)
      requires Mirror() && Placed(table.hash, Snapshot()) && e in ents && ents[e].linked
      modifies table`chains, table`repr, table.buckets, table.repr`next, table.repr`pthis
      ensures table.Valid() && |table.chains| == |old(table.chains)| && table.repr == old(table.repr) - {nodes[e]}
      ensures var b := Bucket(table.hash, |table.chains|, ents[e].key);
              IdChains(table.chains) == old(IdChains(table.chains))[b := Remove(old(IdChains(table.chains))[b], e)]
    {
      ghost var b, j := Position(e);
      ghost var q := table.chains[b];
      table.Unlink(nodes[e], b, j);
      assert IdChains(table.chains) == old(IdChains(table.chains))[b := Remove(Ids(q), e)];
    }

    /** The counters, the LRU list and the record of a freed entry. */
    method DropRecord(e: Eid)
      requires e in ents
      modifies this`ents, this`nodes, this`lru, this`curSize, this`curWeight, this`deletes, this`cleaned
      ensures nodes == old(nodes) - {e}
      ensures var c, x := old(Snapshot()), old(ents[e]);
              Snapshot() == (if x.linked then c.(curSize := c.curSize - 1, curWeight := c.curWeight - x.weight,
                                                 deletes := c.deletes + 1, lru := Remove(c.lru, e)) else c).(
                              ents := c.ents - {e}, cleaned := c.cleaned + [e])
    {
      hide Remove, IdChains;
      if ents[e].linked {
        curSize, curWeight, deletes, lru := curSize - 1, curWeight - ents[e].weight, deletes + 1, Remove(lru, e);
      }
      ents, nodes, cleaned := ents - {e}, nodes - {e}, cleaned + [e];
    }

    /** The unreferenced case of `stx_cache_entry_delete`. */
    method FreeEntry(e: Eid)
      requires Mirror() && Placed(table.hash, Snapshot()) && e in ents
      modifies this`ents, this`nodes, this`lru, this`curSize, this`curWeight, this`deletes, this`cleaned
      modifies table`chains, table`repr, table.buckets, table.repr`next, table.repr`pthis
      ensures Mirror() && Snapshot() == Free(table.hash, old(Snapshot()), e)
      ensures table.repr <= old(table.repr) && nodes == old(nodes) - {e}
    {
      hide Placed, Table.Valid, IdChains, Remove;
      if ents[e].linked {
        UnlinkEntry(e);
      }
      DropRecord(e);
    }

    /** `stx_cache_entry_delete`. */
    method DeleteEntry(e: Eid)
      requires Valid() && e in ents
      modifies this, table, table.buckets, table.repr
      ensures Valid() && Snapshot() == Delete(table.hash, old(Snapshot()), e)
      ensures table.repr <= old(table.repr) && forall f :: f in nodes ==> f in old(nodes) && nodes[f] == old(nodes)[f]
    {
      hide Ok, Placed, Table.Valid, IdChains;
      DeleteOk(table.hash, Snapshot(), e);
      PlacedFacts(table.hash, Snapshot(), facts + [Gone(e)]);
      facts := facts + [Gone(e)];
      if ents[e].refs > 0 {
        ents := ents[e := ents[e].(pending := true)];
        return;
      }
      FreeEntry(e);
    }

    /** The walk of lookup and insert along the `next` links of one bucket. */
    method FindEntry(k: K) returns (r: Option<Eid>)
      requires Valid()
      ensures r == FindKey(table.hash, Snapshot(), k)
    {
      hide Valid, IdChains;
      HasBuckets();
      var b := Bucket(table.hash, table.buckets.Length, k);
      HeadIs(b);
      var x: Node?<K> := table.buckets[b];
      ghost var q := Snapshot().chains[b];
      ghost var j: nat := 0;
      assert q[0..] == q;
      while x != null
        invariant At(x, b, j) && FindKey(table.hash, Snapshot(), k) == Find(ents, q[j..], k)
        decreases |q| - j
      {
        NodeIs(x, b, j);
        assert q[j..][0] == x.id && q[j..][1..] == q[j + 1..];
        if !ents[x.id].pending && ents[x.id].key == k {
          return Some(x.id);
        }
        x, j := x.next, j + 1;
      }
      return None;
    }

    /** The bookkeeping of a lookup that found `r`. */
    method NoteLookup(r: Option<Eid>, ghost k: K)
      requires |table.chains| > 0 && r == FindKey(table.hash, Snapshot(), k)
      modifies this`lookups, this`hits, this`lru, this`ents
      ensures Snapshot() == Lookup(table.hash, old(Snapshot()), k) && SameNodes(old(ents), ents)
    {
      hide Remove, FindKey;
      lookups := lookups + 1;
      if r.Some? {
        FoundAlive(table.hash, old(Snapshot()), k);
        var e, x := r.value, ents[r.value];
        hits, lru, ents := hits + 1, if x.refs == 0 then Remove(lru, e) else lru, ents[e := x.(refs := x.refs + 1)];
      }
    }

    /** `stx_cache_entry_lookup`. */
    method LookupEntry(k: K) returns (r: Option<Eid>)
      requires Valid()
      modifies this`lookups, this`hits, this`lru, this`ents
      ensures Valid() && r == FindKey(table.hash, old(Snapshot()), k)
      ensures Snapshot() == Lookup(table.hash, old(Snapshot()), k)
    {
      hide Ok, Table.Valid, IdChains, FindKey, Lookup;
      r := FindEntry(k);
      LookupOk(table.hash, Snapshot(), k);
      NoteLookup(r, k);
    }

    /** A caller that holds an entry writes to what `stx_cache_entry_getdata` points at. */
    method WriteData(e: Eid, d: V)
      requires Valid() && e in ents
      modifies this`ents
      ensures Valid() && Snapshot() == SetEnt(old(Snapshot()), e, old(ents[e]).(data := d))
    {
      hide Ok, Table.Valid, IdChains;
      DataOk(table.hash, Snapshot(), e, d);
      ents := ents[e := ents[e].(data := d)];
    }

    /** One reference is given back; a pending deletion is not yet carried out. */
    method DropRef(e: Eid)
      requires |table.chains| > 0 && e in ents && ents[e].refs > 0
      modifies this`lru, this`ents, this`ticks
      ensures SameNodes(old(ents), ents)
      ensures var c, x := old(Snapshot()), old(ents[e]);
              Snapshot() == if x.refs > 1 then SetEnt(c, e, x.(refs := x.refs - 1))
                            else SetEnt(c, e, x.(refs := 0, idleSince := c.ticks)).(lru := c.lru + [e], ticks := c.ticks + 1)
    {
      var x := ents[e];
      if x.refs > 1 {
        ents := ents[e := x.(refs := x.refs - 1)];
      } else {
        ents, lru, ticks := ents[e := x.(refs := 0, idleSince := ticks)], lru + [e], ticks + 1;
      }
    }

    /** `stx_cache_entry_release`. */
    method ReleaseEntry(e: Eid)
      requires Valid() && e in ents
      modifies this, table, table.buckets, table.repr
      ensures Valid() && Snapshot() == Release(table.hash, old(Snapshot()), e)
      ensures table.repr <= old(table.repr)
    {
      hide Ok, Placed, Table.Valid, IdChains, Free;
      ReleaseOk(table.hash, Snapshot(), e);
      var x := ents[e];
      if x.refs == 0 {
        return;
      }
      if x.refs == 1 {
        PlacedIdle(table.hash, Snapshot(), e);
      }
      DropRef(e);
      if x.refs == 1 && x.pending {
        FreeEntry(e);
      }
    }

    /** `stx_cache_entry_create`. */
    method NewEntry(e: Eid, k: K, d: V, w: nat)
      requires Valid() && e !in ents && e !in cleaned
      modifies this`ents, this`nodes
      ensures Valid() && Snapshot() == Lru.NewEntry(old(Snapshot()), e, k, d, w)
      ensures ents == old(ents)[e := Ent(k, d, w, 0, false, false, 0)] && lru == old(lru)
      ensures fresh(nodes[e])
    {
      hide Ok, Table.Valid, IdChains;
      NewEntryOk(table.hash, Snapshot(), e, k, d, w);
      var x := new Node<K>(e, k);
      ents, nodes := ents[e := Ent(k, d, w, 0, false, false, 0)], nodes[e := x];
    }

    /** A visible entry with the key of the new entry `e` is deleted. */
    method ReplacePrior(e: Eid)
      requires Valid() && e in ents && !ents[e].linked
      modifies this, table, table.buckets, table.repr
      ensures Valid() && Snapshot() == WithoutKey(table.hash, old(Snapshot()), old(ents[e].key))
      ensures table.repr <= old(table.repr)
      ensures e in ents && ents[e] == old(ents[e]) && e in nodes && nodes[e] == old(nodes[e])
    {
      hide Ok, Table.Valid, IdChains, FindKey, Delete;
      ghost var c := Snapshot();
      WithoutKeyOk(table.hash, c, ents[e].key, e);
      var prior := FindEntry(ents[e].key);
      if prior.Some? {
        FoundAlive(table.hash, c, ents[e].key);
        DeleteEntry(prior.value);
      }
    }

    /** The last part of `stx_cache_entry_insert`. */
    method LinkEntry(e: Eid)
      requires Valid() && e in ents && !ents[e].linked
      requires curSize < maxSize && curWeight + ents[e].weight <= maxWeight
      modifies this, table, table.buckets, table.repr, nodes[e]
      ensures Valid() && Snapshot() == Link(table.hash, old(Snapshot()), e)
      ensures table.repr <= old(table.repr) + {old(nodes[e])}
    {
      hide Ok, Table.Valid, IdChains, FindKey, Delete, Mirror, Link, WithoutKey;
      ghost var c := Snapshot();
      HasBuckets();
      LinkOk(table.hash, c, e);
      WithoutKeyOk(table.hash, c, ents[e].key, e);
      LinkIs(table.hash, c, e);
      ReplacePrior(e);
      ChainUp(e, nodes[e]);
    }

    method AddRecord(e: Eid)
      requires e in ents
      modifies this`ents, this`inserts, this`curSize, this`curWeight, this`facts
      ensures ents == old(ents)[e := old(ents[e]).(refs := old(ents[e]).refs + 1, linked := true)]
      ensures var c, x := old(Snapshot()), old(ents[e]);
              Snapshot() == SetEnt(c, e, x.(refs := x.refs + 1, linked := true)).(
                              inserts := c.inserts + 1, curSize := c.curSize + 1, curWeight := c.curWeight + x.weight,
                              facts := c.facts + [Put(x.key, e)])
    {
      var x := ents[e];
      inserts, curSize, curWeight := inserts + 1, curSize + 1, curWeight + x.weight;
      ents, facts := ents[e := x.(refs := x.refs + 1, linked := true)], facts + [Put(x.key, e)];
    }

    /** The node of an entry goes to the head of its bucket. */
    method LinkNode(e: Eid, node: Node<K>)
      requires Mirror() && e in ents && !ents[e].linked && node == nodes[e]
      modifies table`chains, table`repr, table.buckets, table.repr`pthis, node`next, node`pthis
      ensures table.Valid() && |table.chains| == |old(table.chains)| && table.repr == old(table.repr) + {node}
      ensures var b := Bucket(table.hash, |table.chains|, ents[e].key);
              IdChains(table.chains) == old(IdChains(table.chains))[b := [e] + old(IdChains(table.chains))[b]]
    {
      var b := Bucket(table.hash, table.buckets.Length, ents[e].key);
      ghost var q := table.chains[b];
      table.Prepend(node, b);
      assert Ids([node] + q) == [e] + Ids(q);
      assert IdChains(table.chains) == old(IdChains(table.chains))[b := [e] + Ids(q)];
    }

    /** The new node is linked and the counters follow. */
    method ChainUp(e: Eid, node: Node<K>)
      requires Mirror() && e in ents && !ents[e].linked && node == nodes[e]
      modifies this`ents, this`inserts, this`curSize, this`curWeight, this`facts
      modifies table`chains, table`repr, table.buckets, table.repr`pthis, node`next, node`pthis
      ensures Mirror() && table.repr == old(table.repr) + {node}
      ensures var c, x := old(Snapshot()), old(ents[e]);
              var b := Bucket(table.hash, |c.chains|, x.key);
              Snapshot() == SetEnt(SetChain(c, b, [e] + c.chains[b]), e, x.(refs := x.refs + 1, linked := true)).(
                              inserts := c.inserts + 1, curSize := c.curSize + 1, curWeight := c.curWeight + x.weight,
                              facts := c.facts + [Put(x.key, e)])
    {
      hide Table.Valid, IdChains;
      LinkNode(e, node);
      AddRecord(e);
    }

    /** The entry at the head of the LRU list is deleted; the new entry `e` is not affected. */
    method EvictOldest(e: Eid)
      requires Valid() && lru != [] && e in ents && !ents[e].linked
      modifies this, table, table.buckets, table.repr
      ensures Valid() && |old(Snapshot()).chains| > 0 && Snapshot() == EvictHead(table.hash, old(Snapshot()))
      ensures |lru| == |old(lru)| - 1 && curSize == old(curSize) - 1 && curWeight <= old(curWeight)
      ensures table.repr <= old(table.repr)
      ensures e in ents && ents[e] == old(ents[e]) && e in nodes && nodes[e] == old(nodes[e])
    {
      hide Ok, Table.Valid, IdChains, Delete;
      ghost var c := Snapshot();
      EvictHeadSpec(table.hash, c);
      LruMember(table.hash, c, e);
      DeleteEntry(lru[0]);
    }

    /** `stx_cache_entry_insert`. */
    method InsertEntry(e: Eid) returns (ok: bool)
      requires Valid() && e in ents && !ents[e].linked
      modifies this, table, table.buckets, table.repr, nodes[e]
      ensures Valid() && |old(Snapshot()).chains| > 0
      ensures var r := Insert(table.hash, old(Snapshot()), e); Snapshot() == r.cache && (ok <==> r.Inserted?)
      ensures table.repr <= old(table.repr) + {old(nodes[e])}
    {
      hide Ok, Table.Valid, IdChains, Mirror, Link, EvictHead;
      HasBuckets();
      ghost var c, node := Snapshot(), nodes[e];
      var w := ents[e].weight;
      while curWeight + w > maxWeight
        invariant Valid() && e in ents && ents[e] == c.ents[e] && e in nodes && nodes[e] == node
        invariant table.repr <= old(table.repr) && |Snapshot().chains| > 0
        invariant Shrink(table.hash, c, w, |c.lru|) == Shrink(table.hash, Snapshot(), w, |lru|)
        decreases |lru|
      {
        if lru == [] {
          return false;
        }
        EvictOldest(e);
        HasBuckets();
      }
      WithinLimits();
      if curSize >= maxSize {
        if lru == [] {
          return false;
        }
        EvictOldest(e);
        HasBuckets();
      }
      LinkEntry(e);
      return true;
    }

    /** One turn of the inner loop of `stx_cache_empty`: the next link is read before the entry
        is deleted, and leads to what then follows. */
    method DeleteAndStep(x: Node<K>, b: nat, ghost k: nat) returns (next: Node?<K>, ghost k': nat)
      requires Valid() && b < |table.chains| && At(x, b, k)
      modifies this, table, table.buckets, table.repr
      ensures Valid() && table.repr <= old(table.repr) && |table.chains| == |old(table.chains)| && At(next, b, k')
      ensures k < |old(Snapshot()).chains[b]| && |old(Snapshot()).chains| == |old(table.chains)|
      ensures Snapshot().chains[b][k'..] == old(Snapshot()).chains[b][k + 1..]
      ensures old(Snapshot()).chains[b][k] in old(ents)
      ensures Snapshot() == Delete(table.hash, old(Snapshot()), old(Snapshot()).chains[b][k])
    {
      hide Ok, Mirror, Table.Valid, Delete;
      ghost var c := Snapshot();
      NodeIs(x, b, k);
      IsOk();
      DeleteSuffix(table.hash, c, b, k);
      next := x.next;
      DeleteEntry(x.id);
      HasBuckets();
      k' := if c.ents[c.chains[b][k]].refs > 0 then k + 1 else k;
      ghost var q := Snapshot().chains[b];
      assert |q[k'..]| == |c.chains[b][k + 1..]|;
      if k' < |q| {
        assert q[k'..][0] == c.chains[b][k + 1..][0];
        InChain(b, k');
      }
    }

    /** The inner loop of `stx_cache_empty`. */
    method EmptyBucket(b: nat)
      requires Valid() && b < |table.chains|
      modifies this, table, table.buckets, table.repr
      ensures Valid() && table.repr <= old(table.repr) && |table.chains| == |old(table.chains)|
      ensures |old(Snapshot()).chains| == |old(table.chains)|
      ensures Snapshot() == DeleteAll(table.hash, old(Snapshot()), old(Snapshot()).chains[b])
    {
      hide Valid, Delete, IdChains;
      HeadIs(b);
      HasBuckets();
      ghost var c, q := Snapshot(), Snapshot().chains[b];
      ghost var k: nat := 0;
      var x := table.buckets[b];
      assert q[0..] == q;
      while x != null
        invariant Valid() && table.repr <= old(table.repr) && |table.chains| == |c.chains| > 0 && At(x, b, k)
        invariant DeleteAll(table.hash, c, q) == DeleteAll(table.hash, Snapshot(), Snapshot().chains[b][k..])
        decreases |Snapshot().chains[b]| - k
      {
        ghost var q1 := Snapshot().chains[b];
        assert q1[k..][0] == q1[k] && q1[k..][1..] == q1[k + 1..];
        x, k := DeleteAndStep(x, b, k);
      }
    }

    /** `stx_cache_empty`. */
    method EmptyAll()
      requires Valid()
      modifies this, table, table.buckets, table.repr
      ensures Valid() && |old(Snapshot()).chains| > 0
      ensures Snapshot() == EmptyFrom(table.hash, old(Snapshot()), 0)
    {
      hide Ok, Mirror, Table.Valid, DeleteAll;
      HasBuckets();
      ghost var c := Snapshot();
      var i := 0;
      while i < table.buckets.Length
        invariant Valid() && table.repr <= old(table.repr)
        invariant 0 <= i <= |Snapshot().chains| == |table.chains| == table.buckets.Length
        invariant EmptyFrom(table.hash, c, 0) == EmptyFrom(table.hash, Snapshot(), i)
      {
        EmptyBucket(i);
        HasBuckets();
        i := i + 1;
      }
    }

    lemma WithinLimits()
      requires Valid()
      ensures curSize <= maxSize
    {
    }
  }
}
