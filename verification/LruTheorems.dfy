/** What the cache promises: capacity, eviction order, lookup, emptying, and all of it over
    every run. */
module LruTheorems {
  import opened Lists
  import opened Lru
  import opened LruInv

  // ----- lookup

  /** Lookup returns exactly the latest entry inserted under the key that has not been
      deleted, evicted or replaced, whatever older entries of that key are still in use. */
  lemma LookupIsLatest<K(!new), V>(h: K -> nat, c: Cache<K, V>, k: K)
    requires Ok(h, c)
    ensures FindKey(h, c, k) == Latest(c.facts, k)
  {
    ChainsHold(h, c);
    var r, l := FindKey(h, c, k), Latest(c.facts, k);
    assert r.Some? ==> Visible(c, k, r.value);
    assert l.Some? ==> Visible(c, k, l.value);
  }

  // ----- eviction

  /** The weight and the number of entries that somebody references. */
  ghost function Held<K, V>(c: Cache<K, V>, m: Measure): nat {
    TSum(c.chains, c.ents, m, true)
  }

  lemma EvictHeadHeld<K(!new), V>(h: K -> nat, c: Cache<K, V>)
    requires Placed(h, c) && LruOk(c) && c.lru != []
    ensures var c' := EvictHead(h, c); Held(c', Count) == Held(c, Count) && Held(c', Mass) == Held(c, Mass)
  {
    var e := c.lru[0];
    assert e in c.lru;
    var c1 := c.(facts := c.facts + [Gone(e)]);
    assert Placed(h, c1) by {
      assert forall b :: 0 <= b < |c.chains| && ChainOk(h, c, b) ==> ChainOk(h, c1, b);
    }
    FreeTable(h, c1, e, Count, true);
    FreeTable(h, c1, e, Mass, true);
  }

  /** From `c` to `c'` the `k` oldest idle entries were evicted, and nothing else happened. */
  ghost predicate Evicted<K, V>(c: Cache<K, V>, c': Cache<K, V>, k: nat) {
    && k <= |c.lru| && c'.lru == c.lru[k..] && c'.cleaned == c.cleaned + c.lru[..k]
    && (forall x :: x in c'.ents <==> x in c.ents && x !in c.lru[..k])
    && (forall x :: x in c'.ents ==> c'.ents[x] == c.ents[x])
    && c'.maxSize == c.maxSize && c'.maxWeight == c.maxWeight && c'.curSize == c.curSize - k
    && Held(c', Count) == Held(c, Count) && Held(c', Mass) == Held(c, Mass)
  }

  /** Evicting the head takes the oldest idle entry and nothing else. */
  lemma EvictHeadSpec<K(!new), V>(h: K -> nat, c: Cache<K, V>)
    requires Ok(h, c) && c.lru != []
    ensures var c', e := EvictHead(h, c), c.lru[0];
            && Ok(h, c') && e in c.ents && Evicted(c, c', 1)
            && c'.lru == c.lru[1..] && c'.cleaned == c.cleaned + [e] && c'.ents == c.ents - {e}
            && c'.maxSize == c.maxSize && c'.maxWeight == c.maxWeight && |c'.chains| == |c.chains|
            && c'.curSize == c.curSize - 1 && c'.curWeight == c.curWeight - c.ents[e].weight
            && Held(c', Count) == Held(c, Count) && Held(c', Mass) == Held(c, Mass)
  {
    assert c.lru[0] in c.lru;
    EvictHeadOk(h, c);
    EvictHeadHeld(h, c);
    var x := c.ents[c.lru[0]];
    assert x.linked && x.refs == 0 && |c.chains| > 0;
    hide Ok, Held;
    assert Remove(c.lru, c.lru[0]) == c.lru[1..];
    assert c.lru[..1] == [c.lru[0]];
  }

  /** `k` is the least number of oldest idle entries whose eviction makes room for `w`, or all
      of them if none does. */
  ghost predicate LeastPrefix<K, V>(c: Cache<K, V>, w: nat, k: nat) {
    && k <= |c.lru|
    && (k < |c.lru| ==> c.curWeight - QSum(c.lru[..k], c.ents, Mass, false) + w <= c.maxWeight)
    && (forall j :: 0 <= j < k ==> c.curWeight - QSum(c.lru[..j], c.ents, Mass, false) + w > c.maxWeight)
  }

  lemma EvictedTwice<K, V>(c: Cache<K, V>, c1: Cache<K, V>, c': Cache<K, V>, j: nat, k: nat)
    requires Evicted(c, c1, j) && Evicted(c1, c', k)
    ensures Evicted(c, c', j + k)
  {
    hide Held;
    assert c.lru[..j + k] == c.lru[..j] + c1.lru[..k];
    assert c1.lru[k..] == c.lru[j + k..];
  }

  lemma NothingEvicted<K, V>(c: Cache<K, V>, w: nat)
    requires c.curWeight + w <= c.maxWeight || c.lru == []
    ensures Evicted(c, c, 0) && LeastPrefix(c, w, 0)
  {
    hide Held;
    assert c.cleaned + c.lru[..0] == c.cleaned;
  }

  /** One turn of the loop. */
  lemma ShrinkTurn<K(!new), V>(h: K -> nat, c: Cache<K, V>, w: nat)
    requires Ok(h, c) && c.curWeight + w > c.maxWeight && c.lru != []
    ensures var c1 := EvictHead(h, c);
            && |c.chains| > 0 && Ok(h, c1) && Evicted(c, c1, 1) && |c1.chains| > 0 && |c1.lru| == |c.lru| - 1
            && NoDup(c.lru) && (forall e :: e in c.lru ==> e in c.ents)
            && c1.lru == c.lru[1..] && c1.ents == c.ents - {c.lru[0]} && c1.maxWeight == c.maxWeight
            && c1.curWeight == c.curWeight - c.ents[c.lru[0]].weight
            && Shrink(h, c, w, |c.lru|) == Shrink(h, c1, w, |c1.lru|)
  {
    EvictHeadSpec(h, c);
  }

  lemma PrefixSum<K, V>(c: Cache<K, V>, c1: Cache<K, V>, j: nat)
    requires c.lru != [] && NoDup(c.lru) && forall e :: e in c.lru ==> e in c.ents
    requires c1.lru == c.lru[1..] && c1.ents == c.ents - {c.lru[0]} && j <= |c1.lru|
    ensures QSum(c.lru[..j + 1], c.ents, Mass, false) == c.ents[c.lru[0]].weight + QSum(c1.lru[..j], c1.ents, Mass, false)
  {
    assert c.lru[..j + 1][1..] == c1.lru[..j];
    forall e | e in c1.lru[..j]
      ensures e in c1.ents && c1.ents[e] == c.ents[e]
    {
      assert e in c.lru[1..] && e != c.lru[0];
    }
    QFrame(c1.lru[..j], c.ents, c1.ents, Mass, false);
  }

  lemma PrefixSums<K, V>(c: Cache<K, V>, c1: Cache<K, V>, w: nat, k1: nat)
    requires c.lru != [] && NoDup(c.lru) && forall e :: e in c.lru ==> e in c.ents
    requires c1.lru == c.lru[1..] && c1.ents == c.ents - {c.lru[0]} && c1.maxWeight == c.maxWeight
    requires c1.curWeight == c.curWeight - c.ents[c.lru[0]].weight && c.curWeight + w > c.maxWeight
    requires LeastPrefix(c1, w, k1)
    ensures LeastPrefix(c, w, k1 + 1)
  {
    forall j | 0 <= j < k1 + 1
      ensures c.curWeight - QSum(c.lru[..j], c.ents, Mass, false) + w > c.maxWeight
    {
      if j > 0 {
        PrefixSum(c, c1, j - 1);
      }
    }
    PrefixSum(c, c1, k1);
  }

  /** The eviction loop takes exactly that prefix. */
  lemma {:induction false} ShrinkSpec<K(!new), V>(h: K -> nat, c: Cache<K, V>, w: nat) returns (k: nat)
    requires Ok(h, c)
    ensures var c' := Shrink(h, c, w, |c.lru|);
            && Ok(h, c') && Evicted(c, c', k) && LeastPrefix(c, w, k)
            && (c'.curWeight + w > c.maxWeight ==> c'.lru == [])
    decreases |c.lru|
  {
    hide Ok, Held, Evicted, LeastPrefix, EvictHead;
    if c.curWeight + w <= c.maxWeight || c.lru == [] {
      k := 0;
      NothingEvicted(c, w);
    } else {
      ShrinkTurn(h, c, w);
      hide Shrink;
      var c1 := EvictHead(h, c);
      k := ShrinkSpec(h, c1, w);
      EvictedTwice(c, c1, Shrink(h, c1, w, |c1.lru|), 1, k);
      PrefixSums(c, c1, w, k);
      k := k + 1;
    }
  }

  // ----- insert

  /** Deleting another entry never makes more of anything. */
  lemma DeleteShrinks<K(!new), V>(h: K -> nat, c: Cache<K, V>, e: Eid, f: Eid)
    requires Ok(h, c) && e in c.ents && f in c.ents && e != f
    ensures var c' := Delete(h, c, e);
            && c'.curSize <= c.curSize && c'.curWeight <= c.curWeight && f in c'.ents && c'.ents[f] == c.ents[f]
            && c'.maxSize == c.maxSize && c'.maxWeight == c.maxWeight && |c'.chains| == |c.chains|
            && (forall k, g: Eid :: Visible(c', k, g) <==> Visible(c, k, g) && g != e)
  {
  }

  /** The cache after a same-key entry has been deleted. */
  ghost function WithoutKey<K, V>(h: K -> nat, c: Cache<K, V>, k: K): Cache<K, V>
    requires |c.chains| > 0
  {
    match FindKey(h, c, k)
    case None => c
    case Some(prior) => Delete(h, c, prior)
  }

  lemma WithoutKeyOk<K(!new), V>(h: K -> nat, c: Cache<K, V>, k: K, e: Eid)
    requires Ok(h, c) && e in c.ents && !c.ents[e].linked
    ensures var c1 := WithoutKey(h, c, k);
            && Ok(h, c1) && e in c1.ents && c1.ents[e] == c.ents[e] && |c1.chains| == |c.chains| > 0
            && c1.curSize <= c.curSize && c1.curWeight <= c.curWeight
            && c1.maxSize == c.maxSize && c1.maxWeight == c.maxWeight
            && (forall f: Eid :: !Visible(c1, k, f))
  {
    LookupIsLatest(h, c, k);
    var p := FindKey(h, c, k);
    assert forall f: Eid :: Visible(c, k, f) <==> p == Some(f);
    if p.Some? {
      DeleteOk(h, c, p.value);
      DeleteShrinks(h, c, p.value, e);
    }
  }

  /** Replacing a same-key entry and linking the new one, when there is room. */
  lemma LinkOk<K(!new), V>(h: K -> nat, c: Cache<K, V>, e: Eid)
    requires Ok(h, c) && e in c.ents && !c.ents[e].linked
    requires c.curSize < c.maxSize && c.curWeight + c.ents[e].weight <= c.maxWeight
    ensures Ok(h, Link(h, c, e)) && Visible(Link(h, c, e), c.ents[e].key, e)
  {
    var x := c.ents[e];
    assert EntOk(x) && |c.chains| > 0;
    WithoutKeyOk(h, c, x.key, e);
    hide Ok, Delete, FindKey, Visible;
    LinkFreshOk(h, WithoutKey(h, c, x.key), e, x.(refs := 1, linked := true), Link(h, c, e));
  }

  lemma {:induction false} QCount<K, V>(q: seq<Eid>, ents: map<Eid, Ent<K, V>>)
    requires forall e :: e in q ==> e in ents
    ensures QSum(q, ents, Count, false) == |q|
  {
    if q == [] {
    } else {
      assert q[0] in q;
      QCount(q[1..], ents);
    }
  }

  /** What is in the table is what is held and what is idle. */
  lemma HeldAndIdle<K(!new), V>(h: K -> nat, c: Cache<K, V>)
    requires Ok(h, c)
    ensures c.curSize == Held(c, Count) + |c.lru|
    ensures c.curWeight >= Held(c, Mass) && (c.lru == [] ==> c.curWeight == Held(c, Mass))
  {
    assert SumOk(c, Count) && SumOk(c, Mass);
    QCount(c.lru, c.ents);
  }

  lemma LruMember<K(!new), V>(h: K -> nat, c: Cache<K, V>, e: Eid)
    requires Ok(h, c) && e in c.ents && !c.ents[e].linked
    ensures e !in c.lru && |c.chains| > 0
    ensures c.lru != [] ==> c.lru[0] != e && c.lru[0] in c.ents && |EvictHead(h, c).chains| > 0
  {
    assert c.lru != [] ==> c.lru[0] in c.lru;
  }

  /** Where the first loop of the insertion leaves the cache. */
  lemma AfterShrink<K(!new), V>(h: K -> nat, c: Cache<K, V>, e: Eid) returns (k: nat, c1: Cache<K, V>)
    requires Ok(h, c) && e in c.ents && !c.ents[e].linked
    ensures var w := c.ents[e].weight;
            && |c.chains| > 0 && c1 == Shrink(h, c, w, |c.lru|) && Ok(h, c1) && |c1.chains| > 0
            && Evicted(c, c1, k) && LeastPrefix(c, w, k) && e in c1.ents && c1.ents[e] == c.ents[e]
            && c1.curSize == c.curSize - k == Held(c, Count) + |c1.lru| && c1.curSize <= c.maxSize
            && c1.curWeight >= Held(c, Mass) && (c1.lru == [] ==> c1.curWeight == Held(c, Mass) && k == |c.lru|)
            && c1.maxSize == c.maxSize && c1.maxWeight == c.maxWeight
            && (c1.lru == [] || c1.curWeight + w <= c.maxWeight)
  {
    LruMember(h, c, e);
    k := ShrinkSpec(h, c, c.ents[e].weight);
    c1 := Shrink(h, c, c.ents[e].weight, |c.lru|);
    HeldAndIdle(h, c1);
    assert LimitsOk(c1) && Placed(h, c1);
    hide Ok, Shrink, LeastPrefix, Held;
  }

  /** The room that one more eviction makes for the count. */
  lemma OneMore<K(!new), V>(h: K -> nat, c: Cache<K, V>, c1: Cache<K, V>, e: Eid, k: nat)
    requires Ok(h, c1) && e in c1.ents && !c1.ents[e].linked && c1.lru != [] && |c1.chains| > 0 && Evicted(c, c1, k)
    ensures var c2 := EvictHead(h, c1);
            && Ok(h, c2) && Evicted(c, c2, k + 1) && |c2.chains| > 0 && e in c2.ents && c2.ents[e] == c1.ents[e]
            && c2.curSize == c1.curSize - 1 && c2.curWeight <= c1.curWeight
            && c2.maxSize == c1.maxSize && c2.maxWeight == c1.maxWeight
  {
    LruMember(h, c1, e);
    EvictHeadSpec(h, c1);
    hide Ok, EvictHead;
    EvictedTwice(c, c1, EvictHead(h, c1), k, 1);
    assert c1.lru[..1] == [c1.lru[0]];
  }

  /** Insert is refused exactly when the referenced entries alone leave no room, and then every
      idle entry has been evicted; otherwise exactly the shortest oldest prefix of idle entries
      that makes the weight fit is evicted, and one more only if the count is still full,
      before a same-key entry is replaced and the new one linked. */
  lemma InsertSpec<K(!new), V>(h: K -> nat, c: Cache<K, V>, e: Eid) returns (k: nat, c2: Cache<K, V>)
    requires Ok(h, c) && e in c.ents && !c.ents[e].linked
    ensures |c.chains| > 0
    ensures var r, w := Insert(h, c, e), c.ents[e].weight;
            && Ok(h, r.cache)
            && (r.Refused? <==> Held(c, Mass) + w > c.maxWeight || Held(c, Count) >= c.maxSize)
            && (r.Refused? ==> r.cache.lru == [] && Evicted(c, r.cache, |c.lru|))
            && LeastPrefix(c, w, k)
            && (r.Inserted? ==>
                  && Evicted(c, c2, if c.curSize - k >= c.maxSize then k + 1 else k)
                  && Ok(h, c2) && e in c2.ents && |c2.chains| > 0 && r.cache == Link(h, c2, e)
                  && Visible(r.cache, c.ents[e].key, e))
  {
    hide Ok, Held, LeastPrefix, Link, Evicted, Shrink, EvictHead, Visible;
    var c1;
    k, c1 := AfterShrink(h, c, e);
    c2 := c1;
    var w := c.ents[e].weight;
    if c1.curWeight + w > c.maxWeight || (c1.curSize >= c.maxSize && c1.lru == []) {
      assert Insert(h, c, e) == Refused(c1);
    } else {
      if c1.curSize >= c.maxSize {
        OneMore(h, c, c1, e, k);
        c2 := EvictHead(h, c1);
      }
      assert Insert(h, c, e) == Inserted(Link(h, c2, e));
      LinkOk(h, c2, e);
    }
  }

  // ----- emptying

  /** What deletion leaves of an entry: nothing if it is idle, a pending entry if it is in use. */
  ghost predicate Swept<K, V>(c: Cache<K, V>, c': Cache<K, V>, x: Eid, hit: bool) {
    && (x in c'.ents <==> x in c.ents && !(hit && c.ents[x].refs == 0))
    && (x in c'.ents ==> c'.ents[x] == if hit then c.ents[x].(pending := true) else c.ents[x])
  }

  lemma DeleteSwept<K(!new), V>(h: K -> nat, c: Cache<K, V>, e: Eid, x: Eid)
    requires Ok(h, c) && e in c.ents
    ensures Swept(c, Delete(h, c, e), x, x == e)
  {
  }

  lemma {:induction false} DeleteAllSpec<K(!new), V>(h: K -> nat, c: Cache<K, V>, q: seq<Eid>, b: nat)
    requires Ok(h, c) && NoDup(q) && b < |c.chains|
    requires forall e :: e in q ==> e in c.ents && c.ents[e].linked && Bucket(h, |c.chains|, c.ents[e].key) == b
    ensures var c' := DeleteAll(h, c, q);
            && Ok(h, c')
            && (forall x :: Swept(c, c', x, x in q))
            && (forall d :: 0 <= d < |c.chains| && d != b ==> c'.chains[d] == c.chains[d])
    decreases q
  {
    if q == [] {
    } else {
      var e, rest := q[0], q[1..];
      assert e in q;
      var c1, c' := Delete(h, c, e), DeleteAll(h, c, q);
      DeleteOk(h, c, e);
      assert forall x :: x in q <==> x == e || x in rest;
      assert e !in rest;
      assert forall d :: 0 <= d < |c.chains| && d != b ==> c1.chains[d] == c.chains[d];
      hide Ok, Delete;
      DeleteAllSpec(h, c1, rest, b);
      forall x
        ensures Swept(c, c', x, x in q)
      {
        DeleteSwept(h, c, e, x);
        assert Swept(c1, c', x, x in rest);
      }
    }
  }

  ghost predicate InBucketFrom<K, V>(h: K -> nat, c: Cache<K, V>, x: Eid, b: nat)
    requires |c.chains| > 0
  {
    x in c.ents && c.ents[x].linked && Bucket(h, |c.chains|, c.ents[x].key) >= b
  }

  /** Emptying one bucket. */
  lemma EmptyBucket<K(!new), V>(h: K -> nat, c: Cache<K, V>, b: nat)
    requires Ok(h, c) && b < |c.chains|
    ensures var c1 := DeleteAll(h, c, c.chains[b]);
            && Ok(h, c1) && |c1.chains| == |c.chains|
            && (forall x :: Swept(c, c1, x, x in c.chains[b]))
            && (forall x :: InBucketFrom(h, c, x, b) <==> x in c.chains[b] || InBucketFrom(h, c, x, b + 1))
            && (forall x :: x in c.chains[b] ==> !InBucketFrom(h, c, x, b + 1))
  {
    ChainsHold(h, c);
    assert ChainOk(h, c, b);
    DeleteAllSpec(h, c, c.chains[b], b);
    hide DeleteAll;
  }

  lemma {:induction false} EmptyFromSpec<K(!new), V>(h: K -> nat, c: Cache<K, V>, b: nat)
    requires Ok(h, c) && |c.chains| > 0 && b <= |c.chains|
    ensures var c' := EmptyFrom(h, c, b);
            Ok(h, c') && forall x :: Swept(c, c', x, InBucketFrom(h, c, x, b))
    decreases |c.chains| - b
  {
    hide Ok, DeleteAll;
    if b < |c.chains| {
      var c1, c' := DeleteAll(h, c, c.chains[b]), EmptyFrom(h, c, b);
      EmptyBucket(h, c, b);
      EmptyFromSpec(h, c1, b + 1);
      hide EmptyFrom;
      forall x
        ensures Swept(c, c', x, InBucketFrom(h, c, x, b))
      {
        assert Swept(c, c1, x, x in c.chains[b]);
        assert Swept(c1, c', x, InBucketFrom(h, c1, x, b + 1));
      }
    }
  }

  /** Every entry of the table is pending. */
  ghost predicate AllPending<K, V>(c: Cache<K, V>) {
    forall x :: x in c.ents && c.ents[x].linked ==> c.ents[x].pending
  }

  lemma HiddenFromLookup<K(!new), V>(h: K -> nat, c: Cache<K, V>)
    requires Ok(h, c) && AllPending(c)
    ensures forall k :: FindKey(h, c, k) == None
  {
    forall k
      ensures FindKey(h, c, k) == None
    {
      ChainsHold(h, c);
    }
  }

  /** `stx_cache_empty` leaves exactly the referenced entries in the table, all of them hidden
      from lookup, and entries that are not in the table untouched. */
  lemma EmptySpec<K(!new), V>(h: K -> nat, c: Cache<K, V>)
    requires Ok(h, c)
    ensures var c' := EmptyFrom(h, c, 0);
            && Ok(h, c')
            && (forall x :: x in c'.ents <==> x in c.ents && (c.ents[x].linked ==> c.ents[x].refs > 0))
            && (forall x :: x in c'.ents ==>
                  c'.ents[x] == if c.ents[x].linked then c.ents[x].(pending := true) else c.ents[x])
            && (forall k :: FindKey(h, c', k) == None)
  {
    var c' := EmptyFrom(h, c, 0);
    EmptyFromSpec(h, c, 0);
    assert |c.chains| > 0;
    hide Ok, EmptyFrom;
    forall x
      ensures x in c'.ents <==> x in c.ents && (c.ents[x].linked ==> c.ents[x].refs > 0)
      ensures x in c'.ents ==> c'.ents[x] == if c.ents[x].linked then c.ents[x].(pending := true) else c.ents[x]
    {
      assert Swept(c, c', x, InBucketFrom(h, c, x, 0));
    }
    HiddenFromLookup(h, c');
  }

  lemma SomeElem<T>(s: seq<T>)
    requires s != []
    ensures exists x :: x in s
  {
    assert s[0] in s;
  }

  ghost predicate NoRefs<K, V>(c: Cache<K, V>) {
    forall x :: x in c.ents ==> c.ents[x].refs == 0
  }

  lemma {:induction false} ZeroTable<K, V>(chains: seq<seq<Eid>>, ents: map<Eid, Ent<K, V>>, m: Measure, held: bool)
    requires forall b :: 0 <= b < |chains| ==> chains[b] == []
    ensures TSum(chains, ents, m, held) == 0
  {
    if chains == [] {
    } else {
      ZeroTable(chains[1..], ents, m, held);
    }
  }

  /** Once an emptied cache has no reference left, nothing is left in it. */
  lemma Drained<K(!new), V>(h: K -> nat, c: Cache<K, V>)
    requires Ok(h, c) && AllPending(c) && NoRefs(c)
    ensures c.curSize == 0 && c.curWeight == 0
  {
    HeldAndIdle(h, c);
    assert forall x :: x in c.ents ==> EntOk(c.ents[x]);
    if c.lru != [] {
      SomeElem(c.lru);
    }
    forall b | 0 <= b < |c.chains|
      ensures c.chains[b] == []
    {
      assert ChainOk(h, c, b);
      if c.chains[b] != [] {
        SomeElem(c.chains[b]);
      }
    }
    ZeroTable(c.chains, c.ents, Count, true);
    ZeroTable(c.chains, c.ents, Mass, true);
  }

  lemma ReleaseKeepsPending<K(!new), V>(h: K -> nat, c: Cache<K, V>, e: Eid)
    requires Ok(h, c) && AllPending(c) && e in c.ents
    ensures AllPending(Release(h, c, e))
  {
  }

  function ReleaseAll<K, V>(h: K -> nat, c: Cache<K, V>, es: seq<Eid>): (c': Cache<K, V>)
    requires |c.chains| > 0
    ensures |c'.chains| == |c.chains|
    decreases es
  {
    if es == [] then c else ReleaseAll(h, if es[0] in c.ents then Release(h, c, es[0]) else c, es[1..])
  }

  lemma {:induction false} ReleaseAllPending<K(!new), V>(h: K -> nat, c: Cache<K, V>, es: seq<Eid>)
    requires Ok(h, c) && AllPending(c)
    ensures Ok(h, ReleaseAll(h, c, es)) && AllPending(ReleaseAll(h, c, es))
    decreases es
  {
    if es == [] {
    } else {
      if es[0] in c.ents {
        ReleaseOk(h, c, es[0]);
        ReleaseKeepsPending(h, c, es[0]);
        ReleaseAllPending(h, Release(h, c, es[0]), es[1..]);
      } else {
        ReleaseAllPending(h, c, es[1..]);
      }
    }
  }

  /** Emptying and then releasing every reference, in any order, leaves size and weight zero. */
  lemma EmptyThenDrain<K(!new), V>(h: K -> nat, c: Cache<K, V>, es: seq<Eid>)
    requires Ok(h, c) && NoRefs(ReleaseAll(h, EmptyFrom(h, c, 0), es))
    ensures var c' := ReleaseAll(h, EmptyFrom(h, c, 0), es); c'.curSize == 0 && c'.curWeight == 0
  {
    EmptySpec(h, c);
    ReleaseAllPending(h, EmptyFrom(h, c, 0), es);
    Drained(h, ReleaseAll(h, EmptyFrom(h, c, 0), es));
  }

  // ----- creation

  lemma CreateOk<K(!new), V>(h: K -> nat, maxSize: nat, maxWeight: nat, n: nat)
    requires n > 0
    ensures Ok(h, Create<K, V>(maxSize, maxWeight, n))
    ensures var c := Create<K, V>(maxSize, maxWeight, n);
            && c.maxSize == maxSize && c.maxWeight == maxWeight && |c.chains| == n && c.ents == map[]
            && c.hits == c.lookups == c.inserts == c.deletes == 0
  {
    var c: Cache<K, V> := Create(maxSize, maxWeight, n);
    forall b | 0 <= b < |c.chains|
      ensures ChainOk(h, c, b)
    {
    }
    forall m: Measure, held: bool
      ensures TSum(c.chains, c.ents, m, held) == 0
    {
      ZeroTable(c.chains, c.ents, m, held);
    }
  }
}
