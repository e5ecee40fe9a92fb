/** What every operation of the cache keeps. */
module LruInv {
  import opened Lists
  import opened Lru

  // ----- sums over chains

  datatype Measure = Count | Mass

  /** What one entry contributes: itself or its weight; with `held`, only if it is referenced. */
  function Val<K, V>(x: Ent<K, V>, m: Measure, held: bool): nat {
    if held && x.refs == 0 then 0 else if m == Count then 1 else x.weight
  }

  function QSum<K, V>(q: seq<Eid>, ents: map<Eid, Ent<K, V>>, m: Measure, held: bool): nat {
    if q == [] then 0 else (if q[0] in ents then Val(ents[q[0]], m, held) else 0) + QSum(q[1..], ents, m, held)
  }

  function TSum<K, V>(chains: seq<seq<Eid>>, ents: map<Eid, Ent<K, V>>, m: Measure, held: bool): nat {
    if chains == [] then 0 else QSum(chains[0], ents, m, held) + TSum(chains[1..], ents, m, held)
  }

  lemma {:induction false} QFrame<K, V>(q: seq<Eid>, ents: map<Eid, Ent<K, V>>, ents': map<Eid, Ent<K, V>>, m: Measure, held: bool)
    requires forall e :: e in q ==> e in ents && e in ents' && Val(ents[e], m, held) == Val(ents'[e], m, held)
    ensures QSum(q, ents, m, held) == QSum(q, ents', m, held)
  {
    if q == [] {
    } else {
      assert q[0] in q;
      QFrame(q[1..], ents, ents', m, held);
    }
  }

  lemma {:induction false} QRemove<K, V>(q: seq<Eid>, e: Eid, ents: map<Eid, Ent<K, V>>, m: Measure, held: bool)
    requires e in q && e in ents
    ensures QSum(q, ents, m, held) == QSum(Remove(q, e), ents, m, held) + Val(ents[e], m, held)
  {
    if q[0] != e {
      QRemove(q[1..], e, ents, m, held);
      var r := Remove(q[1..], e);
      assert ([q[0]] + r)[1..] == r;
    }
  }

  lemma {:induction false} QAppend<K, V>(q: seq<Eid>, e: Eid, ents: map<Eid, Ent<K, V>>, m: Measure, held: bool)
    requires e in ents
    ensures QSum(q + [e], ents, m, held) == QSum(q, ents, m, held) + Val(ents[e], m, held)
  {
    if q == [] {
    } else {
      QAppend(q[1..], e, ents, m, held);
      assert (q + [e])[1..] == q[1..] + [e];
    }
  }

  /** Changing one entry of a chain changes the sum by the change of that entry. */
  lemma QChange<K, V>(q: seq<Eid>, e: Eid, ents: map<Eid, Ent<K, V>>, x: Ent<K, V>, m: Measure, held: bool)
    requires NoDup(q) && e in q && forall y :: y in q ==> y in ents
    ensures QSum(q, ents[e := x], m, held) == QSum(q, ents, m, held) - Val(ents[e], m, held) + Val(x, m, held)
  {
    QRemove(q, e, ents, m, held);
    QRemove(q, e, ents[e := x], m, held);
    RemoveElems(q, e);
    QFrame(Remove(q, e), ents, ents[e := x], m, held);
  }

  lemma {:induction false} TFrame<K, V>(
    chains: seq<seq<Eid>>, ents: map<Eid, Ent<K, V>>, ents': map<Eid, Ent<K, V>>, m: Measure, held: bool)
    requires forall b, e :: 0 <= b < |chains| && e in chains[b] ==>
               e in ents && e in ents' && Val(ents[e], m, held) == Val(ents'[e], m, held)
    ensures TSum(chains, ents, m, held) == TSum(chains, ents', m, held)
  {
    if chains == [] {
    } else {
      forall e | e in chains[0]
        ensures e in ents && e in ents' && Val(ents[e], m, held) == Val(ents'[e], m, held)
      {
      }
      QFrame(chains[0], ents, ents', m, held);
      forall b, e | 0 <= b < |chains[1..]| && e in chains[1..][b]
        ensures e in ents && e in ents' && Val(ents[e], m, held) == Val(ents'[e], m, held)
      {
        assert e in chains[b + 1];
      }
      TFrame(chains[1..], ents, ents', m, held);
    }
  }

  lemma {:induction false} TSplit<K, V>(chains: seq<seq<Eid>>, b: nat, q: seq<Eid>, ents: map<Eid, Ent<K, V>>, m: Measure, held: bool)
    requires b < |chains|
    ensures TSum(chains[b := q], ents, m, held) == TSum(chains[b := []], ents, m, held) + QSum(q, ents, m, held)
  {
    if b == 0 {
      assert chains[b := q][1..] == chains[1..] == chains[b := []][1..];
    } else {
      TSplit(chains[1..], b - 1, q, ents, m, held);
      assert chains[b := q][1..] == chains[1..][b - 1 := q];
      assert chains[b := []][1..] == chains[1..][b - 1 := []];
    }
  }

  // ----- the invariant

  ghost predicate ChainOk<K, V>(h: K -> nat, c: Cache<K, V>, b: nat)
    requires b < |c.chains|
  {
    && NoDup(c.chains[b])
    && forall e :: e in c.chains[b] ==> e in c.ents && c.ents[e].linked && Bucket(h, |c.chains|, c.ents[e].key) == b
  }

  /** Chain `b` holds exactly the linked entries whose key hashes to `b`. */
  ghost predicate Placed<K, V>(h: K -> nat, c: Cache<K, V>) {
    && |c.chains| > 0
    && (forall b {:trigger ChainOk(h, c, b)} :: 0 <= b < |c.chains| ==> ChainOk(h, c, b))
    && (forall e :: e in c.ents && c.ents[e].linked ==> e in c.chains[Bucket(h, |c.chains|, c.ents[e].key)])
  }

  /** Only linked entries are referenced, and a pending entry is referenced. */
  ghost predicate EntOk<K, V>(x: Ent<K, V>) {
    (!x.linked ==> x.refs == 0) && (x.pending ==> x.refs > 0)
  }

  ghost predicate EntsOk<K, V>(c: Cache<K, V>) {
    forall e :: e in c.ents ==> EntOk(c.ents[e])
  }

  /** `q` is strictly increasing by `idleSince`. */
  ghost predicate ByAge<K, V>(q: seq<Eid>, ents: map<Eid, Ent<K, V>>) {
    && (forall e :: e in q ==> e in ents)
    && forall i, j :: 0 <= i < j < |q| ==> ents[q[i]].idleSince < ents[q[j]].idleSince
  }

  /** The LRU list holds exactly the linked entries that nobody references, by the time at
      which their count last dropped to zero. */
  ghost predicate LruOk<K, V>(c: Cache<K, V>) {
    && NoDup(c.lru)
    && (forall e :: e in c.lru <==> e in c.ents && c.ents[e].linked && c.ents[e].refs == 0)
    && (forall e :: e in c.lru ==> c.ents[e].idleSince < c.ticks)
    && ByAge(c.lru, c.ents)
  }

  ghost predicate Visible<K, V>(c: Cache<K, V>, k: K, e: Eid) {
    e in c.ents && c.ents[e].linked && !c.ents[e].pending && c.ents[e].key == k
  }

  /** At most one visible entry per key. */
  ghost predicate KeysOk<K(!new), V>(c: Cache<K, V>) {
    forall k, e, f :: Visible(c, k, e) && Visible(c, k, f) ==> e == f
  }

  ghost predicate SumOk<K, V>(c: Cache<K, V>, m: Measure) {
    && (if m == Count then c.curSize else c.curWeight) == TSum(c.chains, c.ents, m, false)
    && TSum(c.chains, c.ents, m, true) + QSum(c.lru, c.ents, m, false) == TSum(c.chains, c.ents, m, false)
  }

  /** The counters are the count and the weight of the table; what is not referenced is what
      the LRU list holds. */
  ghost predicate SumsOk<K, V>(c: Cache<K, V>) {
    SumOk(c, Count) && SumOk(c, Mass) && c.inserts - c.deletes == c.curSize
  }

  ghost predicate LimitsOk<K, V>(c: Cache<K, V>) {
    c.curSize <= c.maxSize && c.curWeight <= c.maxWeight
  }

  /** No entry is cleaned up twice or while it is alive. */
  ghost predicate CleanOk<K, V>(c: Cache<K, V>) {
    NoDup(c.cleaned) && forall e :: e in c.cleaned ==> e !in c.ents
  }

  /** The latest entry inserted under `k` that has not since been deleted, evicted or replaced. */
  ghost function Latest<K>(facts: seq<Fact<K>>, k: K): Option<Eid> {
    if facts == [] then None
    else
      var f, before := facts[|facts| - 1], Latest(facts[..|facts| - 1], k);
      match f
      case Put(k', e) => if k' == k then Some(e) else before
      case Gone(e) => if before == Some(e) then None else before
  }

  ghost predicate FactsOk<K(!new), V>(c: Cache<K, V>) {
    forall k, e: Eid :: Latest(c.facts, k) == Some(e) <==> Visible(c, k, e)
  }

  ghost predicate Ok<K(!new), V>(h: K -> nat, c: Cache<K, V>) {
    && Placed(h, c) && EntsOk(c) && LruOk(c) && KeysOk(c) && SumsOk(c) && LimitsOk(c) && CleanOk(c) && FactsOk(c)
  }

  lemma SomeBucket<K(!new), V>(h: K -> nat, c: Cache<K, V>)
    requires Ok(h, c)
    ensures |c.chains| > 0
  {
  }

  lemma ChainsHold<K, V>(h: K -> nat, c: Cache<K, V>)
    requires Placed(h, c)
    ensures forall b, e :: 0 <= b < |c.chains| && e in c.chains[b] ==>
              e in c.ents && c.ents[e].linked && Bucket(h, |c.chains|, c.ents[e].key) == b
  {
    forall b, e | 0 <= b < |c.chains| && e in c.chains[b]
      ensures e in c.ents && c.ents[e].linked && Bucket(h, |c.chains|, c.ents[e].key) == b
    {
      assert ChainOk(h, c, b);
    }
  }

  // ----- freeing an entry

  lemma FreePlaced<K, V>(h: K -> nat, c: Cache<K, V>, e: Eid)
    requires Placed(h, c) && e in c.ents
    ensures Placed(h, Free(h, c, e))
  {
    var c', x := Free(h, c, e), c.ents[e];
    var b := Bucket(h, |c.chains|, x.key);
    assert ChainOk(h, c, b);
    RemoveElems(c.chains[b], e);
    forall d | 0 <= d < |c'.chains|
      ensures ChainOk(h, c', d)
    {
      assert ChainOk(h, c, d);
    }
  }

  /** Unlinking an entry subtracts what it contributed. */
  lemma FreeTable<K, V>(h: K -> nat, c: Cache<K, V>, e: Eid, m: Measure, held: bool)
    requires Placed(h, c) && e in c.ents
    ensures TSum(Free(h, c, e).chains, Free(h, c, e).ents, m, held) ==
            TSum(c.chains, c.ents, m, held) - if c.ents[e].linked then Val(c.ents[e], m, held) else 0
  {
    var c', x, b := Free(h, c, e), c.ents[e], Bucket(h, |c.chains|, c.ents[e].key);
    ChainsHold(h, c);
    assert ChainOk(h, c, b);
    if x.linked {
      var q, base := c.chains[b], c.chains[b := []];
      RemoveElems(q, e);
      TSplit(c.chains, b, q, c.ents, m, held);
      assert c.chains[b := q] == c.chains;
      TSplit(c.chains, b, Remove(q, e), c'.ents, m, held);
      QRemove(q, e, c.ents, m, held);
      QFrame(Remove(q, e), c.ents, c'.ents, m, held);
      TFrame(base, c.ents, c'.ents, m, held);
    } else {
      TFrame(c.chains, c.ents, c'.ents, m, held);
    }
  }

  lemma CutByAge<K, V>(q: seq<Eid>, ents: map<Eid, Ent<K, V>>, i: nat)
    requires ByAge(q, ents) && i < |q|
    ensures ByAge(q[..i] + q[i + 1..], ents)
  {
    var r := q[..i] + q[i + 1..];
    forall e | e in r
      ensures e in ents
    {
      assert e in q[..i] || e in q[i + 1..];
    }
    forall j, k | 0 <= j < k < |r|
      ensures ents[r[j]].idleSince < ents[r[k]].idleSince
    {
      var j', k' := if j < i then j else j + 1, if k < i then k else k + 1;
      assert r[j] == q[j'] && r[k] == q[k'];
    }
  }

  lemma RemoveByAge<K, V>(q: seq<Eid>, ents: map<Eid, Ent<K, V>>, e: Eid)
    requires ByAge(q, ents)
    ensures ByAge(Remove(q, e), ents)
  {
    hide ByAge;
    if e in q {
      var i := RemoveSplit(q, e);
      CutByAge(q, ents, i);
    } else {
      RemoveAbsent(q, e);
    }
  }

  lemma ByAgeFrame<K, V>(q: seq<Eid>, ents: map<Eid, Ent<K, V>>, ents': map<Eid, Ent<K, V>>)
    requires ByAge(q, ents) && forall e :: e in q ==> e in ents' && ents'[e].idleSince == ents[e].idleSince
    ensures ByAge(q, ents')
  {
  }

  lemma FreeLru<K, V>(h: K -> nat, c: Cache<K, V>, e: Eid)
    requires LruOk(c) && e in c.ents && c.ents[e].refs == 0 && |c.chains| > 0
    ensures LruOk(Free(h, c, e))
  {
    hide ByAge;
    var c' := Free(h, c, e);
    if c.ents[e].linked {
      RemoveElems(c.lru, e);
      RemoveByAge(c.lru, c.ents, e);
    }
    ByAgeFrame(c'.lru, c.ents, c'.ents);
  }

  lemma FreeLruSum<K, V>(h: K -> nat, c: Cache<K, V>, e: Eid, m: Measure)
    requires LruOk(c) && e in c.ents && c.ents[e].refs == 0 && |c.chains| > 0
    ensures QSum(Free(h, c, e).lru, Free(h, c, e).ents, m, false) ==
            QSum(c.lru, c.ents, m, false) - if c.ents[e].linked then Val(c.ents[e], m, false) else 0
  {
    var c' := Free(h, c, e);
    RemoveElems(c.lru, e);
    if c.ents[e].linked {
      QRemove(c.lru, e, c.ents, m, false);
    }
    QFrame(c'.lru, c.ents, c'.ents, m, false);
  }

  lemma LatestAppend<K>(facts: seq<Fact<K>>, f: Fact<K>, k: K)
    ensures Latest(facts + [f], k) ==
            match f
            case Put(k', e) => if k' == k then Some(e) else Latest(facts, k)
            case Gone(e) => if Latest(facts, k) == Some(e) then None else Latest(facts, k)
  {
    assert (facts + [f])[..|facts|] == facts;
  }

  /** Hiding an entry is what the history records. */
  lemma GoneFacts<K(!new), V>(c: Cache<K, V>, c': Cache<K, V>, e: Eid)
    requires FactsOk(c) && c'.facts == c.facts + [Gone(e)]
    requires forall k, f: Eid :: Visible(c', k, f) <==> Visible(c, k, f) && f != e
    ensures FactsOk(c')
  {
    forall k, f: Eid
      ensures Latest(c'.facts, k) == Some(f) <==> Visible(c', k, f)
    {
      LatestAppend(c.facts, Gone(e), k);
      assert Latest(c.facts, k).Some? ==> Visible(c, k, Latest(c.facts, k).value);
    }
  }

  lemma FreeSums<K(!new), V>(h: K -> nat, c: Cache<K, V>, e: Eid)
    requires Placed(h, c) && LruOk(c) && SumsOk(c) && e in c.ents && c.ents[e].refs == 0
    ensures SumsOk(Free(h, c, e))
  {
    FreeLruSum(h, c, e, Count);
    FreeLruSum(h, c, e, Mass);
    forall m: Measure, held: bool
      ensures TSum(Free(h, c, e).chains, Free(h, c, e).ents, m, held) ==
              TSum(c.chains, c.ents, m, held) - if c.ents[e].linked then Val(c.ents[e], m, held) else 0
    {
      FreeTable(h, c, e, m, held);
    }
    hide LruOk, Placed;
    assert SumOk(c, Count) && SumOk(c, Mass);
  }

  /** Freeing an unreferenced entry keeps everything but the record of what is visible. */
  lemma FreeOk<K(!new), V>(h: K -> nat, c: Cache<K, V>, e: Eid)
    requires Placed(h, c) && LruOk(c) && KeysOk(c) && SumsOk(c) && LimitsOk(c) && CleanOk(c)
    requires e in c.ents && c.ents[e].refs == 0 && forall y :: y in c.ents && y != e ==> EntOk(c.ents[y])
    ensures var c' := Free(h, c, e);
            Placed(h, c') && EntsOk(c') && LruOk(c') && KeysOk(c') && SumsOk(c') && LimitsOk(c') && CleanOk(c')
  {
    var c' := Free(h, c, e);
    FreePlaced(h, c, e);
    FreeLru(h, c, e);
    FreeSums(h, c, e);
    hide Placed, LruOk, SumsOk;
    assert KeysOk(c') by {
      assert forall k, f: Eid :: Visible(c', k, f) ==> Visible(c, k, f);
    }
    AppendNoDup(c.cleaned, e);
  }

  // ----- operations

  /** The sums depend on the weights and on who is referenced. */
  lemma SumsFrame<K(!new), V>(h: K -> nat, c: Cache<K, V>, c': Cache<K, V>)
    requires Placed(h, c) && LruOk(c) && SumsOk(c) && c'.chains == c.chains && c'.lru == c.lru
    requires c'.curSize == c.curSize && c'.curWeight == c.curWeight && c'.inserts == c.inserts && c'.deletes == c.deletes
    requires forall e :: e in c.ents ==>
               && e in c'.ents && c'.ents[e].weight == c.ents[e].weight
               && (c'.ents[e].refs == 0 <==> c.ents[e].refs == 0)
    ensures SumsOk(c')
  {
    ChainsHold(h, c);
    forall m: Measure, held: bool
      ensures TSum(c'.chains, c'.ents, m, held) == TSum(c.chains, c.ents, m, held)
      ensures QSum(c'.lru, c'.ents, m, held) == QSum(c.lru, c.ents, m, held)
    {
      hide Placed, TSum, QSum;
      TFrame(c.chains, c.ents, c'.ents, m, held);
      QFrame(c.lru, c.ents, c'.ents, m, held);
    }
    assert SumOk(c, Count) && SumOk(c, Mass);
    hide Placed, LruOk, TSum, QSum;
  }

  /** Every chain stays as it is, and so do the keys of its entries. */
  lemma SamePlaces<K, V>(h: K -> nat, c: Cache<K, V>, c': Cache<K, V>)
    requires Placed(h, c) && c'.chains == c.chains
    requires forall e :: e in c.ents ==> e in c'.ents && c'.ents[e].key == c.ents[e].key && c'.ents[e].linked == c.ents[e].linked
    requires forall e :: e in c'.ents && e !in c.ents ==> !c'.ents[e].linked
    ensures Placed(h, c')
  {
    forall b | 0 <= b < |c'.chains|
      ensures ChainOk(h, c', b)
    {
      assert ChainOk(h, c, b);
    }
  }

  /** The entry `e` has changed in nothing that its place or the sums depend on. */
  lemma ChangeOk<K(!new), V>(h: K -> nat, c: Cache<K, V>, e: Eid, x: Ent<K, V>, c': Cache<K, V>)
    requires Placed(h, c) && EntsOk(c) && LruOk(c) && KeysOk(c) && SumsOk(c) && e in c.ents && EntOk(x)
    requires c'.chains == c.chains && c'.lru == c.lru && c'.ents == c.ents[e := x] && c'.ticks == c.ticks
    requires c'.curSize == c.curSize && c'.curWeight == c.curWeight && c'.inserts == c.inserts && c'.deletes == c.deletes
    requires var y := c.ents[e];
             && x.key == y.key && x.weight == y.weight && x.linked == y.linked && x.idleSince == y.idleSince
             && (x.refs == 0 <==> y.refs == 0) && (y.pending ==> x.pending)
    ensures Placed(h, c') && EntsOk(c') && LruOk(c') && KeysOk(c') && SumsOk(c')
  {
    SumsFrame(h, c, c');
    SamePlaces(h, c, c');
    hide Placed, SumsOk;
    ByAgeFrame(c.lru, c.ents, c'.ents);
    assert KeysOk(c') by {
      assert forall k, f: Eid :: Visible(c', k, f) ==> Visible(c, k, f);
    }
  }

  /** `stx_cache_entry_delete`. */
  lemma DeleteOk<K(!new), V>(h: K -> nat, c: Cache<K, V>, e: Eid)
    requires Ok(h, c) && e in c.ents
    ensures Ok(h, Delete(h, c, e))
  {
    var c', c1 := Delete(h, c, e), c.(facts := c.facts + [Gone(e)]);
    if c.ents[e].refs == 0 {
      assert Placed(h, c1) by {
        assert forall b :: 0 <= b < |c.chains| && ChainOk(h, c, b) ==> ChainOk(h, c1, b);
      }
      assert KeysOk(c1) by {
        assert forall k, f: Eid :: Visible(c1, k, f) ==> Visible(c, k, f);
      }
      FreeOk(h, c1, e);
    } else {
      ChangeOk(h, c, e, c.ents[e].(pending := true), c');
    }
    hide Placed, LruOk, SumsOk, KeysOk;
    GoneFacts(c, c', e);
  }

  /** Changing an entry in place changes a table sum by the change of that entry. */
  lemma TChange<K, V>(h: K -> nat, c: Cache<K, V>, e: Eid, x: Ent<K, V>, m: Measure, held: bool)
    requires Placed(h, c) && e in c.ents && c.ents[e].linked
    ensures TSum(c.chains, c.ents[e := x], m, held) ==
            TSum(c.chains, c.ents, m, held) - Val(c.ents[e], m, held) + Val(x, m, held)
  {
    var b := Bucket(h, |c.chains|, c.ents[e].key);
    var q, ents' := c.chains[b], c.ents[e := x];
    ChainsHold(h, c);
    assert ChainOk(h, c, b);
    assert c.chains[b := q] == c.chains;
    hide Placed, TSum, QSum;
    TSplit(c.chains, b, q, c.ents, m, held);
    TSplit(c.chains, b, q, ents', m, held);
    QChange(q, e, c.ents, x, m, held);
    TFrame(c.chains[b := []], c.ents, ents', m, held);
  }

  /** An idle entry is taken into use: it leaves the LRU list. */
  lemma TakeSums<K(!new), V>(h: K -> nat, c: Cache<K, V>, e: Eid, x: Ent<K, V>, c': Cache<K, V>)
    requires Placed(h, c) && LruOk(c) && SumsOk(c) && e in c.lru
    requires x == c.ents[e].(refs := 1)
    requires c'.chains == c.chains && c'.lru == Remove(c.lru, e) && c'.ents == c.ents[e := x]
    requires c'.curSize == c.curSize && c'.curWeight == c.curWeight && c'.inserts == c.inserts && c'.deletes == c.deletes
    ensures SumsOk(c')
  {
    RemoveElems(c.lru, e);
    forall m: Measure
      ensures SumOk(c', m)
    {
      TChange(h, c, e, x, m, false);
      TChange(h, c, e, x, m, true);
      QRemove(c.lru, e, c.ents, m, false);
      QFrame(c'.lru, c.ents, c'.ents, m, false);
      assert SumOk(c, Count) && SumOk(c, Mass);
    }
  }

  /** The last reference goes: the entry joins the end of the LRU list. */
  lemma IdleSums<K(!new), V>(h: K -> nat, c: Cache<K, V>, e: Eid, x: Ent<K, V>, c': Cache<K, V>)
    requires Placed(h, c) && LruOk(c) && SumsOk(c) && e in c.ents && c.ents[e].linked && c.ents[e].refs > 0
    requires x == c.ents[e].(refs := 0, idleSince := c.ticks)
    requires c'.chains == c.chains && c'.lru == c.lru + [e] && c'.ents == c.ents[e := x]
    requires c'.curSize == c.curSize && c'.curWeight == c.curWeight && c'.inserts == c.inserts && c'.deletes == c.deletes
    ensures SumsOk(c')
  {
    forall m: Measure
      ensures SumOk(c', m)
    {
      TChange(h, c, e, x, m, false);
      TChange(h, c, e, x, m, true);
      QAppend(c.lru, e, c'.ents, m, false);
      QFrame(c.lru, c.ents, c'.ents, m, false);
      assert SumOk(c, Count) && SumOk(c, Mass);
    }
  }

  /** The place of an entry does not depend on its reference count. */
  lemma PlacedFrame<K, V>(h: K -> nat, c: Cache<K, V>, e: Eid, c': Cache<K, V>)
    requires Placed(h, c) && e in c.ents && c'.chains == c.chains && e in c'.ents && c'.ents == c.ents[e := c'.ents[e]]
    requires c'.ents[e].key == c.ents[e].key && c'.ents[e].linked == c.ents[e].linked
    ensures Placed(h, c')
  {
    forall b | 0 <= b < |c'.chains|
      ensures ChainOk(h, c', b)
    {
      assert ChainOk(h, c, b);
    }
  }

  lemma SameVisible<K(!new), V>(c: Cache<K, V>, c': Cache<K, V>)
    requires KeysOk(c) && FactsOk(c) && c'.facts == c.facts
    requires forall k, f: Eid :: Visible(c', k, f) <==> Visible(c, k, f)
    ensures KeysOk(c') && FactsOk(c')
  {
  }

  lemma TakeParts<K(!new), V>(h: K -> nat, c: Cache<K, V>, e: Eid, c': Cache<K, V>)
    requires Ok(h, c) && e in c.lru
    requires c' == SetEnt(c, e, c.ents[e].(refs := 1)).(
                     lru := Remove(c.lru, e), hits := c.hits + 1, lookups := c.lookups + 1)
    ensures Placed(h, c') && LruOk(c') && SumsOk(c') && KeysOk(c') && FactsOk(c')
  {
    TakeSums(h, c, e, c'.ents[e], c');
    PlacedFrame(h, c, e, c');
    SameVisible(c, c');
    hide Placed, SumsOk, ByAge, KeysOk, FactsOk;
    RemoveElems(c.lru, e);
    RemoveByAge(c.lru, c.ents, e);
    ByAgeFrame(c'.lru, c.ents, c'.ents);
  }

  /** Counting a lookup changes nothing else. */
  lemma CountedOk<K(!new), V>(h: K -> nat, c: Cache<K, V>)
    requires Ok(h, c)
    ensures Ok(h, c.(lookups := c.lookups + 1))
  {
    var c' := c.(lookups := c.lookups + 1);
    SumsFrame(h, c, c');
    SamePlaces(h, c, c');
    hide Placed, SumsOk;
    SameVisible(c, c');
  }

  /** A lookup finds an idle entry. */
  lemma TakeOk<K(!new), V>(h: K -> nat, c: Cache<K, V>, e: Eid, c': Cache<K, V>)
    requires Ok(h, c) && e in c.lru && e in c.ents
    requires c' == SetEnt(c, e, c.ents[e].(refs := 1)).(
                     lookups := c.lookups + 1, hits := c.hits + 1, lru := Remove(c.lru, e))
    ensures Ok(h, c')
  {
    assert c.ents[e].linked && !c.ents[e].pending by {
      assert EntOk(c.ents[e]);
    }
    TakeParts(h, c, e, c');
    hide Placed, LruOk, SumsOk, KeysOk, FactsOk, Remove;
  }

  /** A lookup finds an entry that is already referenced. */
  lemma ShareOk<K(!new), V>(h: K -> nat, c: Cache<K, V>, e: Eid, c': Cache<K, V>)
    requires Ok(h, c) && e in c.ents && c.ents[e].refs > 0
    requires c' == SetEnt(c, e, c.ents[e].(refs := c.ents[e].refs + 1)).(lookups := c.lookups + 1, hits := c.hits + 1)
    ensures Ok(h, c')
  {
    assert EntOk(c.ents[e]);
    ChangeOk(h, c, e, c'.ents[e], c');
    SameVisible(c, c');
    hide Placed, LruOk, SumsOk, KeysOk, FactsOk;
  }

  lemma LookupHitOk<K(!new), V>(h: K -> nat, c: Cache<K, V>, k: K, e: Eid)
    requires Ok(h, c) && FindKey(h, c, k) == Some(e)
    ensures Ok(h, Lookup(h, c, k))
  {
    assert e in c.ents && (c.ents[e].refs == 0 ==> e in c.lru) by {
      ChainsHold(h, c);
    }
    hide Ok, FindKey, Remove;
    if c.ents[e].refs == 0 {
      TakeOk(h, c, e, Lookup(h, c, k));
    } else {
      ShareOk(h, c, e, Lookup(h, c, k));
    }
  }

  /** `stx_cache_entry_lookup`. */
  lemma LookupOk<K(!new), V>(h: K -> nat, c: Cache<K, V>, k: K)
    requires Ok(h, c)
    ensures Ok(h, Lookup(h, c, k))
  {
    assert |c.chains| > 0;
    hide Ok, FindKey;
    match FindKey(h, c, k)
    case None => CountedOk(h, c);
    case Some(e) => LookupHitOk(h, c, k, e);
  }

  /** The data of an entry may be changed in place. */
  lemma DataOk<K(!new), V>(h: K -> nat, c: Cache<K, V>, e: Eid, d: V)
    requires Ok(h, c) && e in c.ents
    ensures Ok(h, SetEnt(c, e, c.ents[e].(data := d)))
  {
    var c' := SetEnt(c, e, c.ents[e].(data := d));
    assert EntOk(c.ents[e]);
    ChangeOk(h, c, e, c'.ents[e], c');
    SameVisible(c, c');
  }

  /** The state after the last reference has gone, before a pending deletion is carried out. */
  lemma IdleParts<K(!new), V>(h: K -> nat, c: Cache<K, V>, e: Eid, c': Cache<K, V>)
    requires Ok(h, c) && e in c.ents && c.ents[e].refs == 1
    requires c' == SetEnt(c, e, c.ents[e].(refs := 0, idleSince := c.ticks)).(lru := c.lru + [e], ticks := c.ticks + 1)
    ensures Placed(h, c') && LruOk(c') && SumsOk(c') && KeysOk(c') && FactsOk(c')
  {
    assert EntOk(c.ents[e]);
    IdleSums(h, c, e, c'.ents[e], c');
    PlacedFrame(h, c, e, c');
    AppendNoDup(c.lru, e);
    SameVisible(c, c');
  }

  lemma DropOneOk<K(!new), V>(h: K -> nat, c: Cache<K, V>, e: Eid)
    requires Ok(h, c) && e in c.ents && c.ents[e].refs > 1
    ensures Ok(h, Release(h, c, e))
  {
    var c', x := Release(h, c, e), c.ents[e];
    assert EntOk(x);
    ChangeOk(h, c, e, x.(refs := x.refs - 1), c');
    SameVisible(c, c');
  }

  lemma DropLastOk<K(!new), V>(h: K -> nat, c: Cache<K, V>, e: Eid)
    requires Ok(h, c) && e in c.ents && c.ents[e].refs == 1
    ensures Ok(h, Release(h, c, e))
  {
    assert |c.chains| > 0;
    hide Placed, LruOk, SumsOk;
    var c', x := Release(h, c, e), c.ents[e];
    var c1 := SetEnt(c, e, x.(refs := 0, idleSince := c.ticks)).(lru := c.lru + [e], ticks := c.ticks + 1);
    IdleParts(h, c, e, c1);
    if x.pending {
      FreeOk(h, c1, e);
      SameVisible(c1, c');
    }
  }

  /** `stx_cache_entry_release`. */
  lemma ReleaseOk<K(!new), V>(h: K -> nat, c: Cache<K, V>, e: Eid)
    requires Ok(h, c) && e in c.ents
    ensures Ok(h, Release(h, c, e))
  {
    if c.ents[e].refs > 1 {
      DropOneOk(h, c, e);
    } else if c.ents[e].refs == 1 {
      DropLastOk(h, c, e);
    }
  }

  lemma NewEntryOk<K(!new), V>(h: K -> nat, c: Cache<K, V>, e: Eid, k: K, d: V, w: nat)
    requires Ok(h, c) && e !in c.ents && e !in c.cleaned
    ensures Ok(h, NewEntry(c, e, k, d, w))
  {
    var c' := NewEntry(c, e, k, d, w);
    SumsFrame(h, c, c');
    SamePlaces(h, c, c');
    hide Placed, SumsOk;
    ByAgeFrame(c.lru, c.ents, c'.ents);
    SameVisible(c, c');
  }

  lemma EvictHeadOk<K(!new), V>(h: K -> nat, c: Cache<K, V>)
    requires Ok(h, c)
    ensures Ok(h, EvictHead(h, c))
  {
    if c.lru != [] {
      assert c.lru[0] in c.lru;
      DeleteOk(h, c, c.lru[0]);
    }
  }

  lemma QPrepend<K, V>(q: seq<Eid>, e: Eid, ents: map<Eid, Ent<K, V>>, m: Measure, held: bool)
    requires e in ents
    ensures QSum([e] + q, ents, m, held) == Val(ents[e], m, held) + QSum(q, ents, m, held)
  {
    assert ([e] + q)[1..] == q;
  }

  /** What an unlinked entry adds to the table when it goes to the head of a chain. */
  lemma LinkTable<K, V>(h: K -> nat, c: Cache<K, V>, e: Eid, x: Ent<K, V>, b: nat, m: Measure, held: bool)
    requires Placed(h, c) && e in c.ents && !c.ents[e].linked && b < |c.chains|
    ensures TSum(c.chains[b := [e] + c.chains[b]], c.ents[e := x], m, held) == TSum(c.chains, c.ents, m, held) + Val(x, m, held)
  {
    hide TSum, QSum, Bucket, Val;
    var q, ents' := c.chains[b], c.ents[e := x];
    ChainsHold(h, c);
    assert c.chains[b := q] == c.chains;
    QPrepend(q, e, ents', m, held);
    TSplit(c.chains, b, [e] + q, ents', m, held);
    TSplit(c.chains, b, q, c.ents, m, held);
    TFrame(c.chains[b := []], c.ents, ents', m, held);
    QFrame(q, c.ents, ents', m, held);
  }

  /** A new entry goes to the head of its chain, referenced once. */
  lemma LinkSums<K(!new), V>(h: K -> nat, c: Cache<K, V>, e: Eid, x: Ent<K, V>, b: nat, c': Cache<K, V>)
    requires Placed(h, c) && SumsOk(c) && LruOk(c) && e in c.ents && !c.ents[e].linked && b < |c.chains|
    requires x.refs > 0 && x.weight == c.ents[e].weight
    requires c'.chains == c.chains[b := [e] + c.chains[b]] && c'.ents == c.ents[e := x] && c'.lru == c.lru
    requires c'.curSize == c.curSize + 1 && c'.curWeight == c.curWeight + x.weight
    requires c'.inserts == c.inserts + 1 && c'.deletes == c.deletes
    ensures SumsOk(c')
  {
    assert SumOk(c, Count) && SumOk(c, Mass);
    forall m: Measure, held: bool
      ensures TSum(c'.chains, c'.ents, m, held) == TSum(c.chains, c.ents, m, held) + Val(x, m, held)
      ensures QSum(c'.lru, c'.ents, m, held) == QSum(c.lru, c.ents, m, held)
    {
      hide Placed, TSum, QSum;
      LinkTable(h, c, e, x, b, m, held);
      QFrame(c.lru, c.ents, c'.ents, m, held);
    }
    hide Placed, LruOk, TSum, QSum;
  }

  lemma LinkPlaced<K, V>(h: K -> nat, c: Cache<K, V>, e: Eid, x: Ent<K, V>, c': Cache<K, V>)
    requires Placed(h, c) && e in c.ents && !c.ents[e].linked && x.linked
    requires var b := Bucket(h, |c.chains|, x.key);
             c'.chains == c.chains[b := [e] + c.chains[b]] && c'.ents == c.ents[e := x]
    ensures Placed(h, c')
  {
    ChainsHold(h, c);
    forall d | 0 <= d < |c'.chains|
      ensures ChainOk(h, c', d)
    {
      assert ChainOk(h, c, d);
    }
  }

  /** Linking when no visible entry has the key and there is room. */
  lemma LinkFreshOk<K(!new), V>(h: K -> nat, c: Cache<K, V>, e: Eid, x: Ent<K, V>, c': Cache<K, V>)
    requires Ok(h, c) && e in c.ents && !c.ents[e].linked && c.ents[e].refs == 0 && !c.ents[e].pending
    requires forall f: Eid :: !Visible(c, x.key, f)
    requires x == c.ents[e].(refs := 1, linked := true)
    requires c.curSize < c.maxSize && c.curWeight + x.weight <= c.maxWeight
    requires var b := Bucket(h, |c.chains|, x.key);
             c' == SetEnt(SetChain(c, b, [e] + c.chains[b]), e, x).(
                     inserts := c.inserts + 1, curSize := c.curSize + 1, curWeight := c.curWeight + x.weight,
                     facts := c.facts + [Put(x.key, e)])
    ensures Ok(h, c') && Visible(c', x.key, e)
  {
    LinkSums(h, c, e, x, Bucket(h, |c.chains|, x.key), c');
    LinkPlaced(h, c, e, x, c');
    hide Placed, SumsOk;
    ByAgeFrame(c.lru, c.ents, c'.ents);
    assert forall k, f: Eid :: Visible(c', k, f) <==> Visible(c, k, f) || (k == x.key && f == e);
    hide Visible;
    forall k, f: Eid
      ensures Latest(c'.facts, k) == Some(f) <==> Visible(c', k, f)
    {
      LatestAppend(c.facts, Put(x.key, e), k);
    }
  }
}
