/** The reference-counted LRU cache of extensions/lrucache.c with its hash chains and LRU list
    as sequences of entry identities. The pointers are in LruTable. */
module Lru {
  import opened Lists

  type Eid = nat

  /** A `_stx_centry`. `linked` is whether `pthis` is set. `idleSince` is a history: the tick at
      which the reference count last dropped to zero. */
  datatype Ent<K, V> = Ent(key: K, data: V, weight: nat, refs: nat, pending: bool, linked: bool, idleSince: nat)

  /** What has happened to the visible content: an entry was inserted under its key, or an
      entry was deleted, evicted or replaced. */
  datatype Fact<K> = Put(k: K, e: Eid) | Gone(e: Eid)

  /** A `_stx_cache`. `ents` are the entries that have been created and not freed; `cleaned`,
      `facts` and `ticks` are histories. */
  datatype Cache<K, V> = Cache(
    maxSize: nat, maxWeight: nat,
    chains: seq<seq<Eid>>, lru: seq<Eid>, ents: map<Eid, Ent<K, V>>,
    curSize: int, curWeight: int,
    hits: nat, lookups: nat, inserts: nat, deletes: nat,
    cleaned: seq<Eid>, facts: seq<Fact<K>>, ticks: nat)

  function Bucket<K>(h: K -> nat, n: nat, k: K): nat
    requires n > 0
    ensures Bucket(h, n, k) < n
  {
    h(k) % n
  }

  function SetEnt<K, V>(c: Cache<K, V>, e: Eid, x: Ent<K, V>): Cache<K, V> {
    c.(ents := c.ents[e := x])
  }

  function SetChain<K, V>(c: Cache<K, V>, b: nat, q: seq<Eid>): Cache<K, V>
    requires b < |c.chains|
  {
    c.(chains := c.chains[b := q])
  }

  // ----- operations

  /** `stx_cache_create`, with a table of `n` empty buckets. */
  function Create<K, V>(maxSize: nat, maxWeight: nat, n: nat): Cache<K, V> {
    Cache(maxSize, maxWeight, seq(n, _ => []), [], map[], 0, 0, 0, 0, 0, 0, [], [], 0)
  }

  /** `stx_cache_entry_create`. */
  function NewEntry<K, V>(c: Cache<K, V>, e: Eid, k: K, d: V, w: nat): Cache<K, V> {
    SetEnt(c, e, Ent(k, d, w, 0, false, false, 0))
  }

  /** `stx_cache_entry_delete` of an entry nobody references: unlink, clean up, free. */
  function Free<K, V>(h: K -> nat, c: Cache<K, V>, e: Eid): Cache<K, V>
    requires e in c.ents && |c.chains| > 0
  {
    var x := c.ents[e];
    var c' :=
      if x.linked then
        var b := Bucket(h, |c.chains|, x.key);
        SetChain(c, b, Remove(c.chains[b], e)).(
          curSize := c.curSize - 1, curWeight := c.curWeight - x.weight, deletes := c.deletes + 1,
          lru := Remove(c.lru, e))
      else c;
    c'.(ents := c.ents - {e}, cleaned := c.cleaned + [e])
  }

  /** `stx_cache_entry_delete`: an entry in use is only marked. */
  function Delete<K, V>(h: K -> nat, c: Cache<K, V>, e: Eid): Cache<K, V>
    requires e in c.ents && |c.chains| > 0
  {
    var c' := c.(facts := c.facts + [Gone(e)]);
    if c.ents[e].refs > 0 then SetEnt(c', e, c.ents[e].(pending := true)) else Free(h, c', e)
  }

  /** The chain walk of lookup and insert: the first entry with key `k` that is not pending. */
  function Find<K(==), V>(ents: map<Eid, Ent<K, V>>, q: seq<Eid>, k: K): (r: Option<Eid>)
    ensures r.Some? ==> r.value in q && r.value in ents && !ents[r.value].pending && ents[r.value].key == k
    ensures r.None? ==> forall e :: e in q && e in ents ==> ents[e].pending || ents[e].key != k
  {
    if q == [] then None
    else if q[0] in ents && !ents[q[0]].pending && ents[q[0]].key == k then Some(q[0])
    else Find(ents, q[1..], k)
  }

  function FindKey<K(==), V>(h: K -> nat, c: Cache<K, V>, k: K): Option<Eid>
    requires |c.chains| > 0
  {
    Find(c.ents, c.chains[Bucket(h, |c.chains|, k)], k)
  }

  /** `stx_cache_entry_lookup`; what it returns is `FindKey`. */
  function Lookup<K(==), V>(h: K -> nat, c: Cache<K, V>, k: K): Cache<K, V>
    requires |c.chains| > 0
  {
    var c' := c.(lookups := c.lookups + 1);
    match FindKey(h, c, k)
    case None => c'
    case Some(e) =>
      var x := c.ents[e];
      SetEnt(c', e, x.(refs := x.refs + 1)).(
        hits := c.hits + 1, lru := if x.refs == 0 then Remove(c.lru, e) else c.lru)
  }

  /** `stx_cache_entry_release`. */
  function Release<K, V>(h: K -> nat, c: Cache<K, V>, e: Eid): Cache<K, V>
    requires e in c.ents && |c.chains| > 0
  {
    var x := c.ents[e];
    if x.refs == 0 then c
    else if x.refs > 1 then SetEnt(c, e, x.(refs := x.refs - 1))
    else
      var c' := SetEnt(c, e, x.(refs := 0, idleSince := c.ticks)).(lru := c.lru + [e], ticks := c.ticks + 1);
      if x.pending then Free(h, c', e) else c'
  }

  /** Delete the least recently used entry. */
  function EvictHead<K, V>(h: K -> nat, c: Cache<K, V>): Cache<K, V>
    requires |c.chains| > 0
  {
    if c.lru == [] || c.lru[0] !in c.ents then c else Delete(h, c, c.lru[0])
  }

  /** The first loop of `stx_cache_entry_insert`: evict until `w` fits or nothing is left.
      `n` bounds the number of turns. */
  function Shrink<K, V>(h: K -> nat, c: Cache<K, V>, w: nat, n: nat): Cache<K, V>
    requires |c.chains| > 0
    ensures |Shrink(h, c, w, n).chains| == |c.chains|
    decreases n
  {
    if n == 0 || c.curWeight + w <= c.maxWeight || c.lru == [] then c
    else Shrink(h, EvictHead(h, c), w, n - 1)
  }

  datatype InsertOutcome<K, V> = Inserted(cache: Cache<K, V>) | Refused(cache: Cache<K, V>)

  /** The part of `stx_cache_entry_insert` that replaces a same-key entry and links the new one. */
  function Link<K(==), V>(h: K -> nat, c: Cache<K, V>, e: Eid): Cache<K, V>
    requires e in c.ents && |c.chains| > 0
  {
    var x := c.ents[e];
    var b := Bucket(h, |c.chains|, x.key);
    var c1 := match FindKey(h, c, x.key)
              case None => c
              case Some(prior) => Delete(h, c, prior);
    SetEnt(SetChain(c1, b, [e] + c1.chains[b]), e, x.(refs := x.refs + 1, linked := true)).(
      inserts := c1.inserts + 1, curSize := c1.curSize + 1, curWeight := c1.curWeight + x.weight,
      facts := c1.facts + [Put(x.key, e)])
  }

  /** `stx_cache_entry_insert`. */
  function Insert<K(==), V>(h: K -> nat, c: Cache<K, V>, e: Eid): InsertOutcome<K, V>
    requires e in c.ents && |c.chains| > 0
  {
    var w := c.ents[e].weight;
    var c1 := Shrink(h, c, w, |c.lru|);
    if c1.curWeight + w > c1.maxWeight then Refused(c1)
    else if c1.curSize >= c1.maxSize && c1.lru == [] then Refused(c1)
    else
      var c2 := if c1.curSize >= c1.maxSize then EvictHead(h, c1) else c1;
      if e in c2.ents then Inserted(Link(h, c2, e)) else Refused(c2)
  }

  /** `stx_cache_empty`: every entry of every chain is deleted, the next link being read first. */
  function DeleteAll<K, V>(h: K -> nat, c: Cache<K, V>, q: seq<Eid>): Cache<K, V>
    requires |c.chains| > 0
    ensures |DeleteAll(h, c, q).chains| == |c.chains|
    decreases q
  {
    if q == [] then c
    else DeleteAll(h, if q[0] in c.ents then Delete(h, c, q[0]) else c, q[1..])
  }

  function EmptyFrom<K, V>(h: K -> nat, c: Cache<K, V>, b: nat): Cache<K, V>
    requires b <= |c.chains| && |c.chains| > 0
    ensures |EmptyFrom(h, c, b).chains| == |c.chains|
    decreases |c.chains| - b
  {
    if b == |c.chains| then c else EmptyFrom(h, DeleteAll(h, c, c.chains[b]), b + 1)
  }
}
