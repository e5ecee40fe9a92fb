/** Runs of the cache: what every state satisfies, how many references callers hold, and what the
    statistics count. */
module LruRuns {
  import opened Lists
  import opened Lru
  import opened LruInv
  import opened LruTheorems

  datatype Step<K, V> =
    | New(e: Eid, k: K, d: V, w: nat)
    | Ins(e: Eid)
    | Look(k: K)
    | Rel(e: Eid)
    | Del(e: Eid)
    | Empty

  /** The discipline of the caller: entries are fresh when created, alive when used, and not
      inserted twice. */
  ghost predicate Enabled<K, V>(c: Cache<K, V>, step: Step<K, V>) {
    match step
    case New(e, _, _, _) => e !in c.ents && e !in c.cleaned
    case Ins(e) => e in c.ents && !c.ents[e].linked
    case Look(_) => true
    case Rel(e) => e in c.ents
    case Del(e) => e in c.ents
    case Empty => true
  }

  ghost function Apply<K, V>(h: K -> nat, c: Cache<K, V>, step: Step<K, V>): Cache<K, V>
    requires Enabled(c, step) && |c.chains| > 0
  {
    match step
    case New(e, k, d, w) => NewEntry(c, e, k, d, w)
    case Ins(e) => Insert(h, c, e).cache
    case Look(k) => Lookup(h, c, k)
    case Rel(e) => Release(h, c, e)
    case Del(e) => Delete(h, c, e)
    case Empty => EmptyFrom(h, c, 0)
  }

  lemma StepOk<K(!new), V>(h: K -> nat, c: Cache<K, V>, step: Step<K, V>)
    requires Ok(h, c) && Enabled(c, step)
    ensures Ok(h, Apply(h, c, step))
  {
    assert |c.chains| > 0;
    hide Ok, Insert, Lookup, Release, Delete, EmptyFrom, NewEntry;
    match step {
      case New(e, k, d, w) => NewEntryOk(h, c, e, k, d, w);
      case Ins(e) => var k, c2 := InsertSpec(h, c, e);
      case Look(k) => LookupOk(h, c, k);
      case Rel(e) => ReleaseOk(h, c, e);
      case Del(e) => DeleteOk(h, c, e);
      case Empty => EmptySpec(h, c);
    }
  }

  ghost predicate IsRun<K, V>(h: K -> nat, states: seq<Cache<K, V>>, steps: seq<Step<K, V>>) {
    && |states| == |steps| + 1
    && forall i :: 0 <= i < |steps| ==>
         |states[i].chains| > 0 && Enabled(states[i], steps[i]) && states[i + 1] == Apply(h, states[i], steps[i])
  }

  // ----- what never changes

  /** The limits and the number of buckets. */
  ghost function Limits<K, V>(c: Cache<K, V>): (nat, nat, nat) {
    (c.maxSize, c.maxWeight, |c.chains|)
  }

  /** The statistics, apart from deletions, which are insertions minus size. */
  ghost function Stats<K, V>(c: Cache<K, V>): (nat, nat, nat) {
    (c.lookups, c.hits, c.inserts)
  }

  lemma DeleteKeeps<K, V>(h: K -> nat, c: Cache<K, V>, e: Eid)
    requires |c.chains| > 0 && e in c.ents
    ensures Limits(Delete(h, c, e)) == Limits(c) && Stats(Delete(h, c, e)) == Stats(c)
  {
  }

  lemma EvictKeeps<K, V>(h: K -> nat, c: Cache<K, V>)
    requires |c.chains| > 0
    ensures Limits(EvictHead(h, c)) == Limits(c) && Stats(EvictHead(h, c)) == Stats(c)
  {
    hide Delete;
    if c.lru == [] || c.lru[0] !in c.ents {
    } else {
      DeleteKeeps(h, c, c.lru[0]);
    }
  }

  lemma {:induction false} ShrinkKeeps<K, V>(h: K -> nat, c: Cache<K, V>, w: nat, n: nat)
    requires |c.chains| > 0
    ensures Limits(Shrink(h, c, w, n)) == Limits(c) && Stats(Shrink(h, c, w, n)) == Stats(c)
    decreases n
  {
    hide EvictHead;
    if n == 0 || c.curWeight + w <= c.maxWeight || c.lru == [] {
    } else {
      EvictKeeps(h, c);
      ShrinkKeeps(h, EvictHead(h, c), w, n - 1);
    }
  }

  lemma {:induction false} DeleteAllKeeps<K, V>(h: K -> nat, c: Cache<K, V>, q: seq<Eid>)
    requires |c.chains| > 0
    ensures Limits(DeleteAll(h, c, q)) == Limits(c) && Stats(DeleteAll(h, c, q)) == Stats(c)
    decreases q
  {
    hide Delete;
    if q == [] {
    } else {
      if q[0] in c.ents {
        DeleteKeeps(h, c, q[0]);
      }
      DeleteAllKeeps(h, if q[0] in c.ents then Delete(h, c, q[0]) else c, q[1..]);
    }
  }

  lemma {:induction false} EmptyKeeps<K, V>(h: K -> nat, c: Cache<K, V>, b: nat)
    requires |c.chains| > 0 && b <= |c.chains|
    ensures Limits(EmptyFrom(h, c, b)) == Limits(c) && Stats(EmptyFrom(h, c, b)) == Stats(c)
    decreases |c.chains| - b
  {
    hide DeleteAll;
    if b == |c.chains| {
    } else {
      DeleteAllKeeps(h, c, c.chains[b]);
      EmptyKeeps(h, DeleteAll(h, c, c.chains[b]), b + 1);
    }
  }

  lemma FoundInEnts<K, V>(h: K -> nat, c: Cache<K, V>, k: K)
    requires |c.chains| > 0
    ensures FindKey(h, c, k).Some? ==> FindKey(h, c, k).value in c.ents
  {
  }

  lemma LinkKeeps<K, V>(h: K -> nat, c: Cache<K, V>, e: Eid)
    requires |c.chains| > 0 && e in c.ents
    ensures var c' := Link(h, c, e);
            Limits(c') == Limits(c) && Stats(c') == (c.lookups, c.hits, c.inserts + 1)
  {
    hide Delete, FindKey;
    var p := FindKey(h, c, c.ents[e].key);
    if p.Some? {
      assert p.value in c.ents by {
        FoundInEnts(h, c, c.ents[e].key);
      }
      DeleteKeeps(h, c, p.value);
    }
  }

  lemma InsertKeeps<K, V>(h: K -> nat, c: Cache<K, V>, e: Eid)
    requires |c.chains| > 0 && e in c.ents
    ensures var r := Insert(h, c, e);
            && Limits(r.cache) == Limits(c)
            && Stats(r.cache) == if r.Inserted? then (c.lookups, c.hits, c.inserts + 1) else Stats(c)
  {
    hide Shrink, EvictHead, Link;
    var c1 := Shrink(h, c, c.ents[e].weight, |c.lru|);
    ShrinkKeeps(h, c, c.ents[e].weight, |c.lru|);
    EvictKeeps(h, c1);
    if e in c1.ents {
      LinkKeeps(h, c1, e);
    }
    if e in EvictHead(h, c1).ents {
      LinkKeeps(h, EvictHead(h, c1), e);
    }
  }

  /** What a step adds to the numbers of lookups, hits and insertions. */
  ghost function Counts<K, V>(h: K -> nat, c: Cache<K, V>, step: Step<K, V>): (nat, nat, nat)
    requires Enabled(c, step) && |c.chains| > 0
  {
    match step
    case Look(k) => (1, if FindKey(h, c, k).Some? then 1 else 0, 0)
    case Ins(e) => (0, 0, if Insert(h, c, e).Inserted? then 1 else 0)
    case _ => (0, 0, 0)
  }

  lemma StepKeeps<K, V>(h: K -> nat, c: Cache<K, V>, step: Step<K, V>)
    requires Enabled(c, step) && |c.chains| > 0
    ensures var c', n := Apply(h, c, step), Counts(h, c, step);
            && Limits(c') == Limits(c)
            && Stats(c') == (c.lookups + n.0, c.hits + n.1, c.inserts + n.2)
  {
    hide Insert, Delete, EmptyFrom, FindKey, Remove;
    match step {
      case Ins(e) => InsertKeeps(h, c, e);
      case Del(e) => DeleteKeeps(h, c, e);
      case Empty => EmptyKeeps(h, c, 0);
      case Look(k) => FoundInEnts(h, c, k);
      case _ =>
    }
  }

  /** The numbers of lookups, of lookups that found something, and of insertions that were not
      refused, among the first `i` steps. */
  ghost function Counted<K, V>(h: K -> nat, states: seq<Cache<K, V>>, steps: seq<Step<K, V>>, i: nat): (nat, nat, nat)
    requires IsRun(h, states, steps) && i <= |steps|
  {
    if i == 0 then (0, 0, 0)
    else
      var before, n := Counted(h, states, steps, i - 1), Counts(h, states[i - 1], steps[i - 1]);
      (before.0 + n.0, before.1 + n.1, before.2 + n.2)
  }

  // ----- references

  /** What the cache takes for the number of references to an entry; none if it is not alive. */
  ghost function RefsOf<K, V>(c: Cache<K, V>, e: Eid): nat {
    if e in c.ents then c.ents[e].refs else 0
  }

  /** Whether a step hands a reference to `e` to its caller: an insertion that is not refused, or
      a lookup that returns it. */
  ghost predicate HandsOut<K, V>(h: K -> nat, c: Cache<K, V>, step: Step<K, V>, e: Eid)
    requires Enabled(c, step) && |c.chains| > 0
  {
    (step == Ins(e) && Insert(h, c, e).Inserted?) || (step.Look? && FindKey(h, c, step.k) == Some(e))
  }

  /** The number of references to `e` that callers hold after a step. A release when there is
      none does nothing. */
  ghost function After<K, V>(h: K -> nat, c: Cache<K, V>, step: Step<K, V>, e: Eid, held: nat): nat
    requires Enabled(c, step) && |c.chains| > 0
  {
    if HandsOut(h, c, step, e) then held + 1
    else if step == Rel(e) && held > 0 then held - 1
    else held
  }

  /** The references to `e` handed out and not yet given back, from the history of steps. */
  ghost function References<K, V>(h: K -> nat, states: seq<Cache<K, V>>, steps: seq<Step<K, V>>, e: Eid, i: nat): nat
    requires IsRun(h, states, steps) && i <= |steps|
  {
    if i == 0 then 0
    else After(h, states[i - 1], steps[i - 1], e, References(h, states, steps, e, i - 1))
  }

  lemma DeleteRefs<K, V>(h: K -> nat, c: Cache<K, V>, e: Eid, x: Eid)
    requires |c.chains| > 0 && e in c.ents
    ensures RefsOf(Delete(h, c, e), x) == RefsOf(c, x)
  {
  }

  lemma LinkRefs<K, V>(h: K -> nat, c: Cache<K, V>, e: Eid, x: Eid)
    requires |c.chains| > 0 && e in c.ents
    ensures RefsOf(Link(h, c, e), x) == if x == e then c.ents[e].refs + 1 else RefsOf(c, x)
  {
    hide Delete, FindKey;
    FoundInEnts(h, c, c.ents[e].key);
    var p := FindKey(h, c, c.ents[e].key);
    if p.Some? {
      DeleteRefs(h, c, p.value, x);
    }
  }

  /** Evicting idle entries changes no count. */
  lemma EvictedRefs<K(!new), V>(h: K -> nat, c: Cache<K, V>, c': Cache<K, V>, k: nat, x: Eid)
    requires Ok(h, c) && Evicted(c, c', k)
    ensures RefsOf(c', x) == RefsOf(c, x)
  {
    assert x in c.lru[..k] ==> x in c.lru;
  }

  lemma InsertRefs<K(!new), V>(h: K -> nat, c: Cache<K, V>, e: Eid, x: Eid)
    requires Ok(h, c) && e in c.ents && !c.ents[e].linked
    ensures |c.chains| > 0
    ensures var r := Insert(h, c, e);
            RefsOf(r.cache, x) == if x == e && r.Inserted? then RefsOf(c, e) + 1 else RefsOf(c, x)
  {
    hide Ok, Insert, Link, LeastPrefix, Evicted, Held, Visible;
    SomeBucket(h, c);
    var k, c2 := InsertSpec(h, c, e);
    var r := Insert(h, c, e);
    if r.Refused? {
      EvictedRefs(h, c, r.cache, |c.lru|, x);
    } else {
      EvictedRefs(h, c, c2, if c.curSize - k >= c.maxSize then k + 1 else k, x);
      EvictedRefs(h, c, c2, if c.curSize - k >= c.maxSize then k + 1 else k, e);
      LinkRefs(h, c2, e, x);
    }
  }

  lemma EmptyRefs<K(!new), V>(h: K -> nat, c: Cache<K, V>, x: Eid)
    requires Ok(h, c)
    ensures |c.chains| > 0 && RefsOf(EmptyFrom(h, c, 0), x) == RefsOf(c, x)
  {
    SomeBucket(h, c);
    EmptySpec(h, c);
    if x in c.ents {
      assert EntOk(c.ents[x]);
    }
    hide Ok, EmptyFrom;
  }

  /** What a step does to the count of an entry is what it hands out or takes back. */
  lemma StepRefs<K(!new), V>(h: K -> nat, c: Cache<K, V>, step: Step<K, V>, x: Eid)
    requires Ok(h, c) && Enabled(c, step)
    ensures |c.chains| > 0
    ensures RefsOf(Apply(h, c, step), x) == After(h, c, step, x, RefsOf(c, x))
  {
    hide Ok, Insert, Delete, EmptyFrom, FindKey, Remove;
    SomeBucket(h, c);
    match step {
      case Ins(e) => InsertRefs(h, c, e, x);
      case Del(e) => DeleteRefs(h, c, e, x);
      case Empty => EmptyRefs(h, c, x);
      case Look(k) => FoundInEnts(h, c, k);
      case _ =>
    }
  }

  // ----- over every run

  lemma Within<K(!new), V>(h: K -> nat, c: Cache<K, V>)
    requires Ok(h, c)
    ensures c.curSize <= c.maxSize && c.curWeight <= c.maxWeight
  {
  }

  /** Every state of every disciplined run of a cache is well formed and within the limits it was
      created with, the count of every entry is the number of references that callers hold, and
      the statistics count the calls. */
  lemma {:induction false} RunOk<K(!new), V>(
    h: K -> nat, maxSize: nat, maxWeight: nat, n: nat, states: seq<Cache<K, V>>, steps: seq<Step<K, V>>, i: nat)
    requires n > 0 && IsRun(h, states, steps) && states[0] == Create(maxSize, maxWeight, n) && i < |states|
    ensures Ok(h, states[i]) && Limits(states[i]) == (maxSize, maxWeight, n)
    ensures states[i].curSize <= maxSize && states[i].curWeight <= maxWeight
    ensures Stats(states[i]) == Counted(h, states, steps, i)
    ensures forall e: Eid :: RefsOf(states[i], e) == References(h, states, steps, e, i)
  {
    hide Ok, Apply, Enabled, Create, Counts, After;
    if i == 0 {
      CreateOk<K, V>(h, maxSize, maxWeight, n);
    } else {
      RunOk(h, maxSize, maxWeight, n, states, steps, i - 1);
      StepOk(h, states[i - 1], steps[i - 1]);
      StepKeeps(h, states[i - 1], steps[i - 1]);
      forall e: Eid
        ensures RefsOf(states[i], e) == References(h, states, steps, e, i)
      {
        StepRefs(h, states[i - 1], steps[i - 1], e);
      }
    }
    Within(h, states[i]);
  }

  /** No entry is cleaned up while a caller holds a reference to it, counted from the history: it
      is alive, not on the list of idle entries, and its count is that number. */
  lemma HeldSurvives<K(!new), V>(
    h: K -> nat, maxSize: nat, maxWeight: nat, n: nat, states: seq<Cache<K, V>>, steps: seq<Step<K, V>>, e: Eid, i: nat)
    requires n > 0 && IsRun(h, states, steps) && states[0] == Create(maxSize, maxWeight, n) && i <= |steps|
    requires References(h, states, steps, e, i) > 0
    ensures var c := states[i];
            e in c.ents && e !in c.cleaned && e !in c.lru && c.ents[e].refs == References(h, states, steps, e, i)
  {
    hide References;
    RunOk(h, maxSize, maxWeight, n, states, steps, i);
    assert RefsOf(states[i], e) == References(h, states, steps, e, i);
  }
}
