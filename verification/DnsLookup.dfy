/** `lookup_entry`, `insert_entry` and the two halves of `_stx_dns_cache_getaddrlist`, before and
    after the resolver call, on the cache object. */
module DnsLookup {
  import opened Lists
  import opened Lru
  import opened LruInv
  import opened LruTheorems
  import opened LruCache
  import opened DnsAnswer
  import opened DnsCache

  /** What a lookup in a quiet cache finds can be given back and is then still there. */
  lemma FoundEntry(c: HostCache, host: Name)
    requires Ok(Hash, c) && Quiet(c)
    ensures |c.chains| > 0
    ensures FindKey(Hash, c, host).Some? ==>
              var e, c1 := FindKey(Hash, c, host).value, Lookup(Hash, c, host);
              && e in c.ents && e in c1.ents && |c1.chains| > 0 && c1.ents[e].data == c.ents[e].data
              && e in Release(Hash, c1, e).ents && |Release(Hash, c1, e).chains| > 0
  {
    hide Hash, Ok, FindKey;
    SomeBucket(Hash, c);
    Found(c, host);
  }

  ghost predicate HaveAddresses(c: HostCache) {
    forall e :: e in c.ents ==> c.ents[e].data.cur < |c.ents[e].data.addrs|
  }

  lemma LookupKeeps(c: HostCache, host: Name, num: nat, rotate: bool, now: int)
    requires Ok(Hash, c) && Quiet(c) && HaveAddresses(c)
    ensures |c.chains| > 0
    ensures var c' := LookupHost(c, host, num, rotate, now).cache; Quiet(c') && HaveAddresses(c')
  {
    hide Hash, Ok, LookupHost;
    SomeBucket(Hash, c);
    if e: Eid :| Visible(c, host, e) {
      if now <= c.ents[e].data.expires {
        HitSpec(c, host, num, rotate, now, e);
      } else {
        ExpiredSpec(c, host, num, rotate, now, e);
      }
    } else {
      AbsentSpec(c, host, num, rotate, now);
    }
  }

  lemma InsertKeeps(c: HostCache, e: Eid, host: Name, addrs: seq<Addr>, ttl: int, now: int)
    requires Ok(Hash, c) && Quiet(c) && HaveAddresses(c) && e !in c.ents && e !in c.cleaned && ttl > 0 && addrs != []
    ensures |c.chains| > 0
    ensures var c' := InsertHost(c, e, host, addrs, ttl, now); Quiet(c') && HaveAddresses(c')
  {
    hide Hash, Ok, InsertHost;
    InsertHostSpec(c, e, host, addrs, ttl, now);
  }

  /** The entry is alive after the insertion, done or refused. */
  lemma StillAlive(c: HostCache, e: Eid)
    requires Ok(Hash, c) && e in c.ents && !c.ents[e].linked
    ensures |c.chains| > 0 && e in Insert(Hash, c, e).cache.ents && |Insert(Hash, c, e).cache.chains| > 0
  {
    hide Hash, Ok, Insert, Link;
    SomeBucket(Hash, c);
    var k, c2 := InsertSpec(Hash, c, e);
    SomeBucket(Hash, Insert(Hash, c, e).cache);
    assert e !in c.lru by { LruMember(Hash, c, e); }
  }

  class Resolver {
    const store: Store<Name, DnsData>

    /** `stx_dns_cache_init`. */
    constructor (maxSize: nat, maxBytes: nat, hashSize: nat)
      requires hashSize > 0
      ensures Valid() && fresh(store) && store.Snapshot() == Create(maxSize, maxBytes, hashSize)
    {
      store := new Store<Name, DnsData>(maxSize, maxBytes, hashSize, Hash);
    }

    /** The cache is well formed and nobody holds an entry; the entries have addresses. */
    ghost predicate Valid()
      reads this, store, store.table, store.table.buckets, store.table.repr
    {
      store.Valid() && store.table.hash == Hash && Quiet(store.Snapshot()) && HaveAddresses(store.Snapshot())
    }

    /** Copying out of an entry that is held, and turning its rotation. */
    method Serve(e: Eid, num: nat, rotate: bool) returns (out: seq<Addr>)
      requires store.Valid() && store.table.hash == Hash && e in store.ents
      requires store.ents[e].data.cur < |store.ents[e].data.addrs|
      modifies store`ents
      ensures store.Valid() && e in store.ents && out == Handed(old(store.ents[e].data), num, rotate)
      ensures store.Snapshot() == SetData(old(store.Snapshot()), e, Turned(old(store.ents[e].data), num, rotate))
    {
      hide Store.Valid;
      var d := store.ents[e].data;
      if num == 1 {
        if rotate {
          out := [d.addrs[d.cur]];
          var cur := d.cur + 1;
          if cur >= |d.addrs| {
            cur := 0;
          }
          store.WriteData(e, d.(cur := cur));
        } else {
          out := [d.addrs[0]];
          assert store.ents[e := store.ents[e]] == store.ents;
        }
      } else {
        var n := Min(num, |d.addrs|);
        out := d.addrs[..n];
        assert store.ents[e := store.ents[e]] == store.ents;
      }
    }

    /** `lookup_entry`. */
    method LookupEntry(host: Name, num: nat, rotate: bool, now: int) returns (r: Option<seq<Addr>>)
      requires Valid()
      modifies store, store.table, store.table.buckets, store.table.repr
      ensures Valid() && |old(store.Snapshot()).chains| > 0
      ensures var l := LookupHost(old(store.Snapshot()), host, num, rotate, now);
              store.Snapshot() == l.cache && r == if l.Hit? then Some(l.addrs) else None
    {
      hide Ok, Hash, Quiet, Lookup, FindKey, Release, Delete, Store.Valid, Handed, Turned;
      ghost var c := store.Snapshot();
      assert Ok(Hash, c) by { store.IsOk(); }
      FoundEntry(c, host);
      LookupKeeps(c, host, num, rotate, now);
      var found := store.LookupEntry(host);
      if found == None {
        return None;
      }
      var e := found.value;
      if now <= store.ents[e].data.expires {
        var out := Serve(e, num, rotate);
        store.ReleaseEntry(e);
        return Some(out);
      }
      store.ReleaseEntry(e);
      store.DeleteEntry(e);
      return None;
    }

    /** `insert_entry`, with `e` a fresh identity for the entry it allocates. */
    method InsertEntry(e: Eid, host: Name, addrs: seq<Addr>, ttl: int, now: int)
      requires Valid() && e !in store.ents && e !in store.cleaned && (ttl > 0 ==> addrs != [])
      modifies store, store.table, store.table.buckets, store.table.repr
      ensures Valid() && |old(store.Snapshot()).chains| > 0
      ensures store.Snapshot() == InsertHost(old(store.Snapshot()), e, host, addrs, ttl, now)
    {
      hide Ok, Hash, Quiet, HaveAddresses, Insert, Release, Delete, Store.Valid;
      ghost var c := store.Snapshot();
      assert Ok(Hash, c) by { store.IsOk(); }
      SomeBucket(Hash, c);
      if ttl > 0 {
        InsertKeeps(c, e, host, addrs, ttl, now);
        store.NewEntry(e, host, DnsData(addrs, 0, now + ttl), Weight(host, addrs));
        assert Ok(Hash, store.Snapshot()) && e in store.nodes by { store.IsOk(); }
        StillAlive(store.Snapshot(), e);
        var ok := store.InsertEntry(e);
        if ok {
          store.ReleaseEntry(e);
        } else {
          store.DeleteEntry(e);
        }
      }
    }

    /** `_stx_dns_cache_getaddrlist` up to the resolver call. */
    method Ask(hostname: Name, num: nat, rotate: bool, now: int) returns (host: Name, r: Option<seq<Addr>>)
      requires Valid()
      modifies store, store.table, store.table.buckets, store.table.repr
      ensures Valid() && host == Normal(hostname) && LowerCaseOf(hostname, host) && |old(store.Snapshot()).chains| > 0
      ensures var l := LookupHost(old(store.Snapshot()), host, num, rotate, now);
              store.Snapshot() == l.cache && r == if l.Hit? then Some(l.addrs) else None
    {
      hide Valid, Hash, LookupHost, Normal, LowerCaseOf;
      host := NormalName(hostname);
      r := LookupEntry(host, num, rotate, now);
    }

    /** `_stx_dns_cache_getaddrlist` from the answer of the resolver on. */
    method Answered(e: Eid, host: Name, num: nat, addrs: seq<Addr>, ttl: int, now: int) returns (out: seq<Addr>)
      requires Valid() && e !in store.ents && e !in store.cleaned && Reply(addrs, ttl)
      modifies store, store.table, store.table.buckets, store.table.repr
      ensures Valid() && out == addrs[..Min(num, |addrs|)] && |old(store.Snapshot()).chains| > 0
      ensures store.Snapshot() == InsertHost(old(store.Snapshot()), e, host, addrs, ttl, now)
    {
      hide Valid, Hash, InsertHost, Reply;
      ReplyHasAddress(addrs, ttl);
      out := addrs[..Min(num, |addrs|)];
      InsertEntry(e, host, addrs, ttl, now);
    }
  }
}
