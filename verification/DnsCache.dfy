/** The DNS cache of extensions/dnscache.c on top of the LRU cache, as functions and as a state
    machine. Threads switch only inside the resolver call, so the steps are a lookup and the
    arrival of an answer; both happen for any host at any time. */
module DnsCache {
  import opened Lists
  import opened Lru
  import opened LruInv
  import opened LruTheorems
  import opened DnsAnswer

  type Name = string

  /** A `stx_dns_data_t`. */
  datatype DnsData = DnsData(addrs: seq<Addr>, cur: nat, expires: int)

  type HostCache = Cache<Name, DnsData>

  const MAX_HOST_ADDRS := 1024
  const HOST_BUFFER := 128

  /** Sizes of `stx_dns_data_t`, `struct in_addr` and a cache entry with 64-bit pointers. */
  const DATA_SIZE := 24
  const ADDR_SIZE := 4
  const ENTRY_SIZE := 64

  // ----- names

  /** A `char` is signed. */
  function CharValue(c: char): int {
    var n := c as int % 0x100;
    if n < 0x80 then n else n - 0x100
  }

  /** `hash_hostname`, in 32-bit arithmetic. */
  function Hash(name: Name): (h: nat)
    ensures h < 0x1_0000_0000
  {
    if name == [] then 0
    else (Hash(name[..|name| - 1]) * 15 + CharValue(name[|name| - 1])) % 0x1_0000_0000
  }

  lemma CharCode(c: char)
    requires c as int < 256
    ensures CharValue(c) == if c as int < 128 then c as int else c as int - 256
  {
  }

  lemma HashAppend(name: Name, c: char)
    ensures Hash(name + [c]) == (Hash(name) * 15 + CharValue(c)) % 0x1_0000_0000
  {
    hide CharValue;
    var longer := name + [c];
    assert longer[..|longer| - 1] == name && longer[|longer| - 1] == c;
  }

  /** The hash of a longer name, on character codes. */
  lemma HashLonger(name: Name, c: char)
    requires c as int < 256
    ensures Hash(name + [c]) == (Hash(name) * 15 + if c as int < 128 then c as int else c as int - 256) % 0x1_0000_0000
  {
    hide Hash, CharValue;
    CharCode(c);
    HashAppend(name, c);
  }

  /** Shifting and subtracting is multiplying by 15. */
  lemma HashTurn(h: int, v: int)
    ensures ((h * 16) % 0x1_0000_0000 - h + v) % 0x1_0000_0000 == (h * 15 + v) % 0x1_0000_0000
  {
    var q, n := h * 16 / 0x1_0000_0000, (h * 16) % 0x1_0000_0000 - h + v;
    assert n == h * 15 + v - 0x1_0000_0000 * q;
  }

  method HashHostname(name: Name) returns (hash: nat)
    ensures hash == Hash(name)
  {
    hash := 0;
    for i := 0 to |name|
      invariant hash == Hash(name[..i])
    {
      assert name[..i + 1][..i] == name[..i];
      HashTurn(hash, CharValue(name[i]));
      hash := ((hash * 16) % 0x1_0000_0000 - hash + CharValue(name[i])) % 0x1_0000_0000;
    }
    assert name[..|name|] == name;
  }

  function Lower(c: char): char {
    if 'A' <= c <= 'Z' then c - 'A' + 'a' else c
  }

  function LowerAll(s: Name): (r: Name)
    ensures |r| == |s| && forall i :: 0 <= i < |s| ==> r[i] == Lower(s[i])
  {
    seq(|s|, i requires 0 <= i < |s| => Lower(s[i]))
  }

  /** The part of a name that fits in the buffer. */
  function Fitting(name: Name): Name {
    if |name| < HOST_BUFFER then name else name[..HOST_BUFFER - 1]
  }

  /** The name under which a host is cached, and also resolved. */
  function Normal(hostname: Name): Name {
    LowerAll(Fitting(hostname))
  }

  /** `host` is `name` in lower case, cut to 127 characters, said on character codes. */
  ghost predicate LowerCaseOf(name: Name, host: Name) {
    && |host| == (if |name| <= 127 then |name| else 127)
    && forall i :: 0 <= i < |host| ==>
         host[i] as int == if 65 <= name[i] as int <= 90 then name[i] as int + 32 else name[i] as int
  }

  /** The loop that fills the local buffer. */
  method NormalName(hostname: Name) returns (host: Name)
    ensures host == Normal(hostname) && LowerCaseOf(hostname, host)
  {
    host := [];
    var n := 0;
    while n < HOST_BUFFER - 1 && n < |hostname|
      invariant n == |host| <= |hostname| && n < HOST_BUFFER
      invariant forall i :: 0 <= i < n ==> host[i] == Lower(hostname[i])
    {
      host, n := host + [Lower(hostname[n])], n + 1;
    }
  }

  /** Equal, or the upper and the lower case of one letter. */
  ghost predicate SameLetter(a: char, b: char) {
    || a == b
    || (65 <= a as int <= 90 && b as int == a as int + 32)
    || (65 <= b as int <= 90 && a as int == b as int + 32)
  }

  lemma LowerCases(a: Name)
    ensures LowerCaseOf(a, Normal(a))
  {
  }

  /** Two hosts share an entry exactly when their first 127 characters agree up to case. Names up
      to that length are told apart exactly up to case; a name of 127 characters shares its entry
      with everything it is a prefix of. A normal name has no upper case, and a short name without
      upper case is normal. */
  lemma SameEntry(a: Name, b: Name)
    ensures LowerCaseOf(a, Normal(a))
    ensures Normal(a) == Normal(b) <==>
              && |Normal(a)| == |Normal(b)|
              && forall i :: 0 <= i < |Normal(a)| ==> SameLetter(a[i], b[i])
    ensures |a| >= 127 ==> Normal(a + b) == Normal(a)
    ensures forall i :: 0 <= i < |Normal(a)| ==> !(65 <= Normal(a)[i] as int <= 90)
    ensures |a| <= 127 && (forall i :: 0 <= i < |a| ==> !(65 <= a[i] as int <= 90)) ==> Normal(a) == a
  {
    LowerCases(a);
    LowerCases(b);
    hide Normal;
    if Normal(a) == Normal(b) {
      forall i | 0 <= i < |Normal(a)|
        ensures SameLetter(a[i], b[i])
      {
        assert Normal(a)[i] == Normal(b)[i];
      }
    }
    LowerCases(a + b);
  }

  // ----- the operations

  function SetData(c: HostCache, e: Eid, d: DnsData): HostCache
    requires e in c.ents
  {
    SetEnt(c, e, c.ents[e].(data := d))
  }

  /** What a hit hands out: one address, the next in rotation or the first, or as many as fit. */
  function Handed(d: DnsData, num: nat, rotate: bool): seq<Addr>
    requires d.cur < |d.addrs|
  {
    if num == 1 then [if rotate then d.addrs[d.cur] else d.addrs[0]] else d.addrs[..Min(num, |d.addrs|)]
  }

  function Turned(d: DnsData, num: nat, rotate: bool): DnsData {
    if num == 1 && rotate then d.(cur := if d.cur + 1 >= |d.addrs| then 0 else d.cur + 1) else d
  }

  datatype Looked = Hit(addrs: seq<Addr>, cache: HostCache) | Miss(cache: HostCache)

  /** `lookup_entry` at time `now`. */
  function LookupHost(c: HostCache, host: Name, num: nat, rotate: bool, now: int): Looked
    requires |c.chains| > 0
  {
    var c1 := Lookup(Hash, c, host);
    match FindKey(Hash, c, host)
    case None => Miss(c1)
    case Some(e) =>
      var d := c1.ents[e].data;
      if now <= d.expires then
        Hit(if d.cur < |d.addrs| then Handed(d, num, rotate) else [], Release(Hash, SetData(c1, e, Turned(d, num, rotate)), e))
      else
        var c2 := Release(Hash, c1, e);
        Miss(if e in c2.ents then Delete(Hash, c2, e) else c2)
  }

  function Weight(host: Name, addrs: seq<Addr>): nat {
    |host| + 1 + DATA_SIZE + |addrs| * ADDR_SIZE + ENTRY_SIZE
  }

  /** `insert_entry`, with `e` the entry it allocates. */
  function InsertHost(c: HostCache, e: Eid, host: Name, addrs: seq<Addr>, ttl: int, now: int): HostCache
    requires |c.chains| > 0
  {
    if ttl <= 0 then c
    else
      match Insert(Hash, Lru.NewEntry(c, e, host, DnsData(addrs, 0, now + ttl), Weight(host, addrs)), e)
      case Inserted(c2) => if e in c2.ents && |c2.chains| > 0 then Release(Hash, c2, e) else c2
      case Refused(c2) => if e in c2.ents && |c2.chains| > 0 then Delete(Hash, c2, e) else c2
  }

  // ----- what the cache must agree with

  /** An answer of the resolver: what was stored, for how long, and when. */
  datatype Answer = Answer(host: Name, addrs: seq<Addr>, ttl: int, at: int)

  /** The last answer with a positive time to live for a host. */
  ghost function LastPositive(history: seq<Answer>, host: Name): Option<Answer> {
    if history == [] then None
    else
      var a := history[|history| - 1];
      if a.host == host && a.ttl > 0 then Some(a) else LastPositive(history[..|history| - 1], host)
  }

  datatype World = World(cache: HostCache, history: seq<Answer>)

  /** Between calls every entry is in the table and nobody references one. */
  ghost predicate Quiet(c: HostCache) {
    forall e :: e in c.ents ==> c.ents[e].linked && c.ents[e].refs == 0
  }

  ghost predicate Backed(x: Ent<Name, DnsData>, history: seq<Answer>) {
    var a := LastPositive(history, x.key);
    && a.Some? && x.data.addrs == a.value.addrs && x.data.expires == a.value.at + a.value.ttl
    && 0 <= x.data.cur < |x.data.addrs|
  }

  /** Every cached entry holds the last answer with a positive time to live for its host. */
  ghost predicate AllBacked(w: World) {
    forall e :: e in w.cache.ents ==> Backed(w.cache.ents[e], w.history)
  }

  ghost predicate Inv(w: World) {
    Ok(Hash, w.cache) && Quiet(w.cache) && AllBacked(w)
  }

  /** Some reply that `parse_answer` accepts, read into the static array of 1024 addresses. */
  ghost predicate Reply(addrs: seq<Addr>, ttl: int) {
    exists skip: NameLength, expand: NameLength, m: Message, qd: nat, an: nat, init: seq<Addr> ::
      |init| == MAX_HOST_ADDRS && Parse(skip, expand, m, qd, an, init) == Parsed(addrs, ttl)
  }

  /** A reply with a positive time to live has an address, so a hit always has one to hand out. */
  lemma ReplyHasAddress(addrs: seq<Addr>, ttl: int)
    requires Reply(addrs, ttl)
    ensures (ttl > 0 ==> addrs != []) && |addrs| <= 1024
  {
    var skip: NameLength, expand: NameLength, m: Message, qd: nat, an: nat, init: seq<Addr> :|
      |init| == MAX_HOST_ADDRS && Parse(skip, expand, m, qd, an, init) == Parsed(addrs, ttl);
    StoredFits(expand, m, SkipQuestions(skip, m, HEADER, qd), an, init, [], -1);
    PositiveTtlHasAddress(expand, m, SkipQuestions(skip, m, HEADER, qd), an, init, [], -1);
  }

  datatype Step =
    | Ask(host: Name, num: nat, rotate: bool, now: int)
    | Learn(e: Eid, host: Name, addrs: seq<Addr>, ttl: int, now: int)

  ghost predicate Enabled(w: World, s: Step) {
    match s
    case Ask(_, _, _, _) => true
    case Learn(e, _, addrs, ttl, _) => Reply(addrs, ttl) && e !in w.cache.ents && e !in w.cache.cleaned
  }

  ghost function Apply(w: World, s: Step): World
    requires |w.cache.chains| > 0
  {
    match s
    case Ask(host, num, rotate, now) => w.(cache := LookupHost(w.cache, host, num, rotate, now).cache)
    case Learn(e, host, addrs, ttl, now) =>
      World(InsertHost(w.cache, e, host, addrs, ttl, now), w.history + [Answer(host, addrs, ttl, now)])
  }

  // ----- lookup

  /** The entry that a lookup finds is the visible one. */
  lemma Found(c: HostCache, host: Name)
    requires Ok(Hash, c)
    ensures forall e: Eid :: FindKey(Hash, c, host) == Some(e) <==> Visible(c, host, e)
  {
    hide Hash;
    LookupIsLatest(Hash, c, host);
  }

  /** A lookup that finds an unexpired entry changes its rotation and its place in the LRU
      order, and no other entry. */
  lemma HitSpec(c: HostCache, host: Name, num: nat, rotate: bool, now: int, e: Eid)
    requires Ok(Hash, c) && Quiet(c) && Visible(c, host, e) && now <= c.ents[e].data.expires
    ensures var r, x := LookupHost(c, host, num, rotate, now), c.ents[e];
            && r.Hit? && Ok(Hash, r.cache)
            && (x.data.cur < |x.data.addrs| ==> r.addrs == Handed(x.data, num, rotate))
            && r.cache.ents == c.ents[e := x.(data := Turned(x.data, num, rotate), idleSince := c.ticks)]
            && r.cache.cleaned == c.cleaned
  {
    hide Hash, Ok, FindKey, Handed, Turned;
    SomeBucket(Hash, c);
    Found(c, host);
    var c1, d := Lookup(Hash, c, host), c.ents[e].data;
    LookupOk(Hash, c, host);
    DataOk(Hash, c1, e, Turned(d, num, rotate));
    ReleaseOk(Hash, SetData(c1, e, Turned(d, num, rotate)), e);
  }

  /** A lookup that finds an expired entry removes it. */
  lemma ExpiredSpec(c: HostCache, host: Name, num: nat, rotate: bool, now: int, e: Eid)
    requires Ok(Hash, c) && Quiet(c) && Visible(c, host, e) && now > c.ents[e].data.expires
    ensures var r := LookupHost(c, host, num, rotate, now);
            r.Miss? && Ok(Hash, r.cache) && r.cache.ents == c.ents - {e} && r.cache.cleaned == c.cleaned + [e]
  {
    hide Hash, Ok, FindKey;
    SomeBucket(Hash, c);
    Found(c, host);
    var c1 := Lookup(Hash, c, host);
    LookupOk(Hash, c, host);
    ReleaseOk(Hash, c1, e);
    DeleteOk(Hash, Release(Hash, c1, e), e);
  }

  lemma AbsentSpec(c: HostCache, host: Name, num: nat, rotate: bool, now: int)
    requires Ok(Hash, c) && forall e: Eid :: !Visible(c, host, e)
    ensures var r := LookupHost(c, host, num, rotate, now);
            r.Miss? && Ok(Hash, r.cache) && r.cache.ents == c.ents && r.cache.cleaned == c.cleaned
  {
    hide Hash, Ok, FindKey;
    SomeBucket(Hash, c);
    Found(c, host);
    LookupOk(Hash, c, host);
    assert FindKey(Hash, c, host) == None;
  }

  // ----- insert

  /** The entries after linking: the new one, and old ones as they were. */
  lemma LinkEnts(c: HostCache, e: Eid)
    requires Ok(Hash, c) && e in c.ents && !c.ents[e].linked
    requires forall x :: x in c.ents ==> c.ents[x].refs == 0
    ensures |c.chains| > 0
    ensures var c', x := Link(Hash, c, e), c.ents[e];
            && e in c'.ents && c'.ents[e] == x.(refs := 1, linked := true)
            && (forall y :: y in c'.ents && y != e ==> y in c.ents && c'.ents[y] == c.ents[y])
  {
    hide Hash, Remove;
    Found(c, c.ents[e].key);
    hide FindKey;
  }

  lemma {:induction false} QNoneHeld(q: seq<Eid>, ents: map<Eid, Ent<Name, DnsData>>, m: Measure)
    requires forall e :: e in ents ==> ents[e].refs == 0
    ensures QSum(q, ents, m, true) == 0
  {
    if q == [] {
    } else {
      QNoneHeld(q[1..], ents, m);
    }
  }

  lemma {:induction false} NoneHeld(chains: seq<seq<Eid>>, ents: map<Eid, Ent<Name, DnsData>>, m: Measure)
    requires forall e :: e in ents ==> ents[e].refs == 0
    ensures TSum(chains, ents, m, true) == 0
  {
    if chains == [] {
    } else {
      QNoneHeld(chains[0], ents, m);
      NoneHeld(chains[1..], ents, m);
    }
  }

  /** Every idle linked entry is on the LRU list. */
  lemma AllIdle(c: HostCache)
    requires Ok(Hash, c) && forall x :: x in c.ents ==> c.ents[x].refs == 0
    ensures forall x :: x in c.ents && c.ents[x].linked ==> x in c.lru[..|c.lru|]
  {
    assert c.lru[..|c.lru|] == c.lru;
  }

  /** `y` is as it was, for another host. */
  ghost predicate Kept(c: HostCache, c': HostCache, y: Eid, host: Name) {
    y in c.ents && y in c'.ents && c'.ents[y] == c.ents[y] && c.ents[y].key != host
  }

  /** What `insert_entry` leaves: the new entry exactly if it would fit in an empty cache, and
      some of the old ones as they were, none of them for this host; if it does not fit, nothing. */
  ghost predicate Stored(c: HostCache, c': HostCache, e: Eid, host: Name, d: DnsData, w: nat) {
    && (e in c'.ents <==> w <= c.maxWeight && c.maxSize > 0)
    && (e in c'.ents ==> var x := c'.ents[e]; x.key == host && x.data == d && x.weight == w && x.linked && x.refs == 0)
    && (e !in c'.ents ==> c'.ents == map[])
    && (forall y :: y in c'.ents && y != e ==> Kept(c, c', y, host))
  }

  /** The new entry does not fit: every entry was idle and is gone, and the new one is freed. */
  lemma RefusedHost(c: HostCache, c1: HostCache, c2: HostCache, e: Eid)
    requires Ok(Hash, c1) && Quiet(c) && e !in c.ents && e in c1.ents && c1.ents == c.ents[e := c1.ents[e]]
    requires !c1.ents[e].linked && c1.ents[e].refs == 0
    requires Ok(Hash, c2) && Evicted(c1, c2, |c1.lru|)
    ensures e in c2.ents && |c2.chains| > 0 && Ok(Hash, Delete(Hash, c2, e)) && Delete(Hash, c2, e).ents == map[]
  {
    hide Hash;
    AllIdle(c1);
    DeleteOk(Hash, c2, e);
    assert e !in c1.lru;
    assert forall x :: x in c2.ents <==> x == e;
    hide Ok;
  }

  /** The new entry was linked and is given back. */
  lemma InsertedHost(c: HostCache, c1: HostCache, c2: HostCache, e: Eid, j: nat)
    requires Quiet(c) && e !in c.ents && e in c1.ents && c1.ents == c.ents[e := c1.ents[e]]
    requires !c1.ents[e].linked && c1.ents[e].refs == 0 && !c1.ents[e].pending
    requires Ok(Hash, c2) && Evicted(c1, c2, j) && e in c2.ents && |c2.chains| > 0
    requires Ok(Hash, Link(Hash, c2, e)) && Visible(Link(Hash, c2, e), c1.ents[e].key, e)
    ensures var c3, x := Link(Hash, c2, e), c1.ents[e];
            && e in c3.ents && |c3.chains| > 0 && Ok(Hash, Release(Hash, c3, e))
            && var c' := Release(Hash, c3, e);
            && e in c'.ents && (var y := c'.ents[e]; y.key == x.key && y.data == x.data && y.weight == x.weight && y.linked && y.refs == 0)
            && (forall y :: y in c'.ents && y != e ==> Kept(c, c', y, x.key))
  {
    hide Hash, Link, Free;
    LinkEnts(c2, e);
    var c3 := Link(Hash, c2, e);
    SomeBucket(Hash, c3);
    ReleaseOk(Hash, c3, e);
    var c' := Release(Hash, c3, e);
    assert KeysOk(c3);
    hide Ok, Evicted;
    forall y | y in c'.ents && y != e
      ensures Kept(c, c', y, c1.ents[e].key)
    {
      assert y in c2.ents && c2.ents[y] == c.ents[y];
      assert !Visible(c3, c1.ents[e].key, y);
    }
  }

  lemma InsertHostSpec(c: HostCache, e: Eid, host: Name, addrs: seq<Addr>, ttl: int, now: int)
    requires Ok(Hash, c) && Quiet(c) && e !in c.ents && e !in c.cleaned && ttl > 0
    ensures |c.chains| > 0
    ensures var c' := InsertHost(c, e, host, addrs, ttl, now);
            Ok(Hash, c') && Stored(c, c', e, host, DnsData(addrs, 0, now + ttl), |host| + 1 + 24 + 4 * |addrs| + 64)
  {
    hide Hash, Ok, Evicted, Insert, LeastPrefix, Visible, Link, Release, Delete;
    SomeBucket(Hash, c);
    var c1 := Lru.NewEntry(c, e, host, DnsData(addrs, 0, now + ttl), Weight(host, addrs));
    NewEntryOk(Hash, c, e, host, DnsData(addrs, 0, now + ttl), Weight(host, addrs));
    var k, c2 := InsertSpec(Hash, c1, e);
    NoneHeld(c1.chains, c1.ents, Mass);
    NoneHeld(c1.chains, c1.ents, Count);
    var r := Insert(Hash, c1, e);
    if r.Refused? {
      RefusedHost(c, c1, r.cache, e);
    } else {
      InsertedHost(c, c1, c2, e, if c1.curSize - k >= c1.maxSize then k + 1 else k);
    }
  }

  // ----- runs

  lemma LastPositiveAppend(history: seq<Answer>, a: Answer, host: Name)
    ensures LastPositive(history + [a], host) == if a.host == host && a.ttl > 0 then Some(a) else LastPositive(history, host)
  {
    assert (history + [a])[..|history|] == history;
  }

  lemma NothingCached(c: HostCache, e: Eid, host: Name, addrs: seq<Addr>, ttl: int, now: int)
    requires |c.chains| > 0 && ttl <= 0
    ensures InsertHost(c, e, host, addrs, ttl, now) == c
  {
  }

  lemma LearnInv(w: World, s: Step)
    requires Inv(w) && s.Learn? && Enabled(w, s)
    ensures |w.cache.chains| > 0 && Inv(Apply(w, s))
  {
    hide Hash, Ok, Reply, InsertHost, LastPositive;
    SomeBucket(Hash, w.cache);
    var w' := Apply(w, s);
    forall host
      ensures LastPositive(w'.history, host) ==
              if s.host == host && s.ttl > 0 then Some(Answer(s.host, s.addrs, s.ttl, s.now)) else LastPositive(w.history, host)
    {
      LastPositiveAppend(w.history, Answer(s.host, s.addrs, s.ttl, s.now), host);
    }
    ReplyHasAddress(s.addrs, s.ttl);
    if s.ttl > 0 {
      InsertHostSpec(w.cache, s.e, s.host, s.addrs, s.ttl, s.now);
    } else {
      assert w'.cache == w.cache by { NothingCached(w.cache, s.e, s.host, s.addrs, s.ttl, s.now); }
    }
  }

  /** The cases of a lookup, by the visible entry. */
  lemma AskInv(w: World, s: Step)
    requires Inv(w) && s.Ask?
    ensures |w.cache.chains| > 0 && Inv(Apply(w, s))
  {
    hide Hash, Ok, LookupHost, LastPositive;
    SomeBucket(Hash, w.cache);
    if e: Eid :| Visible(w.cache, s.host, e) {
      if s.now <= w.cache.ents[e].data.expires {
        HitSpec(w.cache, s.host, s.num, s.rotate, s.now, e);
      } else {
        ExpiredSpec(w.cache, s.host, s.num, s.rotate, s.now, e);
      }
    } else {
      AbsentSpec(w.cache, s.host, s.num, s.rotate, s.now);
    }
  }

  /** A run from an empty cache, in any order of lookups and answers. */
  ghost predicate IsRun(ws: seq<World>, steps: seq<Step>) {
    && |ws| == |steps| + 1
    && (exists maxSize: nat, maxWeight: nat, n: nat ::
          n > 0 && ws[0] == World(Create(maxSize, maxWeight, n), []))
    && forall i :: 0 <= i < |steps| ==>
         |ws[i].cache.chains| > 0 && Enabled(ws[i], steps[i]) && ws[i + 1] == Apply(ws[i], steps[i])
  }

  lemma StartInv(maxSize: nat, maxWeight: nat, n: nat)
    requires n > 0
    ensures Inv(World(Create(maxSize, maxWeight, n), []))
  {
    hide Hash, Ok;
    CreateOk<Name, DnsData>(Hash, maxSize, maxWeight, n);
  }

  lemma {:induction false} RunInv(ws: seq<World>, steps: seq<Step>, i: nat)
    requires IsRun(ws, steps) && i < |ws|
    ensures Inv(ws[i])
  {
    hide Hash, Apply, Enabled, Inv;
    if i == 0 {
      var maxSize: nat, maxWeight: nat, n: nat :| n > 0 && ws[0] == World(Create(maxSize, maxWeight, n), []);
      StartInv(maxSize, maxWeight, n);
    } else {
      RunInv(ws, steps, i - 1);
      if steps[i - 1].Ask? {
        AskInv(ws[i - 1], steps[i - 1]);
      } else {
        LearnInv(ws[i - 1], steps[i - 1]);
      }
    }
  }

  lemma OneVisible(c: HostCache, host: Name, e: Eid)
    requires Ok(Hash, c) && Visible(c, host, e)
    ensures forall f: Eid :: Visible(c, host, f) ==> f == e
  {
  }

  /** Agreement with the resolver in every state of every run: what a hit hands out is from the
      last answer with a positive time to live for the host, and that has not expired; a miss
      leaves no entry for the host. */
  lemma HitIsLatest(ws: seq<World>, steps: seq<Step>, i: nat, host: Name, num: nat, rotate: bool, now: int)
    requires IsRun(ws, steps) && i < |ws|
    ensures |ws[i].cache.chains| > 0
    ensures var r, a := LookupHost(ws[i].cache, host, num, rotate, now), LastPositive(ws[i].history, host);
            && (r.Hit? ==> a.Some? && now <= a.value.at + a.value.ttl && a.value.addrs != []
                           && (if num != 1 then r.addrs == a.value.addrs[..Min(num, |a.value.addrs|)]
                               else if rotate then |r.addrs| == 1 && r.addrs[0] in a.value.addrs
                               else r.addrs == [a.value.addrs[0]]))
            && (r.Miss? ==> forall e: Eid :: !Visible(r.cache, host, e))
  {
    hide Hash, Ok, LookupHost, LastPositive, IsRun;
    var w := ws[i];
    RunInv(ws, steps, i);
    SomeBucket(Hash, w.cache);
    var c' := LookupHost(w.cache, host, num, rotate, now).cache;
    if e: Eid :| Visible(w.cache, host, e) {
      assert Backed(w.cache.ents[e], w.history);
      if now <= w.cache.ents[e].data.expires {
        HitSpec(w.cache, host, num, rotate, now, e);
      } else {
        ExpiredSpec(w.cache, host, num, rotate, now, e);
        OneVisible(w.cache, host, e);
        assert forall f: Eid :: Visible(c', host, f) ==> Visible(w.cache, host, f);
      }
    } else {
      AbsentSpec(w.cache, host, num, rotate, now);
      assert forall f: Eid :: Visible(c', host, f) ==> Visible(w.cache, host, f);
    }
  }

  lemma NotPending(c: HostCache, e: Eid)
    requires Ok(Hash, c) && e in c.ents && c.ents[e].refs == 0
    ensures !c.ents[e].pending
  {
    assert EntOk(c.ents[e]);
  }

  /** An answer that fits in the cache is what the next lookup of its host hands out, until it
      expires; and then no more. */
  lemma LearnThenAsk(w: World, s: Step, num: nat, now: int)
    requires Inv(w) && s.Learn? && Enabled(w, s) && s.ttl > 0
    requires |s.host| + 1 + 24 + 4 * |s.addrs| + 64 <= w.cache.maxWeight && w.cache.maxSize > 0
    ensures |w.cache.chains| > 0 && |Apply(w, s).cache.chains| > 0
    ensures var r := LookupHost(Apply(w, s).cache, s.host, num, false, now);
            && (r.Hit? <==> now <= s.now + s.ttl)
            && (r.Hit? ==> r.addrs == s.addrs[..Min(num, |s.addrs|)])
  {
    hide Hash, Ok, LookupHost, Reply, InsertHost, Weight;
    LearnInv(w, s);
    InsertHostSpec(w.cache, s.e, s.host, s.addrs, s.ttl, s.now);
    ReplyHasAddress(s.addrs, s.ttl);
    var c := Apply(w, s).cache;
    SomeBucket(Hash, c);
    NotPending(c, s.e);
    if now <= s.now + s.ttl {
      HitSpec(c, s.host, num, false, now, s.e);
    } else {
      ExpiredSpec(c, s.host, num, false, now, s.e);
    }
  }

  // ----- rotation

  /** A lookup of `host` for one address in rotation. */
  predicate Rotates(s: Step, host: Name) {
    s.Ask? && s.host == host && s.num == 1 && s.rotate
  }

  /** While an entry stays the one for its host, only rotating lookups of the host change its
      data, and every lookup of the host is a hit. */
  lemma WhileVisible(w: World, s: Step, host: Name, e: Eid)
    requires Inv(w) && Enabled(w, s) && |w.cache.chains| > 0
    requires Visible(w.cache, host, e) && Visible(Apply(w, s).cache, host, e)
    ensures var d := w.cache.ents[e].data;
            && d.cur < |d.addrs|
            && Apply(w, s).cache.ents[e].data == (if Rotates(s, host) then Turned(d, 1, true) else d)
            && (Rotates(s, host) ==> LookupHost(w.cache, host, 1, true, s.now).Hit?
                                     && LookupHost(w.cache, host, 1, true, s.now).addrs == [d.addrs[d.cur]])
  {
    hide Hash, Ok, LookupHost, Reply, InsertHost, LastPositive;
    assert Backed(w.cache.ents[e], w.history);
    match s {
      case Learn(e', host', addrs, ttl, now) =>
        if ttl > 0 {
          InsertHostSpec(w.cache, e', host', addrs, ttl, now);
          assert Kept(w.cache, Apply(w, s).cache, e, host');
        } else {
          NothingCached(w.cache, e', host', addrs, ttl, now);
        }
      case Ask(host', num, rotate, now) =>
        if f: Eid :| Visible(w.cache, host', f) {
          if host' == host {
            OneVisible(w.cache, host, f);
          }
          if now <= w.cache.ents[f].data.expires {
            HitSpec(w.cache, host', num, rotate, now, f);
          } else {
            ExpiredSpec(w.cache, host', num, rotate, now, f);
          }
        } else {
          AbsentSpec(w.cache, host', num, rotate, now);
        }
    }
  }

  /** The addresses handed out by the rotating lookups of `host` among steps `i` to `j`. */
  ghost function HandedOut(ws: seq<World>, steps: seq<Step>, host: Name, i: nat, j: nat): seq<seq<Addr>>
    requires i <= j <= |steps| && j < |ws|
    requires forall t :: i <= t < j ==> |ws[t].cache.chains| > 0
  {
    if i == j then []
    else
      var before := HandedOut(ws, steps, host, i, j - 1);
      var s := steps[j - 1];
      if !Rotates(s, host) then before
      else
        match LookupHost(ws[j - 1].cache, host, 1, true, s.now)
        case Hit(addrs, _) => before + [addrs]
        case Miss(_) => before
  }

  /** The entry `e` is the one for `host` in the states `i` to `j`. */
  ghost predicate Stays(ws: seq<World>, host: Name, e: Eid, i: nat, j: nat)
    requires i <= j < |ws|
  {
    forall t :: i <= t <= j ==> |ws[t].cache.chains| > 0 && Visible(ws[t].cache, host, e)
  }

  /** The position `k` turns after `cur` in a cycle of `n`. */
  function Around(cur: nat, k: nat, n: nat): (p: nat)
    requires cur < n
    ensures p < n
    ensures k <= n ==> p == if cur + k < n then cur + k else cur + k - n
  {
    if k == 0 then cur
    else
      var p := Around(cur, k - 1, n);
      if p + 1 >= n then 0 else p + 1
  }

  /** Over any part of a run in which one entry stays the one for its host, the rotating lookups
      hand out its addresses in cyclic order, whatever else happens in between. */
  lemma {:induction false} CyclicOrder(ws: seq<World>, steps: seq<Step>, host: Name, e: Eid, i: nat, j: nat)
    requires IsRun(ws, steps) && i <= j <= |steps| && Stays(ws, host, e, i, j)
    ensures e in ws[i].cache.ents && e in ws[j].cache.ents
    ensures var d, d', out := ws[i].cache.ents[e].data, ws[j].cache.ents[e].data, HandedOut(ws, steps, host, i, j);
            && d.cur < |d.addrs| && d'.addrs == d.addrs && d'.cur == Around(d.cur, |out|, |d.addrs|)
            && forall k :: 0 <= k < |out| ==> out[k] == [d.addrs[Around(d.cur, k, |d.addrs|)]]
    decreases j
  {
    hide Hash, Ok, LookupHost, LastPositive, Apply, Enabled, Quiet;
    assert Visible(ws[i].cache, host, e) && Visible(ws[j].cache, host, e);
    RunInv(ws, steps, i);
    assert Backed(ws[i].cache.ents[e], ws[i].history);
    if i < j {
      CyclicOrder(ws, steps, host, e, i, j - 1);
      RunInv(ws, steps, j - 1);
      assert Visible(ws[j - 1].cache, host, e) && ws[j] == Apply(ws[j - 1], steps[j - 1]);
      WhileVisible(ws[j - 1], steps[j - 1], host, e);
    }
  }

  /** As many rotating lookups as there are addresses hand out every stored position once. */
  lemma EachPositionOnce(ws: seq<World>, steps: seq<Step>, host: Name, e: Eid, i: nat, j: nat) returns (positions: seq<nat>)
    requires IsRun(ws, steps) && i <= j <= |steps| && Stays(ws, host, e, i, j)
    requires e in ws[i].cache.ents && |HandedOut(ws, steps, host, i, j)| == |ws[i].cache.ents[e].data.addrs|
    ensures var addrs, out := ws[i].cache.ents[e].data.addrs, HandedOut(ws, steps, host, i, j);
            && |positions| == |addrs| && NoDup(positions)
            && forall k :: 0 <= k < |positions| ==> positions[k] < |addrs| && out[k] == [addrs[positions[k]]]
  {
    hide HandedOut;
    CyclicOrder(ws, steps, host, e, i, j);
    var d := ws[i].cache.ents[e].data;
    hide Stays, IsRun;
    var n := |d.addrs|;
    positions := seq(n, k requires 0 <= k < n => Around(d.cur, k, n));
  }
}
