/** `parse_answer` of extensions/dnsres.c: the addresses and the time to live in a DNS
    response, whose format is that of section 4.1 of RFC 1035. `dn_skipname` and `dn_expand`
    belong to the resolver library: here they are functions from the message and a position
    to the length of the name there, negative if there is none. */
module DnsAnswer {
  type Byte = b: int | 0 <= b < 256
  type Message = seq<Byte>
  type NameLength = (Message, nat) -> int

  /** A `struct in_addr`: four bytes. */
  type Addr = a: seq<Byte> | |a| == 4 witness [0, 0, 0, 0]

  const HEADER := 12
  const QFIXEDSZ := 4
  const T_A := 1

  /** `_getshort` and `_getlong`: big-endian. */
  function Short(m: Message, i: nat): nat
    requires i + 2 <= |m|
  {
    (m[i] as int) * 0x100 + (m[i + 1] as int)
  }

  function Long(m: Message, i: nat): nat
    requires i + 4 <= |m|
  {
    (m[i] as int) * 0x1000000 + (m[i + 1] as int) * 0x10000 + (m[i + 2] as int) * 0x100 + (m[i + 3] as int)
  }

  /** An unsigned 32-bit value stored in an `int`. */
  function ToInt(n: nat): int {
    if n < 0x8000_0000 then n else n - 0x1_0000_0000
  }

  /** `memcpy` of `n` bytes over the first bytes of an address. */
  function Overlay(old': Addr, m: Message, i: nat, n: nat): (a: Addr)
    requires n <= 4 && i + n <= |m|
    ensures forall k :: 0 <= k < 4 ==> a[k] == if k < n then m[i + k] else old'[k]
  {
    m[i..i + n] + old'[n..]
  }

  // ----- the code as functions of a cursor

  function SkipQuestions(skip: NameLength, m: Message, cp: nat, count: nat): nat
    decreases count
  {
    if count == 0 then cp
    else
      var n := skip(m, cp);
      SkipQuestions(skip, m, if cp + n + QFIXEDSZ >= 0 then cp + n + QFIXEDSZ else 0, count - 1)
  }

  /** `stored` are the addresses written so far, over `init`. */
  datatype Outcome = Failed(stored: seq<Addr>, ttl: int) | Parsed(stored: seq<Addr>, ttl: int)

  function Answers(expand: NameLength, m: Message, cp: nat, count: nat, init: seq<Addr>, stored: seq<Addr>, ttl: int): Outcome
    requires |stored| <= |init|
    decreases count
  {
    if count == 0 || cp >= |m| || |stored| >= |init| then Parsed(stored, ttl)
    else
      var n := expand(m, cp);
      if n < 0 then Failed(stored, ttl)
      else
        var p := cp + n;
        if p + 10 >= |m| then Failed(stored, ttl)
        else
          var typ, len := Short(m, p), Short(m, p + 8);
          if typ != T_A then Answers(expand, m, p + 10 + len, count - 1, init, stored, ttl)
          else
            var ttl' := ToInt(Long(m, p + 4));
            if len > 4 || p + 10 + len > |m| then Failed(stored, ttl')
            else
              Answers(expand, m, p + 10 + len, count - 1, init,
                      stored + [Overlay(init[|stored|], m, p + 10, len)], ttl')
  }

  function Parse(skip: NameLength, expand: NameLength, m: Message, qdcount: nat, ancount: nat, init: seq<Addr>): Outcome {
    Answers(expand, m, SkipQuestions(skip, m, HEADER, qdcount), ancount, init, [], -1)
  }

  /** The first loop of `parse_answer`. `dn_skipname` fails with -1, which is not tested. */
  method PassQuestions(skip: NameLength, m: Message, qdcount: nat) returns (cp: nat)
    requires forall i: nat :: skip(m, i) >= -1
    ensures cp == SkipQuestions(skip, m, HEADER, qdcount)
    ensures (qdcount == 0 ==> cp == 12) && (qdcount == 1 ==> cp == 12 + skip(m, 12) + 4)
  {
    cp := HEADER;
    var qd := qdcount;
    while qd > 0
      invariant SkipQuestions(skip, m, HEADER, qdcount) == SkipQuestions(skip, m, cp, qd)
    {
      qd := qd - 1;
      cp := cp + skip(m, cp) + QFIXEDSZ;
    }
  }

  /** Storing one more address in the array. */
  method StoreAddress(addrs: array<Addr>, i: nat, a: Addr, ghost init: seq<Addr>, ghost stored: seq<Addr>)
    requires i == |stored| < addrs.Length == |init| && addrs[..] == stored + init[i..]
    modifies addrs
    ensures addrs[..] == stored + [a] + init[i + 1..] && addrs[i] == a
  {
    addrs[i] := a;
    assert addrs[..] == (stored + init[i..])[i := a];
  }

  /** The type, the signed time to live and the data length of a record whose fixed part is at `p`,
      said on its bytes. */
  ghost function TypeAt(m: Message, p: nat): int
    requires p + 10 <= |m|
  {
    m[p] as int * 256 + m[p + 1] as int
  }

  ghost function TtlAt(m: Message, p: nat): int
    requires p + 10 <= |m|
  {
    var n := ((m[p + 4] as int * 256 + m[p + 5] as int) * 256 + m[p + 6] as int) * 256 + m[p + 7] as int;
    if m[p + 4] < 128 then n else n - 0x1_0000_0000
  }

  ghost function LengthAt(m: Message, p: nat): int
    requires p + 10 <= |m|
  {
    m[p + 8] as int * 256 + m[p + 9] as int
  }

  /** Whether a record of any message is accepted: its name is found, its fixed part does not end
      the message, and an A record has at most four bytes, all there. */
  ghost predicate Acceptable(expand: NameLength, m: Message, cp: nat) {
    expand(m, cp) >= 0 &&
    var p := cp + expand(m, cp);
    p + 10 < |m| && (TypeAt(m, p) == 1 ==> LengthAt(m, p) <= 4 && p + 10 + LengthAt(m, p) <= |m|)
  }

  lemma FieldsAt(m: Message, p: nat)
    requires p + 10 <= |m|
    ensures Short(m, p) == TypeAt(m, p) && Short(m, p + 8) == LengthAt(m, p) && ToInt(Long(m, p + 4)) == TtlAt(m, p)
  {
  }

  /** One turn of the second loop of `parse_answer`: the record at the cursor is read. */
  method ReadRecord(expand: NameLength, m: Message, cp: nat, addrs: array<Addr>, i: nat, ttl: int,
                    ghost count: nat, ghost init: seq<Addr>, ghost stored: seq<Addr>)
    returns (ok: bool, cp': nat, i': nat, ttl': int, ghost stored': seq<Addr>)
    requires cp < |m| && i == |stored| < addrs.Length == |init| && addrs[..] == stored + init[i..]
    modifies addrs
    ensures i' == |stored'| <= |init| && addrs[..] == stored' + init[i'..]
    ensures Answers(expand, m, cp, count + 1, init, stored, ttl) ==
            if ok then Answers(expand, m, cp', count, init, stored', ttl') else Failed(stored', ttl')
    ensures ok <==> Acceptable(expand, m, cp)
    ensures ok ==>
              var p := cp + expand(m, cp);
              && cp' == p + 10 + LengthAt(m, p)
              && (if TypeAt(m, p) == 1
                  then i' == i + 1 && ttl' == TtlAt(m, p)
                       && forall k :: 0 <= k < 4 ==> addrs[i][k] == if k < LengthAt(m, p) then m[p + 10 + k] else init[i][k]
                  else i' == i && ttl' == ttl)
  {
    hide Short, Long, ToInt, Overlay, TypeAt, TtlAt, LengthAt;
    ok, cp', i', ttl', stored' := false, cp, i, ttl, stored;
    var n := expand(m, cp);
    if n < 0 {
      return;
    }
    cp' := cp + n;
    if cp' + 4 + 4 + 2 >= |m| {
      return;
    }
    FieldsAt(m, cp');
    var typ := Short(m, cp');
    cp' := cp' + 4;
    if typ == T_A {
      ttl' := ToInt(Long(m, cp'));
    }
    cp' := cp' + 4;
    n := Short(m, cp');
    cp' := cp' + 2;
    if typ == T_A {
      if n > 4 || cp' + n > |m| {
        return;
      }
      assert addrs[i] == addrs[..][i] == init[i];
      stored', i' := stored + [Overlay(init[i], m, cp', n)], i + 1;
      StoreAddress(addrs, i, Overlay(addrs[i], m, cp', n), init, stored);
    }
    cp' := cp' + n;
    ok := true;
  }

  /** `parse_answer` as it runs: the cursor advances, the counts go down, the array fills. */
  method ParseAnswer(skip: NameLength, expand: NameLength, m: Message, qdcount: nat, ancount: nat, addrs: array<Addr>)
    returns (ok: bool, numAddrs: nat, ttl: int)
    requires forall i: nat :: skip(m, i) >= -1
    modifies addrs
    ensures var r := Parse(skip, expand, m, qdcount, ancount, old(addrs[..]));
            && ok == r.Parsed? && ttl == r.ttl
            && |r.stored| <= addrs.Length
            && addrs[..] == r.stored + old(addrs[..])[|r.stored|..]
            && numAddrs == if ok then |r.stored| else addrs.Length
  {
    hide SkipQuestions;
    ghost var init, stored: seq<Addr> := addrs[..], [];
    var an, i := ancount, 0;
    ttl := -1;
    var cp: nat := PassQuestions(skip, m, qdcount);
    while an > 0 && cp < |m| && i < addrs.Length
      invariant i == |stored| <= addrs.Length && addrs[..] == stored + init[i..]
      invariant Parse(skip, expand, m, qdcount, ancount, init) == Answers(expand, m, cp, an, init, stored, ttl)
      decreases an
    {
      hide Answers;
      an := an - 1;
      var read;
      read, cp, i, ttl, stored := ReadRecord(expand, m, cp, addrs, i, ttl, an, init, stored);
      if !read {
        return false, addrs.Length, ttl;
      }
    }
    return true, i, ttl;
  }

  // ----- well-formed responses

  type U16 = n: int | 0 <= n < 0x1_0000
  type U32 = n: int | 0 <= n < 0x1_0000_0000

  /** A question, section 4.1.2, and a resource record, section 4.1.3 of RFC 1035. */
  datatype Question = Question(name: Message, qtype: U16, qclass: U16)
  datatype Record = Record(name: Message, typ: U16, class_: U16, ttl: U32, rdata: Message)

  function Enc16(n: U16): Message {
    [n / 0x100, n % 0x100]
  }

  function Enc32(n: U32): Message {
    Enc16(n / 0x1_0000) + Enc16(n % 0x1_0000)
  }

  function EncQuestion(q: Question): Message {
    q.name + Enc16(q.qtype) + Enc16(q.qclass)
  }

  function EncQuestions(qs: seq<Question>): Message {
    if qs == [] then [] else EncQuestion(qs[0]) + EncQuestions(qs[1..])
  }

  /** The fixed part of a record after its name. */
  function Fixed(r: Record): Message
    requires |r.rdata| < 0x1_0000
  {
    Enc16(r.typ) + Enc16(r.class_) + Enc32(r.ttl) + Enc16(|r.rdata|)
  }

  ghost predicate WellFormed(rs: seq<Record>) {
    forall r :: r in rs ==> |r.rdata| < 0x1_0000 && (r.typ == 1 ==> |r.rdata| == 4)
  }

  function EncRecord(r: Record): Message
    requires |r.rdata| < 0x1_0000
  {
    r.name + Fixed(r) + r.rdata
  }

  function EncRecords(rs: seq<Record>): Message
    requires WellFormed(rs)
  {
    if rs == [] then [] else EncRecord(rs[0]) + EncRecords(rs[1..])
  }

  /** The library function finds every name at its place. */
  ghost predicate FindsQuestions(skip: NameLength, m: Message, cp: nat, qs: seq<Question>)
    decreases |qs|
  {
    qs == [] || (skip(m, cp) == |qs[0].name| && FindsQuestions(skip, m, cp + |qs[0].name| + 4, qs[1..]))
  }

  ghost predicate FindsNames(expand: NameLength, m: Message, cp: nat, rs: seq<Record>)
    decreases |rs|
  {
    rs == [] || (expand(m, cp) == |rs[0].name| && FindsNames(expand, m, cp + |rs[0].name| + 10 + |rs[0].rdata|, rs[1..]))
  }

  /** The times to live of the A records, each read as a signed 32-bit number. */
  ghost function Ttls(rs: seq<Record>): seq<int> {
    if rs == [] then []
    else
      var n := rs[0].ttl;
      (if rs[0].typ == 1 then [if n < 0x8000_0000 then n else n - 0x1_0000_0000] else []) + Ttls(rs[1..])
  }

  /** The addresses of the A records, whose type is 1, in message order. */
  ghost function Addresses(rs: seq<Record>): (s: seq<Addr>)
    requires WellFormed(rs)
    ensures |s| == |Ttls(rs)|
  {
    if rs == [] then [] else (if rs[0].typ == 1 then [rs[0].rdata] else []) + Addresses(rs[1..])
  }

  lemma Dec16(n: U16, m: Message, i: nat)
    requires i + 2 <= |m| && m[i..i + 2] == Enc16(n)
    ensures Short(m, i) == n
  {
    assert m[i] == m[i..i + 2][0] && m[i + 1] == m[i..i + 2][1];
  }

  lemma Dec32(n: U32, m: Message, i: nat)
    requires i + 4 <= |m| && m[i..i + 4] == Enc32(n)
    ensures Long(m, i) == n
  {
    var w := m[i..i + 4];
    assert m[i..i + 2] == w[..2] == Enc16(n / 0x1_0000);
    assert m[i + 2..i + 4] == w[2..] == Enc16(n % 0x1_0000);
    Dec16(n / 0x1_0000, m, i);
    Dec16(n % 0x1_0000, m, i + 2);
    assert Long(m, i) == Short(m, i) * 0x1_0000 + Short(m, i + 2);
  }

  lemma SubSlice<T>(s: seq<T>, p: nat, q: nat, i: nat, j: nat)
    requires p <= q <= |s| && i <= j <= q - p
    ensures s[p..q][i..j] == s[p + i..p + j]
  {
    var t := s[p..q];
    assert forall k :: i <= k < j ==> t[k] == s[p + k];
    assert |t[i..j]| == |s[p + i..p + j]|;
    assert forall k :: 0 <= k < j - i ==> t[i..j][k] == s[p + i..p + j][k];
  }

  lemma Middle<T>(a: seq<T>, b: seq<T>, c: seq<T>)
    ensures (a + b + c)[|a|..|a| + |b|] == b
  {
  }

  /** The parts of the fixed part. */
  lemma FixedParts(r: Record)
    requires |r.rdata| < 0x1_0000
    ensures var f := Fixed(r);
            |f| == 10 && f[0..2] == Enc16(r.typ) && f[4..8] == Enc32(r.ttl) && f[8..10] == Enc16(|r.rdata|)
  {
  }

  /** Reading the fixed part of a record back. */
  lemma DecFixed(r: Record, m: Message, p: nat)
    requires |r.rdata| < 0x1_0000 && p + 10 <= |m| && m[p..p + 10] == Fixed(r)
    ensures Short(m, p) == r.typ && Long(m, p + 4) == r.ttl && Short(m, p + 8) == |r.rdata|
  {
    hide Fixed, Enc16, Enc32, Short, Long;
    FixedParts(r);
    SubSlice(m, p, p + 10, 0, 2);
    SubSlice(m, p, p + 10, 4, 8);
    SubSlice(m, p, p + 10, 8, 10);
    Dec16(r.typ, m, p);
    Dec32(r.ttl, m, p + 4);
    Dec16(|r.rdata|, m, p + 8);
  }

  lemma {:induction false} SkipsQuestions(skip: NameLength, m: Message, cp: nat, qs: seq<Question>)
    requires FindsQuestions(skip, m, cp, qs)
    ensures SkipQuestions(skip, m, cp, |qs|) == cp + |EncQuestions(qs)|
    decreases |qs|
  {
    if qs == [] {
    } else {
      SkipsQuestions(skip, m, cp + |qs[0].name| + 4, qs[1..]);
    }
  }

  /** The one shape that `parse_answer` wrongly rejects: the message ends with the fixed part of
      a record that has no data. */
  ghost predicate EndsBare(rs: seq<Record>, after: nat) {
    rs != [] && rs[|rs| - 1].rdata == [] && after == 0
  }

  function Min(a: nat, b: nat): nat {
    if a < b then a else b
  }

  /** From a record boundary on, with room for some addresses: the walk fails exactly when the
      message ends bare and there is room left then; the addresses of the A records are stored
      in order while there is room, and the time to live is that of the last one stored. */
  ghost predicate Delivered(r: Outcome, rs: seq<Record>, after: nat, capacity: nat, stored: seq<Addr>, ttl: int)
    requires WellFormed(rs) && |stored| <= capacity
  {
    var k := Min(capacity - |stored|, |Addresses(rs)|);
    && (r.Failed? <==> EndsBare(rs, after) && |stored| + |Addresses(rs)| < capacity)
    && r.stored == stored + Addresses(rs)[..k]
    && r.ttl == if k == 0 then ttl else Ttls(rs)[k - 1]
  }

  /** The records lie in the message from `cp` on, and then `after` bytes up to its end. */
  ghost predicate Laid(m: Message, cp: nat, rs: seq<Record>, after: nat)
    decreases |rs|
  {
    if rs == [] then cp + after == |m|
    else
      var p, len := cp + |rs[0].name|, |rs[0].rdata|;
      && p + 10 + len <= |m| && len < 0x1_0000
      && m[p..p + 10] == Fixed(rs[0])
      && m[p + 10..p + 10 + len] == rs[0].rdata
      && Laid(m, p + 10 + len, rs[1..], after)
  }

  lemma {:induction false} EncodedLaid(m: Message, pre: Message, rs: seq<Record>, rest: Message)
    requires WellFormed(rs) && m == pre + EncRecords(rs) + rest
    ensures Laid(m, |pre|, rs, |rest|)
    decreases |rs|
  {
    hide Fixed;
    if rs == [] {
    } else {
      FixedParts(rs[0]);
      var r, tail := rs[0], EncRecords(rs[1..]) + rest;
      assert m == pre + r.name + Fixed(r) + (r.rdata + tail);
      Middle(pre + r.name, Fixed(r), r.rdata + tail);
      assert m == pre + r.name + Fixed(r) + r.rdata + tail;
      Middle(pre + r.name + Fixed(r), r.rdata, tail);
      var pre' := pre + r.name + Fixed(r) + r.rdata;
      assert m == pre' + EncRecords(rs[1..]) + rest;
      EncodedLaid(m, pre', rs[1..], rest);
    }
  }

  lemma {:induction false} LaidLength(m: Message, cp: nat, rs: seq<Record>, after: nat)
    requires Laid(m, cp, rs, after)
    ensures cp + 10 * |rs| + after <= |m|
    decreases |rs|
  {
    hide Fixed;
    if rs == [] {
    } else {
      LaidLength(m, cp + |rs[0].name| + 10 + |rs[0].rdata|, rs[1..], after);
    }
  }

  lemma Head(rs: seq<Record>)
    requires WellFormed(rs) && rs != []
    ensures WellFormed(rs[1..])
    ensures Addresses(rs) == if rs[0].typ == T_A then [rs[0].rdata] + Addresses(rs[1..]) else Addresses(rs[1..])
    ensures Ttls(rs) == if rs[0].typ == T_A then [ToInt(rs[0].ttl)] + Ttls(rs[1..]) else Ttls(rs[1..])
    ensures rs[1..] != [] ==> rs[1..][|rs| - 2] == rs[|rs| - 1]
  {
  }

  lemma FourBytes(rs: seq<Record>)
    requires WellFormed(rs) && rs != []
    ensures rs[0].typ == T_A ==> |rs[0].rdata| == 4
  {
  }

  lemma NothingMore(rs: seq<Record>, after: nat, capacity: nat, stored: seq<Addr>, ttl: int)
    requires WellFormed(rs) && |stored| <= capacity && (rs == [] || |stored| == capacity)
    ensures Delivered(Parsed(stored, ttl), rs, after, capacity, stored, ttl)
  {
  }

  lemma BareEnd(rs: seq<Record>, after: nat, capacity: nat, stored: seq<Addr>, ttl: int)
    requires WellFormed(rs) && |rs| == 1 && |stored| < capacity && rs[0].rdata == [] && after == 0
    ensures Delivered(Failed(stored, ttl), rs, after, capacity, stored, ttl)
  {
    Head(rs);
  }

  lemma TakeAfter<T>(s: seq<T>, x: T, t: seq<T>, k: nat)
    requires 1 <= k <= |t| + 1
    ensures s + ([x] + t)[..k] == s + [x] + t[..k - 1]
  {
    assert ([x] + t)[..k] == [x] + t[..k - 1];
  }

  lemma StepA(o: Outcome, rs: seq<Record>, after: nat, capacity: nat, stored: seq<Addr>, ttl: int)
    requires WellFormed(rs) && rs != [] && WellFormed(rs[1..]) && rs[0].typ == T_A && |rs[0].rdata| == 4 && |stored| < capacity
    requires Delivered(o, rs[1..], after, capacity, stored + [rs[0].rdata], ToInt(rs[0].ttl))
    ensures Delivered(o, rs, after, capacity, stored, ttl)
  {
    hide Addresses, Ttls, WellFormed, ToInt;
    Head(rs);
    var k := Min(capacity - |stored|, |Addresses(rs)|);
    TakeAfter(stored, rs[0].rdata, Addresses(rs[1..]), k);
  }

  lemma StepOther(o: Outcome, rs: seq<Record>, after: nat, capacity: nat, stored: seq<Addr>, ttl: int)
    requires WellFormed(rs) && rs != [] && WellFormed(rs[1..]) && rs[0].typ != T_A && |stored| < capacity
    requires !(|rs| == 1 && rs[0].rdata == [] && after == 0)
    requires Delivered(o, rs[1..], after, capacity, stored, ttl)
    ensures Delivered(o, rs, after, capacity, stored, ttl)
  {
    hide Addresses, Ttls, WellFormed;
    Head(rs);
  }

  lemma {:induction false} AnswersDeliver(
    expand: NameLength, m: Message, cp: nat, rs: seq<Record>, after: nat,
    init: seq<Addr>, stored: seq<Addr>, ttl: int)
    requires WellFormed(rs) && |stored| <= |init|
    requires Laid(m, cp, rs, after) && FindsNames(expand, m, cp, rs)
    ensures Delivered(Answers(expand, m, cp, |rs|, init, stored, ttl), rs, after, |init|, stored, ttl)
    decreases |rs|
  {
    hide Fixed, Short, Long, Addresses, Ttls, WellFormed, Delivered, ToInt;
    LaidLength(m, cp, rs, after);
    if rs == [] || |stored| == |init| {
      NothingMore(rs, after, |init|, stored, ttl);
    } else {
      var r, p := rs[0], cp + |rs[0].name|;
      var next := p + 10 + |r.rdata|;
      Head(rs);
      DecFixed(r, m, p);
      LaidLength(m, next, rs[1..], after);
      if p + 10 == |m| {
        BareEnd(rs, after, |init|, stored, ttl);
      } else if r.typ == T_A {
        FourBytes(rs);
        assert Overlay(init[|stored|], m, p + 10, 4) == r.rdata;
        var stored' := stored + [r.rdata];
        AnswersDeliver(expand, m, next, rs[1..], after, init, stored', ToInt(r.ttl));
        StepA(Answers(expand, m, next, |rs| - 1, init, stored', ToInt(r.ttl)), rs, after, |init|, stored, ttl);
      } else {
        AnswersDeliver(expand, m, next, rs[1..], after, init, stored, ttl);
        StepOther(Answers(expand, m, next, |rs| - 1, init, stored, ttl), rs, after, |init|, stored, ttl);
      }
    }
  }

  /** The law of `parse_answer` on a well-formed response: header, questions, answers, and the
      sections after them. */
  lemma WellFormedResponse(
    skip: NameLength, expand: NameLength, m: Message,
    header: Message, qs: seq<Question>, rs: seq<Record>, rest: Message, init: seq<Addr>)
    requires |header| == 12 && WellFormed(rs)
    requires m == header + EncQuestions(qs) + EncRecords(rs) + rest
    requires FindsQuestions(skip, m, 12, qs) && FindsNames(expand, m, 12 + |EncQuestions(qs)|, rs)
    ensures Delivered(Parse(skip, expand, m, |qs|, |rs|, init), rs, |rest|, |init|, [], -1)
  {
    hide EncQuestions, EncRecords, FindsQuestions, FindsNames, WellFormed, Delivered, Answers, SkipQuestions, Laid;
    SkipsQuestions(skip, m, HEADER, qs);
    EncodedLaid(m, header + EncQuestions(qs), rs, rest);
    AnswersDeliver(expand, m, HEADER + |EncQuestions(qs)|, rs, |rest|, init, [], -1);
  }

  /** A well-formed response that is rejected: one record, not an A record, with no data. */
  lemma BareRejected()
    ensures var rs := [Record([0], 10, 1, 60, [])];
            var m := seq(HEADER, _ => 0) + EncRecords(rs);
            Parse((_, _) => 1, (_, _) => 1, m, 0, 1, [[0, 0, 0, 0]]).Failed?
  {
    var rs := [Record([0], 10, 1, 60, [])];
    assert |EncRecords(rs)| == 11;
  }

  /** On every message, well formed or not: a positive time to live comes with an address, which
      the cache relies on. */
  lemma {:induction false} PositiveTtlHasAddress(
    expand: NameLength, m: Message, cp: nat, count: nat, init: seq<Addr>, stored: seq<Addr>, ttl: int)
    requires |stored| <= |init| && (ttl > 0 ==> stored != [])
    ensures var r := Answers(expand, m, cp, count, init, stored, ttl);
            r.Parsed? && r.ttl > 0 ==> 0 < |r.stored| <= |init|
    decreases count
  {
    if count > 0 && cp < |m| && |stored| < |init| && expand(m, cp) >= 0 {
      var p := cp + expand(m, cp);
      if p + 10 < |m| {
        var len, ttl' := Short(m, p + 8), ToInt(Long(m, p + 4));
        if Short(m, p) != T_A {
          PositiveTtlHasAddress(expand, m, p + 10 + len, count - 1, init, stored, ttl);
        } else if len <= 4 && p + 10 + len <= |m| {
          PositiveTtlHasAddress(expand, m, p + 10 + len, count - 1, init,
                                stored + [Overlay(init[|stored|], m, p + 10, len)], ttl');
        }
      }
    }
  }

  lemma {:induction false} StoredFits(
    expand: NameLength, m: Message, cp: nat, count: nat, init: seq<Addr>, stored: seq<Addr>, ttl: int)
    requires |stored| <= |init|
    ensures |Answers(expand, m, cp, count, init, stored, ttl).stored| <= |init|
    decreases count
  {
    if count == 0 || cp >= |m| || |stored| >= |init| || expand(m, cp) < 0 || cp + expand(m, cp) + 10 >= |m| {
    } else {
      var p := cp + expand(m, cp);
      var len, ttl' := Short(m, p + 8), ToInt(Long(m, p + 4));
      hide Short, Long, ToInt, Overlay;
      if Short(m, p) != T_A {
        StoredFits(expand, m, p + 10 + len, count - 1, init, stored, ttl);
      } else if len <= 4 && p + 10 + len <= |m| {
        StoredFits(expand, m, p + 10 + len, count - 1, init, stored + [Overlay(init[|stored|], m, p + 10, len)], ttl');
      }
    }
  }
}
