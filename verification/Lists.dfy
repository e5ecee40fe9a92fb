/** Queues as sequences: the facts about append-at-tail and remove that the models share. */
module Lists {

  datatype Option<+T> = None | Some(value: T)

  ghost predicate NoDup<T>(s: seq<T>) {
    forall i, j :: 0 <= i < j < |s| ==> s[i] != s[j]
  }

  /** Removing an element from its queue. */
  function Remove<T(==)>(s: seq<T>, x: T): seq<T> {
    if s == [] then []
    else if s[0] == x then s[1..]
    else [s[0]] + Remove(s[1..], x)
  }

  lemma {:induction false} RemoveElems<T>(s: seq<T>, x: T)
    requires NoDup(s)
    ensures NoDup(Remove(s, x))
    ensures forall y :: y in Remove(s, x) <==> y in s && y != x
    ensures |Remove(s, x)| == if x in s then |s| - 1 else |s|
  {
    if s != [] && s[0] != x {
      assert NoDup(s[1..]);
      RemoveElems(s[1..], x);
      var r := Remove(s[1..], x);
      assert s[0] !in r;
      assert forall i :: 1 <= i < |[s[0]] + r| ==> ([s[0]] + r)[i] == r[i - 1];
      assert forall y :: y in s <==> y == s[0] || y in s[1..];
    } else if s != [] {
      assert forall y :: y in s <==> y == s[0] || y in s[1..];
    }
  }

  lemma AppendNoDup<T>(s: seq<T>, x: T)
    requires NoDup(s) && x !in s
    ensures NoDup(s + [x])
    ensures forall y :: y in s + [x] <==> y in s || y == x
  {
  }

  /** Cutting a position out of the tail is cutting the next one out of the whole. */
  lemma CutTail<T>(s: seq<T>, i: nat)
    requires i + 1 < |s|
    ensures [s[0]] + (s[1..][..i] + s[1..][i + 1..]) == s[..i + 1] + s[i + 2..]
  {
    var tail := s[1..];
    assert forall k :: 0 <= k < |tail| ==> tail[k] == s[k + 1];
    assert |[s[0]] + (tail[..i] + tail[i + 1..])| == |s[..i + 1] + s[i + 2..]|;
  }

  /** Removing the first occurrence closes the gap and keeps the order. */
  lemma {:induction false} RemoveSplit<T>(s: seq<T>, x: T) returns (i: nat)
    requires x in s
    ensures i < |s| && s[i] == x && Remove(s, x) == s[..i] + s[i + 1..]
  {
    if s[0] == x {
      i := 0;
    } else {
      i := RemoveSplit(s[1..], x);
      CutTail(s, i);
      i := i + 1;
    }
  }

  lemma RemoveAbsent<T>(s: seq<T>, x: T)
    requires x !in s
    ensures Remove(s, x) == s
  {
    if s != [] {
      RemoveAbsent(s[1..], x);
    }
  }

  /** Removing the element at a position. */
  lemma RemoveIndex<T>(q: seq<T>, j: nat)
    requires NoDup(q) && j < |q|
    ensures Remove(q, q[j]) == q[..j] + q[j + 1..]
  {
    hide Remove;
    var i := RemoveSplit(q, q[j]);
  }
}
