/** The intrusive circular list of extensions/common.h:11-58, on which the models' queues
    stand: append at the tail and remove are exactly the operations on sequences. */
module CircularList {
  import opened Lists

  class Link {
    var next: Link
    var prev: Link

    /** A link that is alone points at itself: `STX_CLIST_INIT_CLIST`. */
    constructor ()
      ensures next == this && prev == this
    {
      next, prev := this, this;
    }
  }

  class CList {
    const head: Link
    ghost var items: seq<Link>

    constructor ()
      ensures Valid() && items == [] && fresh(head)
    {
      head := new Link();
      items := [];
    }

    ghost function Ring(): seq<Link>
      reads this
    {
      [head] + items
    }

    ghost predicate LinkedAt(i: int)
      reads this, Ring()
    {
      var r := Ring();
      0 <= i < |r| ==>
        && r[i].next == (if i + 1 < |r| then r[i + 1] else r[0])
        && r[i].prev == (if i > 0 then r[i - 1] else r[|r| - 1])
    }

    ghost predicate Valid()
      reads this, Ring()
    {
      NoDup(Ring()) && forall i {:trigger LinkedAt(i)} :: LinkedAt(i)
    }

    /** `STX_CLIST_IS_EMPTY` and `STX_CLIST_HEAD`. */
    method First() returns (e: Option<Link>)
      requires Valid()
      ensures e == if items == [] then None else Some(items[0])
    {
      assert LinkedAt(0) && LinkedAt(1);
      e := if head.next == head then None else Some(head.next);
    }

    /** `STX_CLIST_APPEND_LINK(e, l)`: insert before the head. */
    method Append(e: Link)
      requires Valid() && e !in Ring()
      modifies this`items, Ring(), e
      ensures Valid() && items == old(items) + [e]
    {
      ghost var n := |Ring()|;
      assert LinkedAt(0) && LinkedAt(n - 1);
      e.next := head;
      e.prev := head.prev;
      head.prev.next := e;
      head.prev := e;
      items := items + [e];
      assert Ring() == old(Ring()) + [e];
      forall i
        ensures LinkedAt(i)
      {
        assert old(LinkedAt(i)) && old(LinkedAt(n - 1));
      }
    }

    /** `STX_CLIST_REMOVE_LINK`. */
    method Unlink(e: Link)
      requires Valid() && e in items
      modifies this`items, Ring()
      ensures Valid() && items == Remove(old(items), e)
    {
      hide Remove;
      ghost var r := Ring();
      ghost var j := RemoveSplit(items, e);
      assert LinkedAt(j) && LinkedAt(j + 1) && LinkedAt(j + 2) && LinkedAt(0);
      assert r[j + 1] == e;
      e.prev.next := e.next;
      e.next.prev := e.prev;
      items := items[..j] + items[j + 1..];
      ghost var r' := Ring();
      assert r' == r[..j + 1] + r[j + 2..];
      forall i
        ensures LinkedAt(i)
      {
        if 0 <= i < |r'| {
          ghost var k := if i <= j then i else i + 1;
          assert r'[i] == r[k] && old(LinkedAt(k));
        }
      }
    }

    /** Appending an element that is already linked, which the macro does not notice. The walk
        from the head still reaches it. If it was the last, it then points at itself, both ways;
        otherwise the walk ends after it, and those behind it are lost. */
    method AppendLinked(e: Link, ghost j: nat)
      requires Valid() && j < |items| && items[j] == e
      modifies Ring()
      ensures items == old(items) && head.next == items[0]
      ensures forall i :: 0 <= i < j ==> items[i].next == items[i + 1]
      ensures if j == |items| - 1 then e.next == e && e.prev == e else e.next == head
    {
      ghost var r, n := Ring(), |items|;
      assert LinkedAt(0) && r[0] == head && r[j + 1] == e && r[n] == items[n - 1];
      forall i | 0 <= i < j
        ensures items[i].next == items[i + 1] && items[i] != e && items[i] != head && items[i] != r[n]
      {
        assert LinkedAt(i + 1) && r[i + 1] == items[i] && r[i + 2] == items[i + 1];
      }
      e.next := head;
      e.prev := head.prev;
      head.prev.next := e;
      head.prev := e;
    }

    /** A list of one element to which that element is appended again never gets empty: removing
        the element does not change it any more. */
    method NeverEmpties(e: Link)
      requires Valid() && items == [e]
      modifies Ring()
      ensures head.next == e && e.next == e && e.prev == e
    {
      assert e == Ring()[1];
      AppendLinked(e, 0);
      e.prev.next := e.next;
      e.next.prev := e.prev;
    }
  }
}
