/** The timeout heap of sched.c:257-399: a complete binary min-heap of threads whose nodes
    are re-linked, never copied, along paths read from the bits of an index. */
module TimeoutHeap {
  import opened Threads
  import opened Bits
  import opened HeapOrder

  /** A `_st_thread_t**`: the place that holds a link. */
  datatype Slot = Root | LeftOf(node: Thread) | RightOf(node: Thread)

  type Tree = map<int, Thread>

  ghost function At(m: Tree, i: int): Thread? {
    if i in m then m[i] else null
  }

  /** Slot `p` is the place whose content is position `i`. */
  ghost predicate SlotOf(p: Slot, m: Tree, i: int) {
    if i == 1 then p == Root
    else i / 2 in m && p == if i % 2 == 0 then LeftOf(m[i / 2]) else RightOf(m[i / 2])
  }

  /** From position `from` on nothing has changed. */
  ghost predicate SameFrom(m: Tree, m': Tree, from: int) {
    forall i :: i in m && i >= from ==> i in m' && m'[i] == m[i]
  }

  lemma SameFromTwice(m: Tree, m1: Tree, m2: Tree, from: int, below: int)
    requires SameFrom(m, m1, from) && SameFrom(m1, m2, below) && below <= from
    ensures SameFrom(m, m2, from)
  {
  }

  class Vp {
    var sleepq: Thread?
    var sleepqSize: nat
    var lastClock: nat
    var runq: seq<Thread>
    /** The threads in the heap, as a plain set and by position. */
    ghost var sleepers: set<Thread>
    ghost var tree: Tree

    constructor (now: nat)
      ensures Valid() && sleepers == {} && sleepqSize == 0 && lastClock == now && runq == []
    {
      sleepq, sleepqSize, lastClock, runq := null, 0, now, [];
      sleepers, tree := {}, map[];
    }

    function Load(p: Slot): Thread?
      reads this, if p.Root? then {} else {p.node}
    {
      match p
      case Root => sleepq
      case LeftOf(x) => x.left
      case RightOf(x) => x.right
    }

    method Store(p: Slot, v: Thread?)
      modifies (if p.Root? then {this} else {})`sleepq
      modifies (if p.LeftOf? then {p.node} else {})`left
      modifies (if p.RightOf? then {p.node} else {})`right
      ensures Load(p) == v
    {
      match p
      case Root => sleepq := v;
      case LeftOf(x) => x.left := v;
      case RightOf(x) => x.right := v;
    }

    /** The node at `i` knows its position, and its links lead to the positions below. */
    ghost predicate LinkedAt(i: int)
      reads this`sleepq, this`tree, this`sleepers, sleepers`left, sleepers`right, sleepers`heapIndex
    {
      i in tree ==>
        && i >= 1 && tree[i] in sleepers && tree[i].heapIndex == i
        && tree[i].left == At(tree, 2 * i) && tree[i].right == At(tree, 2 * i + 1)
    }

    /** A linked tree holding each sleeper at its own `heap_index`. */
    ghost predicate Shaped()
      reads this`sleepq, this`tree, this`sleepers, sleepers`left, sleepers`right, sleepers`heapIndex
    {
      && sleepq == At(tree, 1)
      && (forall i {:trigger LinkedAt(i)} :: LinkedAt(i))
      && (forall x {:trigger x in sleepers} :: x in sleepers ==> At(tree, x.heapIndex) == x)
    }

    /** As `Shaped`, except that the node at `hole` has no children linked yet. */
    ghost predicate ShapedBut(hole: int)
      reads this`sleepq, this`tree, this`sleepers, sleepers`left, sleepers`right, sleepers`heapIndex
    {
      && sleepq == At(tree, 1) && hole in tree
      && (forall i {:trigger LinkedAt(i)} :: i != hole ==> LinkedAt(i))
      && (forall x {:trigger x in sleepers} :: x in sleepers ==> At(tree, x.heapIndex) == x)
      && tree[hole] in sleepers && tree[hole].heapIndex == hole
      && tree[hole].left == null && tree[hole].right == null
    }

    /** What a slot holds is the node at its position. */
    lemma LoadIsAt(p: Slot, i: int)
      requires Shaped() && i >= 1 && SlotOf(p, tree, i)
      ensures Load(p) == At(tree, i)
    {
      assert LinkedAt(i / 2);
    }

    /** The one link to position `i` has been redirected to a node from outside, which has
        taken over the links of the node that was there: the shape is kept. */
    twostate lemma DisplacedShape(i: int)
      requires old(Shaped()) && i in old(tree) && i in tree && tree[i] !in old(sleepers)
      requires tree == old(tree)[i := tree[i]] && sleepers == old(sleepers) - {old(tree[i])} + {tree[i]}
      requires sleepq == if i == 1 then tree[i] else old(sleepq)
      requires forall x :: x in old(sleepers) ==>
                 && x.heapIndex == old(x.heapIndex)
                 && x.left == (if 2 * x.heapIndex == i then tree[i] else old(x.left))
                 && x.right == (if 2 * x.heapIndex + 1 == i then tree[i] else old(x.right))
      requires tree[i].heapIndex == i && tree[i].left == old(tree[i].left) && tree[i].right == old(tree[i].right)
      ensures Shaped()
    {
      assert old(LinkedAt(i)) && old(LinkedAt(i / 2));
      forall j
        ensures LinkedAt(j)
      {
        assert old(LinkedAt(j));
      }
    }

    /** Node `c` takes position `i`, and the links, of the node that was there. */
    method Displace(p: Slot, i: nat, c: Thread) returns (t: Thread)
      requires Shaped() && i in tree && SlotOf(p, tree, i) && c !in sleepers
      modifies this`sleepq, this`tree, this`sleepers, sleepers`left, sleepers`right
      modifies c`left, c`right, c`heapIndex
      ensures t == old(tree[i]) && tree == old(tree)[i := c] && sleepers == old(sleepers) - {t} + {c}
      ensures Shaped()
    {
      assert LinkedAt(i) && LinkedAt(i / 2);
      LoadIsAt(p, i);
      t := Load(p);
      c.left, c.right := t.left, t.right;
      Store(p, c);
      c.heapIndex := i;
      tree, sleepers := tree[i := c], sleepers - {t} + {c};
      DisplacedShape(i);
    }

    /** As `DisplacedShape`, for a node that has no links yet. */
    twostate lemma PlacedShape(i: int)
      requires old(Shaped()) && (i == 1 || i / 2 in old(tree)) && i in tree && tree[i] !in old(sleepers)
      requires tree == old(tree)[i := tree[i]]
      requires sleepers == old(sleepers) + {tree[i]} - (if i in old(tree) then {old(tree[i])} else {})
      requires sleepq == if i == 1 then tree[i] else old(sleepq)
      requires forall x :: x in old(sleepers) ==>
                 && x.heapIndex == old(x.heapIndex)
                 && x.left == (if 2 * x.heapIndex == i then tree[i] else old(x.left))
                 && x.right == (if 2 * x.heapIndex + 1 == i then tree[i] else old(x.right))
      requires tree[i].heapIndex == i && tree[i].left == null && tree[i].right == null
      ensures ShapedBut(i)
    {
      assert old(LinkedAt(i)) && old(LinkedAt(i / 2));
      forall j | j != i
        ensures LinkedAt(j)
      {
        assert old(LinkedAt(j));
      }
    }

    /** Node `c` is stored at position `i`, without children, over whatever was there. */
    method Place(p: Slot, i: nat, c: Thread)
      requires Shaped() && 1 <= i && SlotOf(p, tree, i) && c !in sleepers && c.heapIndex == i
      modifies this`sleepq, this`tree, this`sleepers, sleepers`left, sleepers`right, c`left, c`right
      ensures ShapedBut(i)
      ensures tree == old(tree)[i := c] && SlotOf(p, tree, i)
      ensures sleepers == old(sleepers) + {c} - (if i in old(tree) then {old(tree[i])} else {})
      ensures forall x :: x in old(sleepers) && x !in sleepers ==> x.left == old(x.left) && x.right == old(x.right)
    {
      assert LinkedAt(i) && LinkedAt(i / 2);
      Store(p, c);
      c.left, c.right := null, null;
      sleepers := sleepers + {c} - (if i in tree then {tree[i]} else {});
      tree := tree[i := c];
      PlacedShape(i);
    }

    /** `due` records the due times of `nodes`, as a value that survives re-linking. */
    ghost predicate TimesOf(due: map<Thread, nat>, nodes: set<Thread>)
      reads nodes`due
    {
      forall x :: x in nodes ==> x in due && due[x] == x.due
    }

    /** One comparison of the walk: of `c` and the node at `i`, the earlier one stays at `i`
        and the later one is carried on. */
    method Exchange(p: Slot, i: nat, c: Thread, ghost due: map<Thread, nat>) returns (d: Thread)
      requires Shaped() && i in tree && SlotOf(p, tree, i) && c !in sleepers
      requires TimesOf(due, sleepers + {c}) && Ordered(tree, due)
      requires i / 2 in tree ==> due[tree[i / 2]] <= due[c]
      modifies this`sleepq, this`tree, this`sleepers, sleepers`left, sleepers`right
      modifies c`left, c`right, c`heapIndex
      ensures Shaped() && i in tree && Ordered(tree, due) && SlotOf(p, tree, i)
      ensures d in old(sleepers) + {c} && d !in sleepers && sleepers == old(sleepers) + {c} - {d}
      ensures due[tree[i]] <= due[d] && tree == old(tree)[i := tree[i]]
    {
      assert LinkedAt(i);
      LoadIsAt(p, i);
      d := c;
      if c.due < Load(p).due {
        EarlierKeepsOrder(tree, due, i, c);
        d := Displace(p, i, c);
      }
    }

    /** On the way down: `c` is carried, and is not due before what stands above position `i`,
        whose slot is `p`. */
    ghost predicate Carrying(p: Slot, i: int, c: Thread, n: nat, due: map<Thread, nat>)
      reads this`sleepq, this`tree, this`sleepers, sleepers`left, sleepers`right, sleepers`heapIndex, sleepers`due, c`due
    {
      && Shaped() && Complete(tree, n) && Ordered(tree, due) && SlotOf(p, tree, i) && i >= 1
      && c !in sleepers && TimesOf(due, sleepers + {c})
      && (i / 2 in tree ==> due[tree[i / 2]] <= due[c])
    }

    /** One turn of the walk of `heap_insert`: the comparison at `i`, and on to the left or the
        right child. */
    method StepDown(p: Slot, i: nat, c: Thread, right: bool, ghost n: nat, ghost due: map<Thread, nat>)
      returns (q: Slot, d: Thread)
      requires Carrying(p, i, c, n, due) && i <= n
      modifies this`sleepq, this`tree, this`sleepers, sleepers`left, sleepers`right
      modifies c`left, c`right, c`heapIndex
      ensures var j := 2 * i + if right then 1 else 0; Carrying(q, j, d, n, due) && (Load(q) == null <==> j > n)
      ensures sleepers + {d} == old(sleepers) + {c} && SameFrom(old(tree), tree, i + 1)
    {
      d := Exchange(p, i, c, due);
      hide Ordered;
      LoadIsAt(p, i);
      q := if right then RightOf(Load(p)) else LeftOf(Load(p));
      ghost var j: int := 2 * i + if right then 1 else 0;
      assert j / 2 == i && SlotOf(q, tree, j);
      LoadIsAt(q, j);
    }

    /** The same turn, seen from the start of the walk, when the tree was `tree0` and the nodes,
        with the one to insert, were `nodes`. */
    method WalkOn(p: Slot, i: nat, c: Thread, right: bool, ghost target: nat, ghost n: nat, ghost due: map<Thread, nat>,
                  ghost tree0: Tree, ghost nodes: set<Thread>) returns (q: Slot, d: Thread)
      requires Carrying(p, i, c, n, due) && i <= n && i < target
      requires sleepers + {c} == nodes && SameFrom(tree0, tree, target)
      modifies this`sleepq, this`tree, this`sleepers, nodes`left, nodes`right, nodes`heapIndex
      ensures var j := 2 * i + if right then 1 else 0; Carrying(q, j, d, n, due) && (Load(q) == null <==> j > n)
      ensures sleepers + {d} == nodes && SameFrom(tree0, tree, target)
    {
      hide Carrying, SameFrom;
      ghost var before := tree;
      q, d := StepDown(p, i, c, right, n, due);
      SameFromTwice(tree0, before, tree, target, i + 1);
    }

    lemma AtTheRoot(c: Thread, target: nat, n: nat, due: map<Thread, nat>)
      requires Shaped() && Complete(tree, n) && Ordered(tree, due) && c !in sleepers && TimesOf(due, sleepers + {c})
      ensures Carrying(Root, 1, c, n, due) && SameFrom(tree, tree, target) && Shr(target, 0) == target
    {
    }

    /** The walk of `heap_insert` from the root to the place above `target`. */
    method Descend(thread: Thread, target: nat, ghost n: nat, ghost due: map<Thread, nat>) returns (p: Slot, c: Thread)
      requires Shaped() && Complete(tree, n) && thread !in sleepers && 1 <= target <= n + 1 && n >= 1
      requires TimesOf(due, sleepers + {thread}) && Ordered(tree, due)
      modifies this`sleepq, this`tree, this`sleepers, sleepers`left, sleepers`right
      modifies sleepers`heapIndex, thread`left, thread`right, thread`heapIndex
      ensures Carrying(p, target, c, n, due) && sleepers + {c} == old(sleepers) + {thread}
      ensures SameFrom(old(tree), tree, target)
    {
      hide Carrying, Shr, BitSet, SameFrom, Shaped, Complete, Ordered;
      var bits: int := BitLength(target);
      var index, bit := 1, bits - 2;
      p, c := Root, thread;
      AtTheRoot(thread, target, n, due);
      while bit >= 0
        invariant -1 <= bit && 1 <= index == Shr(target, bit + 1) && (if bit == -1 then index == target else index <= n)
        invariant Carrying(p, index, c, n, due) && sleepers + {c} == old(sleepers) + {thread}
        invariant SameFrom(old(tree), tree, target)
      {
        PathStep(target, bit);
        assert index < target;
        var right := BitSet(target, bit);
        p, c := WalkOn(p, index, c, right, target, n, due, old(tree), old(sleepers) + {thread});
        index := 2 * index + if right then 1 else 0;
        if Load(p) == null {
          assert index == target;
          break;
        }
        bit := bit - 1;
      }
    }

    /** `heap_insert`. The thread goes down the path of its `heap_index`, pushing later
        threads ahead of it; what it ends up carrying is stored at that index, without
        children, over whatever was there. */
    method HeapInsert(thread: Thread, ghost n: nat, ghost due: map<Thread, nat>) returns (p: Slot)
      requires Shaped() && Complete(tree, n) && thread !in sleepers && 1 <= thread.heapIndex <= n + 1
      requires TimesOf(due, sleepers + {thread}) && Ordered(tree, due)
      modifies this`sleepq, this`tree, this`sleepers, sleepers`left, sleepers`right
      modifies sleepers`heapIndex, thread`left, thread`right, thread`heapIndex
      ensures var target := old(thread.heapIndex);
              && ShapedBut(target) && Complete(tree, if target == n + 1 then n + 1 else n)
              && OrderedBut(tree, due, target) && SlotOf(p, tree, target)
              && sleepers == old(sleepers) + {thread} - (if target in old(tree) then {old(tree[target])} else {})
              && (forall i :: i in old(tree) && i > target ==> i in tree && tree[i] == old(tree)[i])
      ensures forall x :: x in old(sleepers) && x !in sleepers ==> x.left == old(x.left) && x.right == old(x.right)
    {
      var target, c := thread.heapIndex, thread;
      p := Root;
      assert LinkedAt(1) && LinkedAt(target);
      if sleepq != null {
        p, c := Descend(thread, target, n, due);
        assert LinkedAt(target);
        c.heapIndex := target;
      }
      PlacedOrderBut(tree, due, n, target, c);
      Place(p, target, c);
    }

    /** The first loop of `heap_delete`: the path of the size leads to the last node, and the
        two exits for a missing child are never taken. */
    method LastSlot(ghost n: nat) returns (p: Slot)
      requires Shaped() && Complete(tree, n) && sleepqSize == n && n >= 1
      ensures SlotOf(p, tree, n)
    {
      var bits: int := BitLength(sleepqSize);
      ghost var index := 1;
      var bit := bits - 2;
      p := Root;
      while bit >= 0
        invariant -1 <= bit && index == Shr(n, bit + 1) && 1 <= index
        invariant SlotOf(p, tree, index)
      {
        ShrBound(n, bit + 1);
        ShrBound(n, bit);
        assert LinkedAt(index);
        LoadIsAt(p, index);
        if BitSet(sleepqSize, bit) {
          assert Load(p).right != null;
          p := RightOf(Load(p));
          index := 2 * index + 1;
        } else {
          assert Load(p).left != null;
          p := LeftOf(Load(p));
          index := 2 * index;
        }
        bit := bit - 1;
      }
    }

    /** The one link to the last position has been cut: the shape is kept. */
    twostate lemma CutShape(n: int)
      requires old(Shaped()) && Complete(old(tree), n) && n >= 1
      requires tree == old(tree) - {n} && sleepers == old(sleepers) - {old(tree[n])}
      requires sleepq == if n == 1 then null else old(sleepq)
      requires forall x :: x in old(sleepers) ==>
                 && x.heapIndex == old(x.heapIndex)
                 && x.left == (if 2 * x.heapIndex == n then null else old(x.left))
                 && x.right == (if 2 * x.heapIndex + 1 == n then null else old(x.right))
      ensures Shaped()
    {
      assert old(LinkedAt(n)) && old(LinkedAt(n / 2));
      forall j
        ensures LinkedAt(j)
      {
        assert old(LinkedAt(j));
      }
    }

    method UnlinkLast(ghost n: nat) returns (t: Thread)
      requires Shaped() && Complete(tree, n) && sleepqSize == n && n >= 1
      modifies this`sleepq, this`sleepqSize, this`tree, this`sleepers, sleepers`left, sleepers`right
      ensures Shaped() && sleepqSize == n - 1
      ensures t == old(tree[n]) && tree == old(tree) - {n} && sleepers == old(sleepers) - {t}
      ensures t.left == old(t.left) && t.right == old(t.right)
    {
      var p := LastSlot(n);
      assert LinkedAt(n) && LinkedAt(n / 2);
      LoadIsAt(p, n);
      t := Load(p);
      Store(p, null);
      sleepqSize := sleepqSize - 1;
      tree, sleepers := tree - {n}, sleepers - {t};
      CutShape(n);
    }

    /** The nodes at `k` and at its parent have traded places. */
    twostate lemma SwappedShape(k: int)
      requires old(Shaped()) && k >= 2 && k in old(tree) && k / 2 in old(tree)
      requires var i, t, y := k / 2, old(tree[k / 2]), old(tree[k]);
               && tree == old(tree)[i := y][k := t] && sleepers == old(sleepers)
               && sleepq == (if i == 1 then y else old(sleepq))
               && t.heapIndex == k && y.heapIndex == i
               && t.left == old(y.left) && t.right == old(y.right)
               && y.left == (if k % 2 == 0 then t else old(t.left))
               && y.right == (if k % 2 == 0 then old(t.right) else t)
               && forall x :: x in old(sleepers) && x != t && x != y ==>
                    && x.heapIndex == old(x.heapIndex)
                    && x.left == (if 2 * x.heapIndex == i then y else old(x.left))
                    && x.right == (if 2 * x.heapIndex + 1 == i then y else old(x.right))
      ensures Shaped()
    {
      assert old(LinkedAt(k)) && old(LinkedAt(k / 2)) && old(LinkedAt(k / 2 / 2));
      forall j
        ensures LinkedAt(j)
      {
        assert old(LinkedAt(j));
      }
    }

    /** The assignments of one turn of the loop that restores the order: `y`, a child of `t`,
        moves into `p`, and `t` takes its links and its index. */
    method Trade(p: Slot, t: Thread, y: Thread) returns (q: Slot)
      requires t != y && (t.left == y || t.right == y) && (p.Root? || p.node !in {t, y})
      modifies (if p.Root? then {this} else {})`sleepq
      modifies (if p.LeftOf? then {p.node, t, y} else {t, y})`left
      modifies (if p.RightOf? then {p.node, t, y} else {t, y})`right
      modifies t`heapIndex, y`heapIndex
      ensures Load(p) == y && t.left == old(y.left) && t.right == old(y.right)
      ensures t.heapIndex == old(y.heapIndex) && y.heapIndex == old(t.heapIndex)
      ensures if y == old(t.left) then q == LeftOf(y) && y.left == t && y.right == old(t.right)
              else q == RightOf(y) && y.left == old(t.left) && y.right == t
      ensures p.LeftOf? ==> p.node.right == old(p.node.right)
      ensures p.RightOf? ==> p.node.left == old(p.node.left)
    {
      var tl, tr := y.left, y.right;
      Store(p, y);
      if y == t.left {
        y.left, y.right := t, t.right;
        q := LeftOf(y);
      } else {
        y.left, y.right := t.left, t;
        q := RightOf(y);
      }
      t.left, t.right := tl, tr;
      t.heapIndex, y.heapIndex := y.heapIndex, t.heapIndex;
    }

    /** `t` at `i` and its child `y` at `k` trade places. */
    method SwapDown(p: Slot, ghost i: nat, ghost k: nat, t: Thread, y: Thread) returns (q: Slot)
      requires Shaped() && 1 <= i && SlotOf(p, tree, i) && i in tree && tree[i] == t
      requires k in tree && k / 2 == i && tree[k] == y
      modifies this`sleepq, this`tree, sleepers`left, sleepers`right, sleepers`heapIndex
      ensures Shaped() && tree == old(tree)[i := y][k := t]
      ensures SlotOf(q, tree, k)
    {
      assert LinkedAt(i) && LinkedAt(k) && LinkedAt(i / 2) && LinkedAt(2 * i);
      assert y == t.left <==> k == 2 * i;
      q := Trade(p, t, y);
      tree := tree[i := y][k := t];
      SwappedShape(k);
    }

    /** What the slot of a childless node holds is that node. */
    lemma LoadIsHole(p: Slot, hole: int)
      requires ShapedBut(hole) && hole >= 1 && SlotOf(p, tree, hole)
      ensures Load(p) == tree[hole]
    {
      assert hole >= 2 ==> LinkedAt(hole / 2);
    }

    /** The earlier child of `t`, the right one on a tie. */
    method EarlierChild(t: Thread, ghost n: nat, ghost due: map<Thread, nat>) returns (y: Thread?, ghost k: int)
      requires Shaped() && Complete(tree, n) && t in sleepers && TimesOf(due, sleepers) && Timed(tree, due)
      ensures y == null ==> forall j :: j in tree ==> j / 2 != t.heapIndex
      ensures y != null ==> y in sleepers && k in tree && tree[k] == y && k / 2 == t.heapIndex
      ensures y != null ==> forall j :: j in tree && j / 2 == t.heapIndex ==> due[y] <= due[tree[j]]
    {
      ghost var i := t.heapIndex;
      assert LinkedAt(i) && LinkedAt(2 * i) && LinkedAt(2 * i + 1);
      k := 2 * i;
      if t.left == null {
        y := null;
      } else if t.right == null {
        y := t.left;
      } else if t.left.due < t.right.due {
        y := t.left;
      } else {
        y, k := t.right, 2 * i + 1;
      }
    }

    /** The loop that restores the order below `t`. */
    method SiftDown(p: Slot, t: Thread, ghost n: nat, ghost due: map<Thread, nat>)
      requires Shaped() && Complete(tree, n) && SlotOf(p, tree, t.heapIndex)
      requires t in sleepers && TimesOf(due, sleepers) && OrderedBut(tree, due, t.heapIndex)
      modifies this`sleepq, this`tree, sleepers`left, sleepers`right, sleepers`heapIndex
      ensures Shaped() && Complete(tree, n) && Ordered(tree, due)
    {
      var p := p;
      ghost var i := t.heapIndex;
      while true
        invariant Shaped() && Complete(tree, n) && i == t.heapIndex && SlotOf(p, tree, i)
        invariant OrderedBut(tree, due, i)
        decreases n - i
      {
        assert LinkedAt(i);
        var y, k := EarlierChild(t, n, due);
        if y == null || t.due <= y.due {
          HoleClosed(tree, due, i);
          break;
        }
        SwapDownOrder(tree, due, i, k);
        p := SwapDown(p, i, k, t, y);
        i := k;
        assert LinkedAt(i);
      }
    }

    /** The childless node at the hole gets the links that its position calls for. */
    method TakeLinks(t: Thread, left: Thread?, right: Thread?)
      requires t in sleepers && ShapedBut(t.heapIndex)
      requires left == At(tree, 2 * t.heapIndex) && right == At(tree, 2 * t.heapIndex + 1) && t.heapIndex >= 1
      modifies t`left, t`right
      ensures Shaped()
    {
      t.left, t.right := left, right;
      forall j
        ensures LinkedAt(j)
      {
        assert j == t.heapIndex || old(LinkedAt(j));
      }
    }

    /** The unlinked last node `last` replaces `thread`: it is inserted at the index of
        `thread`, whatever it pushed down to that index takes the links of `thread`, and the
        order below is restored. The exits for a null slot and a null node are never taken. */
    method Refill(thread: Thread, last: Thread, ghost n: nat, ghost due: map<Thread, nat>)
      requires Shaped() && Complete(tree, n) && thread in sleepers && last !in sleepers
      requires TimesOf(due, sleepers + {last}) && Ordered(tree, due)
      modifies this`sleepq, this`tree, this`sleepers, sleepers`left, sleepers`right
      modifies sleepers`heapIndex, last`left, last`right, last`heapIndex
      ensures Shaped() && Complete(tree, n) && Ordered(tree, due)
      ensures sleepers == old(sleepers) + {last} - {thread}
    {
      ghost var target := thread.heapIndex;
      assert LinkedAt(target);
      last.heapIndex := thread.heapIndex;
      var p := HeapInsert(last, n, due);
      LoadIsHole(p, target);
      var t := Load(p);
      TakeLinks(t, thread.left, thread.right);
      SiftDown(p, t, n, due);
    }

    ghost function DueMap(nodes: set<Thread>): map<Thread, nat>
      reads nodes`due
    {
      map x | x in nodes :: x.due
    }

    /** The timeout heap: complete in level order, every `heap_index` right, min-ordered. */
    ghost predicate Valid()
      reads this`sleepq, this`sleepqSize, this`tree, this`sleepers
      reads sleepers`left, sleepers`right, sleepers`heapIndex, sleepers`due
    {
      Shaped() && Complete(tree, sleepqSize) && Ordered(tree, DueMap(sleepers))
    }

    lemma Held()
      requires Shaped()
      ensures forall i :: i in tree ==> tree[i] in sleepers
    {
      forall i | i in tree
        ensures tree[i] in sleepers
      {
        assert LinkedAt(i);
      }
    }

    lemma Reordered(due: map<Thread, nat>)
      requires Shaped() && Ordered(tree, due) && TimesOf(due, sleepers)
      ensures Ordered(tree, DueMap(sleepers))
    {
      Held();
      SameTimes(tree, due, DueMap(sleepers));
    }

    /** `heap_delete` up to its last statement, with the due times made explicit. */
    method RemoveNode(thread: Thread, ghost due: map<Thread, nat>)
      requires Shaped() && Complete(tree, sleepqSize) && thread in sleepers
      requires TimesOf(due, sleepers) && Ordered(tree, due)
      modifies this`sleepq, this`sleepqSize, this`tree, this`sleepers
      modifies sleepers`left, sleepers`right, sleepers`heapIndex
      ensures Shaped() && Complete(tree, sleepqSize) && Ordered(tree, due)
      ensures sleepers == old(sleepers) - {thread} && sleepqSize == old(sleepqSize) - 1
    {
      ghost var n := sleepqSize;
      assert LinkedAt(thread.heapIndex) && LinkedAt(n);
      DropLast(tree, due, n);
      var t := UnlinkLast(n);
      if t != thread {
        Refill(thread, t, n - 1, due);
      }
    }

    /** `heap_delete`, for a thread anywhere in the heap. */
    method HeapDelete(thread: Thread)
      requires Valid() && thread in sleepers
      modifies this`sleepq, this`sleepqSize, this`tree, this`sleepers
      modifies sleepers`left, sleepers`right, sleepers`heapIndex
      ensures Valid() && sleepers == old(sleepers) - {thread} && sleepqSize == old(sleepqSize) - 1
      ensures thread.left == null && thread.right == null
    {
      ghost var due := DueMap(sleepers);
      RemoveNode(thread, due);
      Reordered(due);
      thread.left, thread.right := null, null;
    }

    /** `heap_insert` of a thread whose index is one past the last. */
    method AddNode(thread: Thread, ghost n: nat, ghost due: map<Thread, nat>)
      requires Shaped() && Complete(tree, n) && thread !in sleepers && thread.heapIndex == n + 1
      requires TimesOf(due, sleepers + {thread}) && Ordered(tree, due)
      modifies this`sleepq, this`tree, this`sleepers, sleepers`left, sleepers`right
      modifies sleepers`heapIndex, thread`left, thread`right, thread`heapIndex
      ensures Shaped() && Complete(tree, n + 1) && Ordered(tree, due)
      ensures sleepers == old(sleepers) + {thread}
    {
      var _ := HeapInsert(thread, n, due);
      Finish(n + 1);
      HoleClosed(tree, due, n + 1);
    }

    /** `_st_add_sleep_q`. */
    method AddSleepQ(thread: Thread, timeout: nat)
      requires Valid() && thread !in sleepers
      modifies this`sleepq, this`sleepqSize, this`tree, this`sleepers, sleepers`left, sleepers`right
      modifies sleepers`heapIndex, thread`left, thread`right, thread`heapIndex, thread`due, thread`onSleepq
      ensures Valid() && sleepers == old(sleepers) + {thread} && sleepqSize == old(sleepqSize) + 1
      ensures thread.due == lastClock + timeout && thread.onSleepq
    {
      hide Ordered, Complete, Shaped;
      ghost var due := DueMap(sleepers)[thread := lastClock + timeout];
      Held();
      SameTimes(tree, DueMap(sleepers), due);
      thread.due := lastClock + timeout;
      thread.onSleepq := true;
      sleepqSize := sleepqSize + 1;
      thread.heapIndex := sleepqSize;
      AddNode(thread, sleepqSize - 1, due);
      Reordered(due);
    }

    /** A childless last node needs no links: the shape is whole. */
    lemma Finish(n: int)
      requires ShapedBut(n) && Complete(tree, n) && n >= 1
      ensures Shaped()
    {
      forall j
        ensures LinkedAt(j)
      {
        assert j == n || LinkedAt(j);
      }
    }

    /** `_st_del_sleep_q`. */
    method DelSleepQ(thread: Thread)
      requires Valid() && thread in sleepers
      modifies this`sleepq, this`sleepqSize, this`tree, this`sleepers
      modifies sleepers`left, sleepers`right, sleepers`heapIndex, thread`onSleepq
      ensures Valid() && sleepers == old(sleepers) - {thread} && sleepqSize == old(sleepqSize) - 1
      ensures !thread.onSleepq
    {
      hide Valid;
      HeapDelete(thread);
      thread.onSleepq := false;
    }

    /** The head of the sleep queue is a sleeper with the earliest due time. */
    lemma RootIsEarliest()
      requires Valid()
      ensures sleepq == null <==> sleepers == {}
      ensures sleepq != null ==> sleepq in sleepers && forall x :: x in sleepers ==> sleepq.due <= x.due
    {
      assert LinkedAt(1);
      forall x | x in sleepers
        ensures sleepq != null && sleepq.due <= x.due
      {
        RootIsMinimum(tree, DueMap(sleepers), sleepqSize, x.heapIndex);
      }
    }

    /** The thread at the root is due: it leaves the heap and joins the run queue. */
    method Expire(thread: Thread)
      requires Valid() && thread in sleepers
      modifies this`sleepq, this`sleepqSize, this`tree, this`sleepers, this`runq
      modifies sleepers`left, sleepers`right, sleepers`heapIndex
      modifies thread`onSleepq, thread`timedOut, thread`state
      ensures Valid() && sleepers == old(sleepers) - {thread} && sleepqSize == old(sleepqSize) - 1
      ensures runq == old(runq) + [thread] && thread.state == Runnable && !thread.onSleepq
      ensures thread.timedOut == (old(thread.timedOut) || old(thread.state) == CondWait)
    {
      hide Valid;
      DelSleepQ(thread);
      if thread.state == CondWait {
        thread.timedOut := true;
      }
      thread.state := Runnable;
      runq := runq + [thread];
    }

    /** One turn of the loop that checks the clock. */
    method Move(thread: Thread, ghost before: seq<Thread>, ghost moved: seq<Thread>, ghost due: map<Thread, nat>)
      returns (ghost moved': seq<Thread>)
      requires Valid() && thread in sleepers && runq == before + moved
      requires Ascending(moved, due) && thread in due && thread !in moved && forall y :: y in moved ==> due[y] <= due[thread]
      modifies this`sleepq, this`sleepqSize, this`tree, this`sleepers, this`runq
      modifies sleepers`left, sleepers`right, sleepers`heapIndex
      modifies thread`onSleepq, thread`timedOut, thread`state
      ensures Valid() && sleepers == old(sleepers) - {thread} && sleepqSize == old(sleepqSize) - 1
      ensures runq == before + moved' && moved' == moved + [thread] && Ascending(moved', due)
      ensures thread.state == Runnable && !thread.onSleepq
      ensures thread.timedOut == (old(thread.timedOut) || old(thread.state) == CondWait)
    {
      hide Valid;
      AscendingAppend(moved, due, thread);
      Expire(thread);
      moved' := moved + [thread];
    }

    /** The clock has made `x` runnable; a condition waiter is flagged as timed out. */
    twostate predicate Woken(x: Thread)
      reads x
    {
      && x.state == Runnable && !x.onSleepq
      && x.timedOut == (old(x.timedOut) || old(x.state) == CondWait)
    }

    /** `x` still sleeps as before. */
    twostate predicate Untouched(x: Thread)
      reads x
    {
      x.state == old(x.state) && x.onSleepq && x.timedOut == old(x.timedOut)
    }

    /** `_st_vp_check_clock`: exactly the sleepers that are due move, earliest first, to the
        end of the run queue. */
    method CheckClock(now: nat) returns (ghost moved: seq<Thread>)
      requires Valid() && forall x :: x in sleepers ==> x.onSleepq && !x.idleThread
      modifies this, sleepers`left, sleepers`right, sleepers`heapIndex
      modifies sleepers`onSleepq, sleepers`timedOut, sleepers`state
      ensures Valid() && lastClock == now && runq == old(runq) + moved
      ensures forall x :: x in moved <==> x in old(sleepers) && x.due <= now
      ensures sleepers == set x | x in old(sleepers) && x.due > now
      ensures Ascending(moved, old(DueMap(sleepers)))
      ensures forall x :: x in moved ==> Woken(x)
      ensures forall x :: x in sleepers ==> Untouched(x)
    {
      hide Valid, Ascending;
      ghost var due := DueMap(sleepers);
      lastClock := now;
      moved := [];
      ghost var latest: nat := 0;
      assert Ascending(moved, due) by {
        AscendingNil(due);
      }
      while sleepq != null
        invariant Valid() && lastClock == now && sleepers <= old(sleepers) && latest <= now
        invariant runq == old(runq) + moved && Ascending(moved, due)
        invariant forall x :: x in moved <==> x in old(sleepers) && x !in sleepers
        invariant forall x :: x in old(sleepers) ==>
                    if x in sleepers then latest <= x.due && !x.idleThread && Untouched(x) else x.due <= latest && Woken(x)
        decreases sleepqSize
      {
        RootIsEarliest();
        var thread: Thread := sleepq;
        assert thread.onSleepq && !thread.idleThread;
        if thread.due > now {
          break;
        }
        moved := Move(thread, old(runq), moved, due);
        latest := thread.due;
      }
      RootIsEarliest();
    }
  }
}
