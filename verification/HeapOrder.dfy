/** Order in a complete binary tree laid out by level: position 1 is the root, 2i and 2i+1
    are the children of i. Only the due times matter here, so nothing in this module
    touches a thread object. */
module HeapOrder {

  /** `m` gives the element at each position and `due` the time of each element. */
  ghost predicate Timed<T>(m: map<int, T>, due: map<T, nat>) {
    forall i :: i in m ==> m[i] in due
  }

  ghost predicate OrderedAt<T>(m: map<int, T>, due: map<T, nat>, i: int)
    requires Timed(m, due)
  {
    i in m && i / 2 in m ==> due[m[i / 2]] <= due[m[i]]
  }

  /** No position is due before its parent. */
  ghost predicate Ordered<T>(m: map<int, T>, due: map<T, nat>) {
    Timed(m, due) && forall i {:trigger OrderedAt(m, due, i)} :: OrderedAt(m, due, i)
  }

  /** Order everywhere except between position `hole` and its children, which are still no
      earlier than the parent of `hole`. */
  ghost predicate OrderedBut<T>(m: map<int, T>, due: map<T, nat>, hole: int) {
    && Timed(m, due)
    && (forall i {:trigger OrderedAt(m, due, i)} :: i / 2 != hole ==> OrderedAt(m, due, i))
    && (forall i :: i in m && i / 2 == hole && hole / 2 in m ==> due[m[hole / 2]] <= due[m[i]])
  }

  /** Positions 1 to n: all levels are full but the last, which is filled from the left. */
  ghost predicate Complete<T>(m: map<int, T>, n: int) {
    forall i :: i in m <==> 1 <= i <= n
  }

  /** Putting an earlier element at a position keeps the order. */
  lemma EarlierKeepsOrder<T>(m: map<int, T>, due: map<T, nat>, i: int, c: T)
    requires Ordered(m, due) && 1 <= i && i in m && m[i] in due && c in due && due[c] <= due[m[i]]
    requires i / 2 in m ==> m[i / 2] in due && due[m[i / 2]] <= due[c]
    ensures Ordered(m[i := c], due)
  {
    var m' := m[i := c];
    forall j
      ensures OrderedAt(m', due, j)
    {
      assert OrderedAt(m, due, j);
    }
  }

  /** The root is a minimum of all elements. */
  lemma {:induction false} RootIsMinimum<T>(m: map<int, T>, due: map<T, nat>, n: int, i: int)
    requires Complete(m, n) && Ordered(m, due) && i in m
    ensures due[m[1]] <= due[m[i]]
    decreases i
  {
    if i > 1 {
      RootIsMinimum(m, due, n, i / 2);
      assert OrderedAt(m, due, i);
    }
  }

  /** Putting any element no earlier than its parent keeps the order but for its children. */
  lemma PlacedOrderBut<T>(m: map<int, T>, due: map<T, nat>, n: int, i: int, c: T)
    requires Complete(m, n) && Ordered(m, due) && 1 <= i <= n + 1 && c in due
    requires i / 2 in m ==> due[m[i / 2]] <= due[c]
    ensures OrderedBut(m[i := c], due, i)
  {
    var m' := m[i := c];
    forall j | j / 2 != i
      ensures OrderedAt(m', due, j)
    {
      assert OrderedAt(m, due, j);
    }
    forall j | j in m' && j / 2 == i && i / 2 in m'
      ensures due[m'[i / 2]] <= due[m'[j]]
    {
      assert OrderedAt(m, due, j) && OrderedAt(m, due, i);
    }
  }

  /** Exchanging the elements at `i` and at its earlier child moves the disorder one level down. */
  lemma SwapDownOrder<T>(m: map<int, T>, due: map<T, nat>, i: int, y: int)
    requires OrderedBut(m, due, i) && 1 <= i && i in m && y in m && y / 2 == i && due[m[y]] <= due[m[i]]
    requires forall j :: j in m && j / 2 == i ==> due[m[y]] <= due[m[j]]
    ensures OrderedBut(m[i := m[y]][y := m[i]], due, y)
  {
    var m' := m[i := m[y]][y := m[i]];
    forall j | j / 2 != y
      ensures OrderedAt(m', due, j)
    {
      assert j / 2 == i || OrderedAt(m, due, j);
    }
    forall j | j in m' && j / 2 == y
      ensures due[m'[y / 2]] <= due[m'[j]]
    {
      assert OrderedAt(m, due, j);
    }
  }

  /** When the element at the hole is no later than its children, the order is whole again. */
  lemma HoleClosed<T>(m: map<int, T>, due: map<T, nat>, i: int)
    requires OrderedBut(m, due, i)
    requires forall j :: j in m && j / 2 == i && i in m ==> due[m[i]] <= due[m[j]]
    ensures Ordered(m, due)
  {
    forall j
      ensures OrderedAt(m, due, j)
    {
      assert j / 2 == i || OrderedAt(m, due, j);
    }
  }

  /** `s` lists distinct elements by nondecreasing time. */
  ghost predicate Ascending<T>(s: seq<T>, due: map<T, nat>) {
    && (forall x :: x in s ==> x in due)
    && forall i, j :: 0 <= i < j < |s| ==> s[i] != s[j] && due[s[i]] <= due[s[j]]
  }

  lemma AscendingNil<T>(due: map<T, nat>)
    ensures Ascending([], due)
  {
  }

  lemma AscendingAppend<T>(s: seq<T>, due: map<T, nat>, x: T)
    requires Ascending(s, due) && x in due && x !in s && forall y :: y in s ==> due[y] <= due[x]
    ensures Ascending(s + [x], due)
  {
  }

  /** The order depends only on the times of the elements present. */
  lemma SameTimes<T>(m: map<int, T>, due: map<T, nat>, due': map<T, nat>)
    requires Ordered(m, due)
    requires forall i :: i in m ==> m[i] in due' && due'[m[i]] == due[m[i]]
    ensures Ordered(m, due')
  {
    forall j
      ensures OrderedAt(m, due', j)
    {
      assert OrderedAt(m, due, j);
    }
  }

  /** Dropping the last position keeps the order. */
  lemma DropLast<T>(m: map<int, T>, due: map<T, nat>, n: int)
    requires Complete(m, n) && n >= 1 && Ordered(m, due)
    ensures Complete(m - {n}, n - 1) && Ordered(m - {n}, due)
  {
    var m' := m - {n};
    forall j
      ensures OrderedAt(m', due, j)
    {
      assert OrderedAt(m, due, j);
    }
  }
}
