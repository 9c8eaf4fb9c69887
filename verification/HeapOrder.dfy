/**
 Binary min-heap order over a sequence of priorities, and what one exchange of container/heap's up and
 down does to it. The predicates name the intermediate states of those loops: a heap in which one slot
 may be out of order.
 */
module HeapOrder {
  function Parent(i: int): int {
    (i - 1) / 2
  }

  function Swapped<T>(s: seq<T>, i: int, j: int): (r: seq<T>)
    requires 0 <= i < |s| && 0 <= j < |s|
  {
    s[i := s[j]][j := s[i]]
  }

  /** Parent and child are in order at slot c. */
  predicate InOrder(t: seq<int>, c: int)
    requires 1 <= c < |t|
  {
    t[Parent(c)] <= t[c]
  }

  /** The first n slots form a min-heap. */
  ghost predicate Heap(t: seq<int>, n: nat)
    requires n <= |t|
  {
    forall c :: 1 <= c < n ==> InOrder(t, c)
  }

  /** The children of slot k are no smaller than the parent of k. */
  ghost predicate BridgesOver(t: seq<int>, n: nat, k: int)
    requires 0 <= k < n <= |t|
  {
    k >= 1 ==> forall c :: 1 <= c < n && Parent(c) == k ==> t[Parent(k)] <= t[c]
  }

  /** A heap but for slot k, which may be out of order with its parent and with its children. */
  ghost predicate HeapAround(t: seq<int>, n: nat, k: int)
    requires 0 <= k < n <= |t|
  {
    BridgesOver(t, n, k) && forall c :: 1 <= c < n && c != k && Parent(c) != k ==> InOrder(t, c)
  }

  /** A heap but for slot k and its parent: the state of up. */
  ghost predicate HeapBelow(t: seq<int>, n: nat, k: int)
    requires 0 <= k < n <= |t|
  {
    BridgesOver(t, n, k) && forall c :: 1 <= c < n && c != k ==> InOrder(t, c)
  }

  /** A heap but for slot k and its children: the state of down once it has moved. */
  ghost predicate HeapAbove(t: seq<int>, n: nat, k: int)
    requires 0 <= k < n <= |t|
  {
    BridgesOver(t, n, k) && forall c :: 1 <= c < n && Parent(c) != k ==> InOrder(t, c)
  }

  lemma ChildrenOf(i: int, c: int)
    requires 0 <= i && 1 <= c
    ensures Parent(c) == i <==> c == 2 * i + 1 || c == 2 * i + 2
  {
  }

  lemma HeapWhenSettled(t: seq<int>, n: nat, k: int)
    requires 0 <= k < n <= |t| && HeapBelow(t, n, k)
    requires k == 0 || t[Parent(k)] <= t[k]
    ensures Heap(t, n)
  {
  }

  /** Replacing one priority of a heap, or moving its last one into slot i, leaves it a heap around i. */
  lemma HeapAroundReplaced(t: seq<int>, u: seq<int>, n: nat, i: int)
    requires 0 <= i < n <= |t| && n <= |u| && Heap(t, n)
    requires forall c :: 0 <= c < n && c != i ==> u[c] == t[c]
    ensures HeapAround(u, n, i)
  {
    forall c | 1 <= c < n && c != i && Parent(c) != i
      ensures InOrder(u, c)
    {
      assert InOrder(t, c);
    }
    forall c | 1 <= c < n && Parent(c) == i
      ensures i >= 1 ==> u[Parent(i)] <= u[c]
    {
      assert InOrder(t, c);
      assert i >= 1 ==> InOrder(t, i);
    }
  }

  lemma HeapPrefix(t: seq<int>, m: nat, n: nat)
    requires m <= n <= |t| && Heap(t, n)
    ensures Heap(t, m)
  {
  }

  /** A priority appended to a heap can only be out of order with its parent. */
  lemma HeapBelowAppended(t: seq<int>, x: int)
    requires Heap(t, |t|)
    ensures HeapBelow(t + [x], |t| + 1, |t|)
  {
    forall c | 1 <= c < |t|
      ensures InOrder(t + [x], c)
    {
      assert InOrder(t, c);
    }
  }

  lemma HeapDropLast(t: seq<int>, n: nat)
    requires n <= |t| && Heap(t, n)
    ensures Heap(t[..n], n)
  {
    forall c | 1 <= c < n
      ensures InOrder(t[..n], c)
    {
      assert InOrder(t, c);
    }
  }

  lemma SwapWithParent(t: seq<int>, n: nat, j: int)
    requires 1 <= j < n <= |t| && HeapBelow(t, n, j) && t[j] < t[Parent(j)]
    ensures HeapBelow(Swapped(t, Parent(j), j), n, Parent(j))
  {
    var i := Parent(j);
    assert i >= 1 ==> InOrder(t, i);
    forall c | 1 <= c < n && c != i
      ensures InOrder(Swapped(t, i, j), c)
    {
      assert c != j ==> InOrder(t, c);
    }
    forall c | 1 <= c < n && Parent(c) == i
      ensures i >= 1 ==> Swapped(t, i, j)[Parent(i)] <= Swapped(t, i, j)[c]
    {
      assert c != j ==> InOrder(t, c);
    }
  }

  lemma SwapWithLeastChild(t: seq<int>, n: nat, i: int, j: int)
    requires 0 <= i < n <= |t| && HeapAround(t, n, i)
    requires 1 <= j < n && Parent(j) == i && t[j] < t[i]
    requires forall c :: 1 <= c < n && Parent(c) == i ==> t[j] <= t[c]
    ensures HeapAbove(Swapped(t, i, j), n, j)
  {
    var u := Swapped(t, i, j);
    forall c | 1 <= c < n && Parent(c) != j
      ensures InOrder(u, c)
    {
      assert c != i && Parent(c) != i ==> InOrder(t, c);
    }
    forall c | 1 <= c < n && Parent(c) == j
      ensures u[Parent(j)] <= u[c]
    {
      assert InOrder(t, c);
    }
  }

  lemma AboveIsAround(t: seq<int>, n: nat, k: int)
    requires 0 <= k < n <= |t| && HeapAbove(t, n, k)
    ensures HeapAround(t, n, k)
  {
  }

  /** Down stops where no child is smaller. */
  lemma DownSettles(t: seq<int>, n: nat, i: int)
    requires 0 <= i < n <= |t| && HeapAround(t, n, i)
    requires forall c :: 1 <= c < n && Parent(c) == i ==> t[i] <= t[c]
    ensures HeapBelow(t, n, i)
    ensures HeapAbove(t, n, i) ==> Heap(t, n)
  {
  }

  /** The root of a heap is its least priority. */
  lemma {:induction false} RootIsLeast(t: seq<int>, i: int)
    requires Heap(t, |t|) && 0 <= i < |t|
    ensures t[0] <= t[i]
    decreases i
  {
    if i > 0 {
      assert InOrder(t, i);
      RootIsLeast(t, Parent(i));
    }
  }
}
