/** The binary heap of (expiry, key) pairs behind the local rate limiter's purge loop.
    Python keeps the heap in a list; here the list is a sequence that each operation replaces. */
module ExpiryHeap {
  import opened Common

  datatype Item = Item(expiry: real, key: string)

  /** Tuples compare by expiry first and by key second. */
  predicate Less(a: Item, b: Item)
  {
    a.expiry < b.expiry || (a.expiry == b.expiry && StrLess(a.key, b.key))
  }

  predicate AtMost(a: Item, b: Item) { !Less(b, a) }

  lemma AtMostReflexive(a: Item)
    ensures AtMost(a, a)
  {
    StrLessIrreflexive(a.key);
  }

  lemma AtMostTransitive(a: Item, b: Item, c: Item)
    requires AtMost(a, b) && AtMost(b, c)
    ensures AtMost(a, c)
  {
    if Less(c, a) {
      StrLessTotal(a.key, b.key);
      StrLessTotal(b.key, c.key);
      StrLessTotal(a.key, c.key);
      if a.expiry == b.expiry == c.expiry {
        if StrLess(a.key, b.key) { StrLessTransitive(c.key, a.key, b.key); }
      }
    }
  }

  lemma LessIsAtMost(a: Item, b: Item)
    requires Less(a, b)
    ensures AtMost(a, b)
  {
    if Less(b, a) {
      StrLessTransitive(a.key, b.key, a.key);
      StrLessIrreflexive(a.key);
    }
  }

  function Parent(i: nat): nat
    requires i > 0
  {
    (i - 1) / 2
  }

  ghost predicate IsHeap(h: seq<Item>)
  {
    forall i :: 0 < i < |h| ==> AtMost(h[Parent(i)], h[i])
  }

  /** Heap order everywhere except on the edge from `hole` up to its parent; the children of
      `hole` are already above its parent. */
  ghost predicate HeapAbove(h: seq<Item>, hole: nat)
  {
    && (forall i :: 0 < i < |h| && i != hole ==> AtMost(h[Parent(i)], h[i]))
    && (forall i :: 0 < i < |h| && 0 < Parent(i) == hole ==> AtMost(h[Parent(Parent(i))], h[i]))
  }

  /** Heap order with the item at `hole` left out: only the edges that miss it, and the bridge
      over it from its parent to its children. */
  ghost predicate Detached(h: seq<Item>, hole: nat)
  {
    && (forall i :: 0 < i < |h| && i != hole && Parent(i) != hole ==> AtMost(h[Parent(i)], h[i]))
    && (forall i :: 0 < i < |h| && 0 < Parent(i) == hole ==> AtMost(h[Parent(Parent(i))], h[i]))
  }

  lemma {:induction false} RootIsLeast(h: seq<Item>, i: nat)
    requires IsHeap(h) && i < |h|
    ensures AtMost(h[0], h[i])
  {
    if i == 0 {
      AtMostReflexive(h[0]);
    } else {
      RootIsLeast(h, Parent(i));
      AtMostTransitive(h[0], h[Parent(i)], h[i]);
    }
  }

  lemma SwapKeepsItems(h: seq<Item>, i: nat, j: nat)
    requires i < |h| && j < |h|
    ensures multiset(h[i := h[j]][j := h[i]]) == multiset(h)
  {
  }

  /** One step of the climb: the parent is larger, so the two trade places. */
  lemma ClimbStep(h: seq<Item>, pos: nat, up: seq<Item>)
    requires 0 < pos < |h| && HeapAbove(h, pos)
    requires Less(h[pos], h[Parent(pos)])
    requires up == h[pos := h[Parent(pos)]][Parent(pos) := h[pos]]
    ensures HeapAbove(up, Parent(pos))
  {
    var q := Parent(pos);
    LessIsAtMost(h[pos], h[q]);
    forall i | 0 < i < |up| && i != q
      ensures AtMost(up[Parent(i)], up[i])
    {
      if i != pos && Parent(i) == q {
        AtMostTransitive(h[pos], h[q], h[i]);
      }
    }
    forall i | 0 < i < |up| && 0 < Parent(i) == q
      ensures AtMost(up[Parent(Parent(i))], up[i])
    {
      if i != pos {
        AtMostTransitive(h[Parent(q)], h[q], h[i]);
      }
    }
  }

  /** heapq._siftdown(heap, 0, pos): carry the item at `pos` towards the root. */
  method Climb(h: seq<Item>, start: nat) returns (r: seq<Item>)
    requires start < |h| && HeapAbove(h, start)
    ensures IsHeap(r) && multiset(r) == multiset(h) && |r| == |h|
  {
    r := h;
    var pos: nat := start;
    while pos > 0
      invariant pos < |r| && |r| == |h| && HeapAbove(r, pos) && multiset(r) == multiset(h)
      decreases pos
    {
      var parent := Parent(pos);
      if !Less(r[pos], r[parent]) { break; }
      var next := r[pos := r[parent]][parent := r[pos]];
      ClimbStep(r, pos, next);
      SwapKeepsItems(r, pos, parent);
      r := next;
      pos := parent;
    }
  }

  /** One step of the descent: the smaller child moves up, whatever the sinking item is. */
  lemma DescendStep(h: seq<Item>, pos: nat, child: nat, down: seq<Item>)
    requires pos < child < |h| && Parent(child) == pos && Detached(h, pos)
    requires forall i :: 0 < i < |h| && Parent(i) == pos ==> AtMost(h[child], h[i])
    requires down == h[pos := h[child]][child := h[pos]]
    ensures Detached(down, child)
  {
    forall i | 0 < i < |down| && 0 < Parent(i) == child
      ensures AtMost(down[Parent(Parent(i))], down[i])
    {
      assert AtMost(h[Parent(i)], h[i]);
    }
  }

  /** heapq._siftup(heap, 0): sink the root's item to a leaf along the smaller children, then
      let it climb to its place. */
  method Sink(h: seq<Item>) returns (r: seq<Item>)
    requires |h| > 0 && Detached(h, 0)
    ensures IsHeap(r) && multiset(r) == multiset(h) && |r| == |h|
  {
    r := h;
    var pos := 0;
    var child := 1;
    while child < |r|
      invariant pos < |r| && |r| == |h| && child == 2 * pos + 1
      invariant Detached(r, pos) && multiset(r) == multiset(h)
      decreases |r| - pos
    {
      var right := child + 1;
      AtMostReflexive(r[child]);
      if right < |r| {
        AtMostReflexive(r[right]);
        if Less(r[child], r[right]) {
          LessIsAtMost(r[child], r[right]);
        } else {
          child := right;
        }
      }
      var next := r[pos := r[child]][child := r[pos]];
      DescendStep(r, pos, child, next);
      SwapKeepsItems(r, pos, child);
      r := next;
      pos := child;
      child := 2 * pos + 1;
    }
    r := Climb(r, pos);
  }

  method Push(h: seq<Item>, x: Item) returns (r: seq<Item>)
    requires IsHeap(h)
    ensures IsHeap(r) && multiset(r) == multiset(h) + multiset{x}
  {
    r := Climb(h + [x], |h|);
  }

  method Pop(h: seq<Item>) returns (least: Item, r: seq<Item>)
    requires IsHeap(h) && |h| > 0
    ensures least == h[0] && forall y :: y in h ==> AtMost(least, y)
    ensures IsHeap(r) && multiset(r) == multiset(h) - multiset{least} && |r| == |h| - 1
  {
    forall y | y in h
      ensures AtMost(h[0], y)
    {
      var i :| 0 <= i < |h| && h[i] == y;
      RootIsLeast(h, i);
    }
    var last := h[|h| - 1];
    r := h[..|h| - 1];
    assert h == r + [last];
    least := last;
    if |r| > 0 {
      least := r[0];
      DropRoot(r, last);
      assert Detached(r[0 := last], 0);
      r := Sink(r[0 := last]);
    }
  }

  lemma DropRoot(h: seq<Item>, last: Item)
    requires |h| > 0
    ensures multiset(h[0 := last]) == multiset(h + [last]) - multiset{h[0]}
  {
    assert h == [h[0]] + h[1..];
    assert h[0 := last] == [last] + h[1..];
  }
}
