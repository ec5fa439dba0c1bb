/**
 The eviction policy of cache/eviction.go: a binary heap ordered by access time, driven by the
 `Init` and `Pop` algorithms of Go's `container/heap`, and the candidate selection built on it.
 */
module LruHeap {
  import opened CacheTypes

  /** Node `p` is no newer than its children below `n`. */
  ghost predicate Ordered(s: seq<CacheMetadata>, n: nat, p: nat)
    requires n <= |s|
  {
    && (2 * p + 1 < n ==> s[p].accessedAt <= s[2 * p + 1].accessedAt)
    && (2 * p + 2 < n ==> s[p].accessedAt <= s[2 * p + 2].accessedAt)
  }

  /** Every node from `lo` on, other than `hole`, is ordered against its children. */
  ghost predicate HeapExcept(s: seq<CacheMetadata>, n: nat, lo: nat, hole: int)
    requires n <= |s|
  {
    forall p: nat :: lo <= p < n && p != hole ==> Ordered(s, n, p)
  }

  ghost predicate Heap(s: seq<CacheMetadata>) {
    HeapExcept(s, |s|, 0, -1)
  }

  lemma {:induction false} RootIsOldest(s: seq<CacheMetadata>, k: nat)
    requires Heap(s) && k < |s|
    ensures s[0].accessedAt <= s[k].accessedAt
    decreases k
  {
    if k > 0 {
      var p := (k - 1) / 2;
      assert Ordered(s, |s|, p);
      RootIsOldest(s, p);
    }
  }

  /**
   The sift-down invariant: only `i` may be out of order, and its parent `up` (when the walk has left `start`)
   already bounds the children of `i`.
   */
  ghost predicate Sifting(s: seq<CacheMetadata>, n: nat, start: nat, i: nat, up: nat)
    requires n <= |s|
  {
    && HeapExcept(s, n, start, i)
    && start <= i
    && (i != start ==>
          && start <= up && (i == 2 * up + 1 || i == 2 * up + 2)
          && (2 * i + 1 < n ==> s[up].accessedAt <= s[2 * i + 1].accessedAt)
          && (2 * i + 2 < n ==> s[up].accessedAt <= s[2 * i + 2].accessedAt))
  }

  /** Swapping `i` with its older child moves the one possible violation down to that child. */
  lemma SiftStep(s: seq<CacheMetadata>, n: nat, start: nat, i: nat, up: nat, child: nat)
    requires n <= |s| && Sifting(s, n, start, i, up)
    requires child < n && (child == 2 * i + 1 || child == 2 * i + 2)
    requires s[child].accessedAt < s[i].accessedAt
    requires forall c :: c == 2 * i + 1 || c == 2 * i + 2 ==> c < n ==> s[child].accessedAt <= s[c].accessedAt
    ensures Sifting(s[i := s[child]][child := s[i]], n, start, child, i)
  {
    var t := s[i := s[child]][child := s[i]];
    forall p: nat | start <= p < n && p != child
      ensures Ordered(t, n, p)
    {
      if p != i {
        assert Ordered(s, n, p);
        assert 2 * p + 1 != child && 2 * p + 2 != child;
        if 2 * p + 1 == i || 2 * p + 2 == i {
          assert i != start ==> p == up;
        }
      }
    }
    assert Ordered(s, n, child);
  }

  ghost function TotalSize(s: seq<CacheMetadata>): int {
    if s == [] then 0 else TotalSize(s[..|s| - 1]) + s[|s| - 1].size
  }

  function Keys(s: seq<CacheMetadata>): seq<string> {
    if s == [] then [] else Keys(s[..|s| - 1]) + [s[|s| - 1].key]
  }

  lemma {:induction false} KeyAt(s: seq<CacheMetadata>, i: nat)
    ensures |Keys(s)| == |s| && (i < |s| ==> Keys(s)[i] == s[i].key)
  {
    if s != [] {
      KeyAt(s[..|s| - 1], i);
    }
  }

  ghost predicate OldestFirst(s: seq<CacheMetadata>) {
    forall i, j :: 0 <= i < j < |s| ==> s[i].accessedAt <= s[j].accessedAt
  }

  /** Nothing left behind was used less recently than anything chosen. */
  ghost predicate LeastRecent(chosen: seq<CacheMetadata>, left: multiset<CacheMetadata>) {
    forall c, r :: c in chosen && r in left ==> c.accessedAt <= r.accessedAt
  }

  /** Dropping any non-empty tail of the choice frees too little. */
  ghost predicate NoLongerThanNeeded(chosen: seq<CacheMetadata>, required: int) {
    forall k {:trigger TotalSize(chosen[..k])} :: 0 <= k < |chosen| ==> TotalSize(chosen[..k]) < required
  }

  /** What the policy promises: a least-recently-used part of the items, oldest first, that is just large enough. */
  ghost predicate LruSelection(items: seq<CacheMetadata>, chosen: seq<CacheMetadata>, required: int) {
    && multiset(chosen) <= multiset(items)
    && OldestFirst(chosen)
    && LeastRecent(chosen, multiset(items) - multiset(chosen))
    && (TotalSize(chosen) >= required || multiset(chosen) == multiset(items))
    && NoLongerThanNeeded(chosen, required)
  }

  class MetadataHeap {
    var items: seq<CacheMetadata>

    constructor (items: seq<CacheMetadata>)
      ensures this.items == items
    {
      this.items := items;
    }

    predicate Less(i: nat, j: nat)
      requires i < |items| && j < |items|
      reads this
    {
      items[i].accessedAt < items[j].accessedAt
    }

    method Swap(i: nat, j: nat)
      requires i < |items| && j < |items|
      modifies this
      ensures items == old(items)[i := old(items)[j]][j := old(items)[i]]
    {
      items := items[i := items[j]][j := items[i]];
    }

    /** A swap among the first `n` elements permutes these and leaves the rest. */
    method SwapWithin(n: nat, i: nat, j: nat)
      requires i < n <= |items| && j < n
      modifies this
      ensures items == old(items)[i := old(items)[j]][j := old(items)[i]]
      ensures multiset(items[..n]) == multiset(old(items)[..n]) && items[n..] == old(items)[n..]
    {
      Swap(i, j);
      SwapKeepsElements(old(items), items, i, j, n);
    }

    /** Drops the last element, as the heap interface's own `Pop` does. */
    method DropLast() returns (item: CacheMetadata)
      requires items != []
      modifies this
      ensures item == old(items)[|old(items)| - 1]
      ensures items == old(items)[..|old(items)| - 1]
    {
      item := items[|items| - 1];
      items := items[..|items| - 1];
    }

    /** Sift-down within the first `n` elements: repairs the heap at `start`, keeps the elements and the rest. */
    method Down(start: nat, n: nat)
      requires start <= n <= |items|
      requires HeapExcept(items, n, start, start)
      modifies this
      ensures |items| == |old(items)|
      ensures HeapExcept(items, n, start, -1)
      ensures items[n..] == old(items)[n..]
      ensures multiset(items[..n]) == multiset(old(items)[..n])
    {
      var i := start;
      ghost var up: nat := 0;
      while true
        invariant |items| == |old(items)|
        invariant Sifting(items, n, start, i, up)
        invariant items[n..] == old(items)[n..]
        invariant multiset(items[..n]) == multiset(old(items)[..n])
        decreases n - i
      {
        var left := 2 * i + 1;
        if left >= n {
          break;
        }
        var child := left;
        if left + 1 < n && Less(left + 1, left) {
          child := left + 1;
        }
        if !Less(child, i) {
          break;
        }
        SiftStep(items, n, start, i, up, child);
        SwapWithin(n, i, child);
        i, up := child, i;
      }
      assert i < n ==> Ordered(items, n, i);
    }

    method Init()
      modifies this
      ensures Heap(items)
      ensures multiset(items) == multiset(old(items))
    {
      var n := |items|;
      var i := n / 2 - 1;
      while i >= 0
        invariant -1 <= i < n
        invariant |items| == n
        invariant HeapExcept(items, n, i + 1, -1)
        invariant multiset(items) == multiset(old(items))
      {
        ghost var before := items;
        Down(i, n);
        assert before[..n] == before && items[..n] == items;
        i := i - 1;
      }
    }

    method Pop() returns (item: CacheMetadata)
      requires items != [] && Heap(items)
      modifies this
      ensures |items| == |old(items)| - 1
      ensures Heap(items)
      ensures multiset(old(items)) == multiset(items) + multiset{item}
      ensures forall r :: r in items ==> item.accessedAt <= r.accessedAt
    {
      var n := |items| - 1;
      Swap(0, n);
      RootMovedOut(old(items), items);
      ghost var swapped := items;
      Down(0, n);
      ghost var sifted := items;
      assert sifted[n] == sifted[n..][0] == swapped[n..][0] == swapped[n];
      item := DropLast();
      assert forall p: nat :: 0 <= p < n ==> Ordered(sifted, n, p) ==> Ordered(items, n, p);
      RootIsMinimum(old(items), items, item);
    }
  }

  lemma SwapKeepsElements(s: seq<CacheMetadata>, t: seq<CacheMetadata>, i: nat, j: nat, n: nat)
    requires i < n <= |s| && j < n
    requires t == s[i := s[j]][j := s[i]]
    ensures multiset(t[..n]) == multiset(s[..n])
    ensures t[n..] == s[n..]
  {
    assert t[..n] == s[..n][i := s[j]][j := s[i]];
  }

  /** After the root and the last element trade places, everything but the root is still a heap below the last slot. */
  lemma RootMovedOut(s: seq<CacheMetadata>, t: seq<CacheMetadata>)
    requires s != [] && Heap(s)
    requires t == s[0 := s[|s| - 1]][|s| - 1 := s[0]]
    ensures HeapExcept(t, |t| - 1, 0, 0)
    ensures t[|t| - 1] == s[0]
    ensures multiset(s) == multiset(t[..|t| - 1]) + multiset{s[0]}
  {
    var n := |s| - 1;
    SwapKeepsElements(s, t, 0, n, |s|);
    assert s[..|s|] == s && t[..|s|] == t == t[..n] + [s[0]];
    forall p: nat | 0 < p < n
      ensures Ordered(t, n, p)
    {
      assert Ordered(s, |s|, p);
    }
  }

  lemma RootIsMinimum(s: seq<CacheMetadata>, rest: seq<CacheMetadata>, root: CacheMetadata)
    requires s != [] && Heap(s) && root == s[0]
    requires multiset(s) == multiset(rest) + multiset{root}
    ensures forall r :: r in rest ==> root.accessedAt <= r.accessedAt
  {
    forall r | r in rest
      ensures root.accessedAt <= r.accessedAt
    {
      assert r in multiset(s);
      var k :| 0 <= k < |s| && s[k] == r;
      RootIsOldest(s, k);
    }
  }

  /** Choosing one more element, no newer than everything left, keeps the choice ordered and least recent. */
  lemma ChooseOneMore(chosen: seq<CacheMetadata>, before: multiset<CacheMetadata>,
                      item: CacheMetadata, after: multiset<CacheMetadata>)
    requires before == after + multiset{item}
    requires OldestFirst(chosen) && LeastRecent(chosen, before)
    requires forall r :: r in after ==> item.accessedAt <= r.accessedAt
    ensures OldestFirst(chosen + [item]) && LeastRecent(chosen + [item], after)
  {
    assert item in before;
    forall c, r | c in chosen + [item] && r in after
      ensures c.accessedAt <= r.accessedAt
    {
      assert r in before;
      assert c in chosen || c == item;
    }
  }

  lemma LongerChoice(chosen: seq<CacheMetadata>, item: CacheMetadata, required: int)
    requires NoLongerThanNeeded(chosen, required) && TotalSize(chosen) < required
    ensures NoLongerThanNeeded(chosen + [item], required)
    ensures TotalSize(chosen + [item]) == TotalSize(chosen) + item.size
    ensures Keys(chosen + [item]) == Keys(chosen) + [item.key]
  {
    var longer := chosen + [item];
    assert longer[..|chosen|] == chosen;
    forall k | 0 <= k < |longer|
      ensures TotalSize(longer[..k]) < required
    {
      assert longer[..k] == chosen[..k];
      assert k == |chosen| ==> chosen[..k] == chosen;
    }
  }

  /** Halfway through: what is left and what is chosen make up the items, and the choice is as promised so far. */
  ghost predicate Selecting(items: multiset<CacheMetadata>, left: multiset<CacheMetadata>, chosen: seq<CacheMetadata>,
                            required: int)
  {
    items == left + multiset(chosen) && OldestFirst(chosen) && LeastRecent(chosen, left) && NoLongerThanNeeded(chosen, required)
  }

  lemma NothingSelected(items: multiset<CacheMetadata>, left: multiset<CacheMetadata>, required: int)
    requires items == left
    ensures Selecting(items, left, [], required)
  {
  }

  lemma SelectOneMore(items: multiset<CacheMetadata>, left: multiset<CacheMetadata>, chosen: seq<CacheMetadata>,
                      after: multiset<CacheMetadata>, item: CacheMetadata, required: int)
    requires Selecting(items, left, chosen, required) && TotalSize(chosen) < required && left == after + multiset{item}
    requires forall r :: r in after ==> item.accessedAt <= r.accessedAt
    ensures Selecting(items, after, chosen + [item], required)
    ensures TotalSize(chosen + [item]) == TotalSize(chosen) + item.size
    ensures Keys(chosen + [item]) == Keys(chosen) + [item.key]
  {
    ChooseOneMore(chosen, left, item, after);
    LongerChoice(chosen, item, required);
    MovedToChoice(items, left, chosen, after, item);
  }

  lemma MovedToChoice(items: multiset<CacheMetadata>, left: multiset<CacheMetadata>, chosen: seq<CacheMetadata>,
                      after: multiset<CacheMetadata>, item: CacheMetadata)
    requires items == left + multiset(chosen) && left == after + multiset{item}
    ensures items == after + multiset(chosen + [item])
  {
    assert multiset(chosen + [item]) == multiset(chosen) + multiset{item};
  }

  method TakeOldest(h: MetadataHeap, ghost items: multiset<CacheMetadata>, ghost chosen: seq<CacheMetadata>, ghost required: int)
    returns (item: CacheMetadata)
    requires h.items != [] && Heap(h.items)
    requires Selecting(items, multiset(h.items), chosen, required) && TotalSize(chosen) < required
    modifies h
    ensures Heap(h.items) && |h.items| == |old(h.items)| - 1
    ensures Selecting(items, multiset(h.items), chosen + [item], required)
    ensures TotalSize(chosen + [item]) == TotalSize(chosen) + item.size
    ensures Keys(chosen + [item]) == Keys(chosen) + [item.key]
  {
    ghost var left := multiset(h.items);
    item := h.Pop();
    SelectOneMore(items, left, chosen, multiset(h.items), item, required);
  }

  /** What the selection loop keeps: a heap of what is left, and running totals of what is chosen. */
  ghost predicate Progress(items: seq<CacheMetadata>, left: seq<CacheMetadata>, chosen: seq<CacheMetadata>,
                           candidates: seq<string>, freed: int, required: int)
  {
    && Heap(left) && Selecting(multiset(items), multiset(left), chosen, required)
    && candidates == Keys(chosen) && freed == TotalSize(chosen)
  }

  /** The selection loop of the policy. The ghost result is the choice whose keys are returned. */
  method SelectEvictionCandidates(items: seq<CacheMetadata>, requiredSpace: int)
    returns (candidates: seq<string>, ghost chosen: seq<CacheMetadata>)
    ensures candidates == Keys(chosen)
    ensures LruSelection(items, chosen, requiredSpace)
  {
    var h := new MetadataHeap(items);
    h.Init();
    candidates, chosen := [], [];
    NothingSelected(multiset(items), multiset(h.items), requiredSpace);
    var freed := 0;
    while |h.items| > 0 && freed < requiredSpace
      invariant Progress(items, h.items, chosen, candidates, freed, requiredSpace)
      decreases |h.items|
    {
      var item := TakeOldest(h, multiset(items), chosen, requiredSpace);
      chosen := chosen + [item];
      candidates := candidates + [item.key];
      freed := freed + item.size;
    }
    SelectionDone(items, multiset(h.items), chosen, requiredSpace);
  }

  lemma SelectionDone(items: seq<CacheMetadata>, left: multiset<CacheMetadata>, chosen: seq<CacheMetadata>, required: int)
    requires Selecting(multiset(items), left, chosen, required)
    requires left == multiset{} || TotalSize(chosen) >= required
    ensures LruSelection(items, chosen, required)
  {
    assert multiset(items) - multiset(chosen) == left;
  }
}
