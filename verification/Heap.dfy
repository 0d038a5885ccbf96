/** The FinSH heap (finsh_heap.c) as it runs: two lists threaded through headers that lie in the
    heap itself, between the payloads. */
module Heap {
  import opened Machine
  import opened Limits
  import opened HeapSpec

  /** What collection looks at in a `finsh_var`: whether it has a type, and its value as a pointer. */
  datatype Variable = Variable(typed: bool, ptr: int)

  function First(xs: seq<nat>, tail: int): int {
    if xs == [] then tail else xs[0]
  }

  /** The `next` words of the headers at `xs` link them into a list from `head` on to `tail`. */
  ghost predicate Linked(h: seq<int>, head: int, xs: seq<nat>, tail: int)
    decreases |xs|
  {
    if xs == [] then head == tail
    else head == xs[0] && xs[0] + 1 < |h| && Linked(h, h[xs[0] + 1], xs[1..], tail)
  }

  ghost predicate Chain(h: seq<int>, head: int, xs: seq<nat>) {
    Linked(h, head, xs, NULL)
  }

  lemma {:induction false} LinkedSplit(h: seq<int>, head: int, xs: seq<nat>, ys: seq<nat>, tail: int)
    requires Linked(h, head, xs + ys, tail)
    ensures Linked(h, head, xs, First(ys, tail)) && Linked(h, First(ys, tail), ys, tail)
    decreases |xs|
  {
    if xs == [] {
      assert xs + ys == ys;
    } else {
      assert (xs + ys)[1..] == xs[1..] + ys;
      LinkedSplit(h, h[xs[0] + 1], xs[1..], ys, tail);
    }
  }

  lemma {:induction false} LinkedJoin(h: seq<int>, head: int, xs: seq<nat>, mid: int, ys: seq<nat>, tail: int)
    requires Linked(h, head, xs, mid) && Linked(h, mid, ys, tail)
    ensures Linked(h, head, xs + ys, tail)
    decreases |xs|
  {
    if xs == [] {
      assert xs + ys == ys;
    } else {
      assert (xs + ys)[1..] == xs[1..] + ys;
      LinkedJoin(h, h[xs[0] + 1], xs[1..], mid, ys, tail);
    }
  }

  ghost predicate SameNext(h: seq<int>, h': seq<int>, x: nat) {
    x + 1 < |h| ==> x + 1 < |h'| && h[x + 1] == h'[x + 1]
  }

  lemma {:induction false} LinkedFrame(h: seq<int>, h': seq<int>, head: int, xs: seq<nat>, tail: int)
    requires Linked(h, head, xs, tail)
    requires forall i :: 0 <= i < |xs| ==> SameNext(h, h', xs[i])
    ensures Linked(h', head, xs, tail)
    decreases |xs|
  {
    if xs != [] {
      LinkedFrame(h, h', h[xs[0] + 1], xs[1..], tail);
    }
  }

  lemma LinkedAt(h: seq<int>, head: int, xs: seq<nat>, i: nat)
    requires Chain(h, head, xs) && i < |xs|
    ensures xs[i] + 1 < |h|
    ensures h[xs[i] + 1] == First(xs[i + 1..], NULL)
    ensures First(xs, NULL) == head
  {
    assert xs == xs[..i] + xs[i..];
    LinkedSplit(h, head, xs[..i], xs[i..], NULL);
    assert xs[i..][1..] == xs[i + 1..];
  }

  /** The `length` words of the headers. */
  ghost predicate Lengths(h: seq<int>, bs: seq<Block>) {
    forall b :: b in bs ==> b.start < |h| && h[b.start] == b.len
  }

  /** Two heaps that agree except in the `next` words of the given headers. */
  ghost predicate OnlyLinks(h: seq<int>, h': seq<int>, xs: seq<nat>) {
    && |h| == |h'|
    && forall a :: 0 <= a < |h| && a - 1 !in xs ==> h[a] == h'[a]
  }

  lemma LinkedOne(h: seq<int>, x: nat, tail: int)
    requires x + 1 < |h| && h[x + 1] == tail
    ensures Linked(h, x, [x], tail)
  {
  }

  lemma LinkedTail(h: seq<int>, head: int, xs: seq<nat>, tail: int)
    requires xs != [] && Linked(h, head, xs, tail)
    ensures xs[0] + 1 < |h| && Linked(h, h[xs[0] + 1], xs[1..], tail)
  {
  }

  /** Writing `header` into the `next` word in front of position `k`, and what followed into its own. */
  lemma ChainInsert(h: seq<int>, h': seq<int>, list: int, xs: seq<nat>, header: nat, k: nat)
    requires Chain(h, list, xs) && header + 1 < |h| == |h'|
    requires k <= |xs|
    requires h'[header + 1] == First(xs[k..], NULL)
    requires k > 0 ==> xs[k - 1] + 1 < |h| && h'[xs[k - 1] + 1] == header
    requires forall i :: 0 <= i < |xs| && i != k - 1 ==> SameNext(h, h', xs[i])
    ensures Chain(h', if k == 0 then header else list, xs[..k] + [header] + xs[k..])
  {
    assert xs == xs[..k] + xs[k..];
    LinkedOne(h', header, First(xs[k..], NULL));
    hide Linked;
    LinkedSplit(h, list, xs[..k], xs[k..], NULL);
    LinkedFrame(h, h', First(xs[k..], NULL), xs[k..], NULL);
    LinkedJoin(h', header, [header], First(xs[k..], NULL), xs[k..], NULL);
    if k > 0 {
      RelinkLast(h, h', list, xs[..k], First(xs[k..], NULL), header);
      LinkedJoin(h', list, xs[..k], header, [header] + xs[k..], NULL);
    } else {
      assert xs[..k] + ([header] + xs[k..]) == [header] + xs[k..];
    }
    assert xs[..k] + [header] + xs[k..] == xs[..k] + ([header] + xs[k..]);
  }

  /** A list whose last `next` word changes ends in the new tail. */
  lemma RelinkLast(h: seq<int>, h': seq<int>, list: int, xs: seq<nat>, tail: int, tail': int)
    requires xs != [] && Linked(h, list, xs, tail) && |h| == |h'|
    requires xs[|xs| - 1] + 1 < |h| && h'[xs[|xs| - 1] + 1] == tail'
    requires forall i :: 0 <= i < |xs| - 1 ==> SameNext(h, h', xs[i])
    ensures Linked(h', list, xs, tail')
  {
    var front, last := xs[..|xs| - 1], xs[|xs| - 1];
    assert xs == front + [last];
    LinkedSplit(h, list, front, [last], tail);
    LinkedFrame(h, h', list, front, last);
    LinkedJoin(h', list, front, last, [last], tail');
  }

  lemma ChainRemove(h: seq<int>, h': seq<int>, list: int, xs: seq<nat>, k: nat)
    requires Chain(h, list, xs) && |h| == |h'|
    requires k < |xs| && xs[k] + 1 < |h|
    requires k > 0 ==> xs[k - 1] + 1 < |h| && h'[xs[k - 1] + 1] == h[xs[k] + 1]
    requires forall i :: 0 <= i < |xs| && i != k - 1 && i != k ==> SameNext(h, h', xs[i])
    ensures Chain(h', if k == 0 then h[xs[k] + 1] else list, xs[..k] + xs[k + 1..])
  {
    assert xs == xs[..k] + xs[k..] && xs[k..][1..] == xs[k + 1..];
    hide Linked;
    LinkedSplit(h, list, xs[..k], xs[k..], NULL);
    LinkedTail(h, xs[k], xs[k..], NULL);
    LinkedFrame(h, h', h[xs[k] + 1], xs[k + 1..], NULL);
    if k > 0 {
      RelinkLast(h, h', list, xs[..k], xs[k], h[xs[k] + 1]);
      LinkedJoin(h', list, xs[..k], h[xs[k] + 1], xs[k + 1..], NULL);
    } else {
      assert xs[..k] + xs[k + 1..] == xs[k + 1..];
    }
  }

  /** What following the `next` word at position `j` leads to. */
  ghost predicate Reach(h: seq<int>, head: int, xs: seq<nat>, j: nat)
    requires j < |xs|
  {
    xs[j] + 1 < |h| && h[xs[j] + 1] == First(xs[j + 1..], NULL) && head == xs[0]
  }

  ghost predicate InsertPoint(xs: seq<nat>, k: nat, header: nat) {
    && k <= |xs|
    && (forall i :: 0 <= i < k ==> xs[i] < header)
    && (forall i :: k <= i < |xs| ==> header < xs[i])
  }

  class FinshHeap {
    const heap: array<int>
    const variables: array<Variable>
    var freeList: int
    var allocateList: int
    ghost var blocks: seq<Block>

    ghost predicate Valid()
      reads this, heap
    {
      && heap.Length == HEAP_UNITS
      && Inv(blocks, HEAP_UNITS)
      && Lengths(heap[..], blocks)
      && Chain(heap[..], freeList, Starts(blocks, true))
      && Chain(heap[..], allocateList, Starts(blocks, false))
    }

    /** `finsh_heap_init`. */
    constructor (variables: array<Variable>)
      requires variables.Length == VARIABLE_MAX
      ensures Valid() && blocks == InitBlocks() && fresh(heap) && this.variables == variables
    {
      heap := new int[HEAP_UNITS](_ => 0);
      this.variables := variables;
      freeList, allocateList := 0, NULL;
      blocks := InitBlocks();
      new;
      heap[0], heap[1] := HEAP_UNITS - HEADER, NULL;
      InitInv();
    }

    // ----- list operations -----

    /** `finsh_block_insert`: `k` headers of the list lie below the new one. A header that goes last
        must bring its own end of list: its `next` word is not written then. */
    method BlockInsert(list: int, header: nat, ghost xs: seq<nat>, ghost k: nat) returns (list': int)
      requires Chain(heap[..], list, xs) && Spaced(xs) && header + 1 < heap.Length
      requires InsertPoint(xs, k, header)
      requires k == |xs| ==> heap[header + 1] == NULL
      modifies heap
      ensures Chain(heap[..], list', xs[..k] + [header] + xs[k..])
      ensures OnlyLinks(old(heap[..]), heap[..], xs + [header])
    {
      ghost var h := heap[..];
      if list == NULL {
        ChainInsert(h, heap[..], list, xs, header, k);
        return header;
      }
      var node := list;
      if node > header {
        heap[header + 1] := node;
        ChainInsert(h, heap[..], list, xs, header, k);
        return header;
      }
      ghost var i := 0;
      assert forall j: nat :: j < |xs| ==> Reach(h, list, xs, j) by {
        forall j: nat | j < |xs| { LinkedAt(h, list, xs, j); }
      }
      while node != NULL
        invariant 0 <= i < k && node == xs[i] && heap[..] == h
        decreases k - i
      {
        assert Reach(h, list, xs, i);
        if heap[node + 1] > header {
          break;
        }
        if heap[node + 1] == NULL {
          break;
        }
        node := heap[node + 1];
        i := i + 1;
      }
      if heap[node + 1] != NULL {
        heap[header + 1] := heap[node + 1];
      }
      heap[node + 1] := header;
      ChainInsert(h, heap[..], list, xs, header, k);
      list' := list;
    }

    /** `finsh_block_remove`: only a first header has its own `next` word cleared. */
    method BlockRemove(list: int, header: nat, ghost xs: seq<nat>, ghost k: nat) returns (list': int)
      requires Chain(heap[..], list, xs) && Spaced(xs)
      requires k < |xs| && xs[k] == header
      modifies heap
      ensures Chain(heap[..], list', xs[..k] + xs[k + 1..])
      ensures OnlyLinks(old(heap[..]), heap[..], xs)
    {
      ghost var h := heap[..];
      var node := list;
      LinkedAt(h, list, xs, k);
      if k > 0 { LinkedAt(h, list, xs, k - 1); }
      hide Chain;
      if node == header {
        list' := heap[header + 1];
        heap[header + 1] := NULL;
        ChainRemove(h, heap[..], list, xs, k);
        return;
      }
      ghost var i := 0;
      LinkedAt(h, list, xs, 0);
      while node != NULL
        invariant 0 <= i < k && node == xs[i] && heap[..] == h
        decreases k - i
      {
        LinkedAt(h, list, xs, i);
        LinkedAt(h, list, xs, i + 1);
        if heap[node + 1] == header {
          heap[node + 1] := heap[header + 1];
          break;
        }
        node := heap[node + 1];
        i := i + 1;
      }
      ChainRemove(h, heap[..], list, xs, k);
      list' := list;
    }

    // ----- allocation -----

    ghost predicate Consistent(bs: seq<Block>, free: seq<nat>, live: seq<nat>)
      reads this, heap
    {
      && heap.Length == HEAP_UNITS
      && Lengths(heap[..], bs)
      && Chain(heap[..], freeList, free)
      && Chain(heap[..], allocateList, live)
    }

    /** `finsh_block_split` on block `k`: the remainder gets a header of its own. */
    method BlockSplit(header: nat, n: nat, ghost k: nat)
      requires Valid() && k < |blocks| && blocks[k].free && blocks[k].start == header && blocks[k].len >= n + HEADER
      modifies heap
      ensures Consistent(AllocAt(blocks, k, n), SplitStarts(blocks, k, n), Starts(blocks, false))
      ensures forall a :: 0 <= a < heap.Length && !(header <= a < blocks[k].End()) ==> heap[a] == old(heap[a])
    {
      ghost var h := heap[..];
      BlockInside(h, blocks, k);
      hide Chain, Lengths, Inv, Starts, AllocAt;
      var next := header + HEADER + n;
      heap[next] := heap[header] - HEADER - n;
      heap[header] := n;
      heap[next + 1] := heap[header + 1];
      heap[header + 1] := next;
      assert heap[..] == SplitHeap(h, header, n);
      SplitEffect(h, freeList, allocateList, blocks, k, n);
    }

    /** The rest of `finsh_heap_allocate`, once block `k` is found: split it, move its front from the
        free list to the allocated list and clear its payload. */
    method Take(header: nat, n: nat, ghost k: nat) returns (p: nat)
      requires Valid() && k < |blocks| && blocks[k].free && blocks[k].start == header && blocks[k].len >= n + HEADER
      modifies this`freeList, this`allocateList, this`blocks, heap
      ensures Valid() && blocks == AllocAt(old(blocks), k, n) && p == header + HEADER && p + n <= heap.Length
      ensures forall a :: p <= a < p + n ==> heap[a] == 0
      ensures KeepsPayloads(old(heap[..]), heap[..], Live(old(blocks)))
    {
      ghost var h, bs := heap[..], blocks;
      BlockInside(h, bs, k);
      AllocInv(bs, HEAP_UNITS, k, n);
      assert AllocAt(bs, k, n)[k] == Block(header, n, false) && k < |AllocAt(bs, k, n)|;
      hide Inv, Lengths, Chain, Starts, AllocAt, SplitStarts, Live, KeepsPayloads, OnlyLinks;
      BlockSplit(header, n, k);
      ghost var h1 := heap[..];
      Detach(header, n, bs, k);
      ghost var h2 := heap[..];
      Attach(header, n, bs, k);
      ghost var h3 := heap[..];
      blocks := AllocAt(bs, k, n);
      p := header + HEADER;
      Clear(p, n, k);
      TakeKeepsPayloads(h, h1, h2, h3, heap[..], bs, k, n);
    }

    /** Take the header out of the free list and end its `next` word. */
    method Detach(header: nat, n: nat, ghost bs: seq<Block>, ghost k: nat)
      requires Inv(bs, HEAP_UNITS) && k < |bs| && bs[k].free && bs[k].start == header && bs[k].len >= n + HEADER
      requires Consistent(AllocAt(bs, k, n), SplitStarts(bs, k, n), Starts(bs, false))
      modifies this`freeList, heap
      ensures Consistent(AllocAt(bs, k, n), Starts(AllocAt(bs, k, n), true), Starts(bs, false))
      ensures header + 1 < heap.Length && heap[header + 1] == NULL
      ensures OnlyLinks(old(heap[..]), heap[..], SplitStarts(bs, k, n))
    {
      DetachFacts(bs, k, n);
      AllocInv(bs, HEAP_UNITS, k, n);
      hide Inv, Chain, Starts, Spaced, AllocAt, Lengths, NoCommon, Headers, SplitStarts;
      ghost var links := SplitStarts(bs, k, n);
      ghost var h1 := heap[..];
      freeList := BlockRemove(freeList, header, links, |Starts(bs[..k], true)|);
      ghost var h2 := heap[..];
      heap[header + 1] := NULL;
      ghost var h3 := heap[..];
      KeepLengths(h1, h3, AllocAt(bs, k, n), links);
      KeepChain(h1, h3, allocateList, Starts(bs, false), links);
      KeepChain(h2, h3, freeList, Starts(AllocAt(bs, k, n), true), [header]);
    }

    /** Put the header into the allocated list. */
    method Attach(header: nat, n: nat, ghost bs: seq<Block>, ghost k: nat)
      requires Inv(bs, HEAP_UNITS) && k < |bs| && bs[k].free && bs[k].start == header && bs[k].len >= n + HEADER
      requires Consistent(AllocAt(bs, k, n), Starts(AllocAt(bs, k, n), true), Starts(bs, false))
      requires header + 1 < heap.Length && heap[header + 1] == NULL
      modifies this`allocateList, heap
      ensures Consistent(AllocAt(bs, k, n), Starts(AllocAt(bs, k, n), true), Starts(AllocAt(bs, k, n), false))
      ensures OnlyLinks(old(heap[..]), heap[..], Starts(bs, false) + [header])
    {
      AttachFacts(bs, k, n);
      AllocInv(bs, HEAP_UNITS, k, n);
      hide Inv, Chain, Starts, Spaced, AllocAt, Lengths, NoCommon, Headers, InsertPoint;
      ghost var others := Starts(bs, false);
      ghost var h1 := heap[..];
      allocateList := BlockInsert(allocateList, header, others, |Starts(bs[..k], false)|);
      KeepLengths(h1, heap[..], AllocAt(bs, k, n), others + [header]);
      KeepChain(h1, heap[..], freeList, Starts(AllocAt(bs, k, n), true), others + [header]);
    }

    /** `memset` on the payload of live block `k`. */
    method Clear(p: nat, n: nat, ghost k: nat)
      requires Valid() && p >= HEADER && k < |blocks| && blocks[k] == Block(p - HEADER, n, false)
      modifies heap
      ensures Valid() && p + n <= heap.Length
      ensures forall a :: p <= a < p + n ==> heap[a] == 0
      ensures OnlyPayload(old(heap[..]), heap[..], blocks[k])
    {
      ghost var h := heap[..];
      BlockInside(h, blocks, k);
      assert blocks[k] in blocks;
      hide Inv, Chain, Lengths;
      for i := 0 to n
        invariant forall a :: p <= a < p + i ==> heap[a] == 0
        invariant forall a :: 0 <= a < heap.Length && !(p <= a < p + i) ==> heap[a] == h[a]
      {
        heap[p + i] := 0;
      }
      KeepHeaders(h, heap[..], blocks, blocks[k], freeList, true);
      KeepHeaders(h, heap[..], blocks, blocks[k], allocateList, false);
    }

    /** The search loops of `finsh_heap_allocate`: the first free block of at least `m` units. */
    method FindFit(m: nat) returns (header: int, ghost k: nat)
      requires Valid()
      ensures k == FirstFit(blocks, m)
      ensures if header == NULL then k == |blocks| else k < |blocks| && header == blocks[k].start
    {
      ghost var h := heap[..];
      assert blocks[0..] == blocks;
      hide Chain, Starts, FirstFit, Inv, Lengths, Linked;
      header := freeList;
      k := SkipLive(blocks, 0, m);
      SearchAt(h, header, blocks, k);
      while header != NULL && heap[header] < m
        invariant k <= |blocks| && SearchFacts(h, header, blocks, k, m)
        invariant FirstFit(blocks, m) == k + FirstFit(blocks[k..], m)
        decreases |blocks| - k
      {
        var next := heap[header + 1];
        ghost var j := SkipLive(blocks, k + 1, m);
        SearchAt(h, next, blocks, j);
        header := next;
        k := j;
      }
      NothingFits(m);
      assert blocks[|blocks|..] == [];
    }

    // ----- release -----

    /** The header in front of `header` in its list, if any. */
    method FindPrevious(list: int, header: nat, ghost xs: seq<nat>, ghost i: nat) returns (prev_node: int)
      requires Chain(heap[..], list, xs) && i < |xs| && xs[i] == header && list == xs[0]
      requires forall j :: 0 <= j < i ==> xs[j] != header
      ensures prev_node == if i == 0 then NULL else xs[i - 1]
    {
      hide Chain;
      prev_node := NULL;
      if list != header {
        prev_node := list;
        ghost var j := 0;
        while prev_node != NULL
          invariant 0 <= j < i && prev_node == xs[j]
          decreases i - j
        {
          LinkedAt(heap[..], list, xs, j);
          if heap[prev_node + 1] == header {
            break;
          }
          prev_node := heap[prev_node + 1];
          j := j + 1;
        }
      }
    }

    /** `finsh_block_merge` on block `k`, which has just joined the free list. */
    method BlockMerge(list: int, header: nat, ghost bs: seq<Block>, ghost k: nat)
      requires Inv(bs, HEAP_UNITS) && k < |bs| && !bs[k].free && bs[k].start == header
      requires freeList == list
      requires var mid := bs[k := bs[k].(free := true)]; Consistent(mid, Starts(mid, true), Starts(mid, false))
      modifies heap
      ensures Consistent(FreeAt(bs, k), Starts(FreeAt(bs, k), true), Starts(FreeAt(bs, k), false))
      ensures heap[..] == MergeHeap(old(heap[..]), bs, k)
    {
      ghost var h := heap[..];
      ghost var f1 := Starts(bs[..k], true);
      MergeWalk(h, list, bs, k);
      MergeSeesAll(h, list, bs, k);
      hide Inv, Starts, Lengths, Chain, Linked, FreeAt;
      var next_node := heap[header + 1];
      var prev_node := FindPrevious(list, header, Starts(bs[k := bs[k].(free := true)], true), |f1|);
      MergeBothEnds(h, bs, k, prev_node, next_node);
      hide MergeSees, Merged, MergedBack, PrevFree, NextFree;
      MergeWords(header, prev_node, next_node);
      assert heap[..] == MergeHeap(h, bs, k);
      MergeEffect(h, freeList, allocateList, bs, k);
    }

    /** The tests and updates of the merge. */
    method MergeWords(header: nat, prev_node: int, next_node: int)
      requires header + 1 < heap.Length
      requires prev_node != NULL ==> 0 <= prev_node && prev_node + HEADER <= header
      requires next_node != NULL ==> header < next_node && next_node + 1 < heap.Length
      modifies heap
      ensures heap[..] == MergedWords(old(heap[..]), header, prev_node, next_node)
    {
      if prev_node != NULL && prev_node + heap[prev_node] + HEADER == header {
        if next_node != NULL && header + heap[header] + HEADER == next_node {
          heap[prev_node] := heap[prev_node] + heap[header] + heap[next_node] + 2 * HEADER;
          heap[prev_node + 1] := heap[next_node + 1];
        } else {
          heap[prev_node] := heap[prev_node] + heap[header] + HEADER;
          heap[prev_node + 1] := heap[header + 1];
        }
      } else if next_node != NULL && header + heap[header] + HEADER == next_node {
        heap[header] := heap[header] + heap[next_node] + HEADER;
        heap[header + 1] := heap[next_node + 1];
      }
    }

    /** `finsh_heap_free` of live block `k`. The header keeps its stale `next` word unless it was first
        in the allocated list; inserting it overwrites that word because the free list goes on behind it. */
    method Free(ptr: nat, ghost k: nat)
      requires Valid() && ptr >= HEADER && k < |blocks| && !blocks[k].free && blocks[k].Data() == ptr
      modifies this`freeList, this`allocateList, this`blocks, heap
      ensures Valid() && blocks == FreeAt(old(blocks), k)
      ensures KeepsPayloads(old(heap[..]), heap[..], Live(blocks))
    {
      ghost var h, bs := heap[..], blocks;
      FreeInv(bs, HEAP_UNITS, k);
      hide Inv, Starts, Chain, Lengths, FreeAt, Live, KeepsPayloads;
      var header := ptr - HEADER;
      Unlist(header, k);
      ghost var h1 := heap[..];
      Relist(header, bs, k);
      ghost var h2 := heap[..];
      BlockMerge(freeList, header, bs, k);
      blocks := FreeAt(bs, k);
      FreeKeepsPayloads(h, h1, h2, bs, k);
    }

    /** Take the header out of the allocated list. */
    method Unlist(header: nat, ghost k: nat)
      requires Valid() && k < |blocks| && !blocks[k].free && blocks[k].start == header
      modifies this`allocateList, heap
      ensures Consistent(blocks, Starts(blocks, true), Starts(blocks[k := blocks[k].(free := true)], false))
      ensures KeepsPayloads(old(heap[..]), heap[..], Live(blocks))
    {
      ghost var h := heap[..];
      ReleaseFacts(h, blocks, k);
      hide Inv, Starts, Chain, Lengths, Spaced, NoCommon, Headers, InsertPoint, Live, KeepsPayloads, OnlyLinks;
      allocateList := BlockRemove(allocateList, header, Starts(blocks, false), |Starts(blocks[..k], false)|);
      KeepLengths(h, heap[..], blocks, Starts(blocks, false));
      KeepChain(h, heap[..], freeList, Starts(blocks, true), Starts(blocks, false));
    }

    /** Put the header into the free list. */
    method Relist(header: nat, ghost bs: seq<Block>, ghost k: nat)
      requires Inv(bs, HEAP_UNITS) && k < |bs| && !bs[k].free && bs[k].start == header
      requires Consistent(bs, Starts(bs, true), Starts(bs[k := bs[k].(free := true)], false))
      modifies this`freeList, heap
      ensures var mid := bs[k := bs[k].(free := true)]; Consistent(mid, Starts(mid, true), Starts(mid, false))
      ensures KeepsPayloads(old(heap[..]), heap[..], Live(bs))
    {
      ghost var h := heap[..];
      ghost var mid := bs[k := bs[k].(free := true)];
      ReleaseFacts(h, bs, k);
      hide Inv, Starts, Chain, Lengths, Spaced, NoCommon, Headers, InsertPoint, Live, KeepsPayloads, OnlyLinks;
      freeList := BlockInsert(freeList, header, Starts(bs, true), |Starts(bs[..k], true)|);
      KeepLengths(h, heap[..], bs, Starts(bs, true) + [header]);
      KeepChain(h, heap[..], allocateList, Starts(mid, false), Starts(bs, true) + [header]);
      MidLengths(heap[..], bs, k);
    }

    // ----- collection -----

    /** The pointer values of the typed variables. */
    ghost function Held(): set<int>
      reads variables
    {
      set i | 0 <= i < variables.Length && variables[i].typed :: variables[i].ptr
    }

    /** The inner loop of `finsh_heap_gc`: no typed variable holds the address. */
    method IsUnused(ptr: int) returns (unused: bool)
      requires variables.Length == VARIABLE_MAX
      ensures unused <==> ptr !in Held()
    {
      var i := 0;
      while i < VARIABLE_MAX
        invariant 0 <= i <= VARIABLE_MAX
        invariant forall j :: 0 <= j < i ==> !(variables[j].typed && variables[j].ptr == ptr)
      {
        if variables[i].typed {
          if variables[i].ptr == ptr {
            break;
          }
        }
        i := i + 1;
      }
      unused := i == VARIABLE_MAX;
    }

    /** `finsh_heap_gc`: the walk reads the next link before it frees, so the lists may change under it. */
    method Collect()
      requires Valid() && variables.Length == VARIABLE_MAX
      modifies this`freeList, this`allocateList, this`blocks, heap
      ensures Valid() && blocks == Gc(old(blocks), Held())
      ensures KeepsPayloads(old(heap[..]), heap[..], Live(blocks))
    {
      ghost var h, held := heap[..], Held();
      assert KeepsPayloads(h, h, Live(blocks));
      ghost var kept: seq<nat>, rest: seq<nat> := [], Starts(blocks, false);
      LinkedHead(h, allocateList, rest, NULL);
      hide Chain, Lengths, Inv, Starts, Linked, Live, FreeAt, KeepsPayloads;
      var header := allocateList;
      while header != NULL
        invariant Valid() && Held() == held
        invariant header == First(rest, NULL) && Starts(blocks, false) == kept + rest
        invariant Sweep(blocks, rest, held) == Gc(old(blocks), held)
        invariant KeepsPayloads(h, heap[..], Live(blocks))
        decreases |rest|
      {
        ghost var k := SweepFacts(heap[..], allocateList, blocks, kept, rest);
        var unused := IsUnused(header + HEADER);
        var temp := header;
        header := heap[header + 1];
        if unused {
          FreeLive(blocks, HEAP_UNITS, k);
          ghost var h1, live := heap[..], Live(blocks);
          Free(temp + HEADER, k);
          KeptSince(h, h1, heap[..], live, Live(blocks));
        } else {
          kept := kept + [temp];
        }
        rest := rest[1..];
      }
    }

    // ----- finsh_heap_allocate -----

    /** The second attempt, after the first search found nothing. */
    method Retry(n: nat) returns (p: int)
      requires Valid() && variables.Length == VARIABLE_MAX && FirstFit(blocks, n + HEADER + 1) == |blocks|
      modifies this`freeList, this`allocateList, this`blocks, heap
      ensures Valid()
      ensures var r := Allocate(old(blocks), n, Held()); blocks == r.0 && p == if r.1.None? then NULL else r.1.value
      ensures p != NULL ==> 0 <= p && p + n <= heap.Length && forall a :: p <= a < p + n ==> heap[a] == 0
      ensures KeepsPayloads(old(heap[..]), heap[..], Kept(old(blocks), n, Held()))
    {
      ghost var h, bs, held := heap[..], blocks, Held();
      GcExact(bs, HEAP_UNITS, held);
      hide Inv, Chain, Lengths, Gc, Live, FirstFit, Starts, AllocAt, KeepsPayloads;
      Collect();
      ghost var h1 := heap[..];
      var header, k := FindFit(n + HEADER);
      if header == NULL {
        return NULL;
      }
      p := Take(header, n, k);
      KeepsBoth(h, h1, heap[..], Live(Gc(bs, held)));
    }

    /** Null stands for failure; the size is in bytes, up to where 32-bit sizes wrap around. */
    method Alloc(size: nat) returns (p: int)
      requires Valid() && variables.Length == VARIABLE_MAX && size <= SIZE_LIMIT
      modifies this`freeList, this`allocateList, this`blocks, heap
      ensures Valid()
      ensures var (bs, q) := Allocate(old(blocks), Units(size), Held());
        blocks == bs && p == if q.None? then NULL else q.value
      ensures p != NULL ==> 0 <= p && p + Units(size) <= heap.Length
      ensures p != NULL ==> forall a :: p <= a < p + Units(size) ==> heap[a] == 0
      ensures KeepsPayloads(old(heap[..]), heap[..], Kept(old(blocks), Units(size), Held()))
    {
      hide Inv, Chain, Lengths, Gc, Live, FirstFit, Starts, AllocAt, KeepsPayloads;
      var n := Units(size);
      var header, k := FindFit(n + HEADER + 1);
      if header == NULL {
        p := Retry(n);
      } else {
        p := Take(header, n, k);
      }
    }
  }

  /** One header takes over the lengths of its neighbours and the link of the last of them. */
  ghost function MergedWords(h: seq<int>, header: nat, prev: int, next: int): seq<int>
    requires header + 1 < |h|
    requires prev != NULL ==> 0 <= prev && prev + HEADER <= header
    requires next != NULL ==> header < next && next + 1 < |h|
  {
    var p := prev != NULL && prev + h[prev] + HEADER == header;
    var q := next != NULL && header + h[header] + HEADER == next;
    var m := if p then prev else header;
    h[m := (if p then h[prev] + HEADER else 0) + h[header] + (if q then HEADER + h[next] else 0)]
     [m + 1 := if q then h[next + 1] else h[header + 1]]
  }

  /** The two words written, read off the lists. */
  lemma MergeBothEnds(h: seq<int>, bs: seq<Block>, k: nat, prev: int, next: int)
    requires |h| == HEAP_UNITS && k < |bs| && !bs[k].free && MergeSees(h, bs, k)
    requires var f1, f2 := Starts(bs[..k], true), Starts(bs[k + 1..], true);
      prev == (if f1 == [] then NULL else f1[|f1| - 1]) && next == First(f2, NULL)
    ensures var header := bs[k].start;
      && header + 1 < |h| && (prev != NULL ==> 0 <= prev && prev + HEADER <= header)
      && header < next && next + 1 < |h|
      && MergedWords(h, header, prev, next) == MergeHeap(h, bs, k)
  {
    hide Starts;
    if PrevFree(bs, k) {
      assert bs[..k][|bs[..k]| - 1] == bs[k - 1];
    }
  }

  // ----- the lists around a merge -----

  ghost predicate PrevFree(bs: seq<Block>, k: nat)
    requires k < |bs|
  {
    k > 0 && bs[k - 1].free
  }

  ghost predicate NextFree(bs: seq<Block>, k: nat)
    requires k < |bs|
  {
    k + 1 < |bs| && bs[k + 1].free
  }

  /** The free list in front of, at and behind block `k` once it is merged, as header starts. */
  ghost function MergedFront(bs: seq<Block>, k: nat): seq<nat>
    requires k < |bs|
  {
    Starts(if PrevFree(bs, k) then bs[..k - 1] else bs[..k], true)
  }

  ghost function MergedBack(bs: seq<Block>, k: nat): seq<nat>
    requires k < |bs|
  {
    Starts(if NextFree(bs, k) then bs[k + 2..] else bs[k + 1..], true)
  }

  ghost function Merged(bs: seq<Block>, k: nat): Block
    requires k < |bs|
  {
    MergeBack(MergeFront(bs[..k], bs[k]), bs[k + 1..])
  }

  /** All that merging writes: the two words of one header. */
  ghost function MergeHeap(h: seq<int>, bs: seq<Block>, k: nat): seq<int>
    requires k < |bs|
  {
    var m := Merged(bs, k);
    if m.start + 1 < |h| then h[m.start := m.len][m.start + 1 := First(MergedBack(bs, k), NULL)] else h
  }

  function Opt(c: bool, x: nat): seq<nat> {
    if c then [x] else []
  }

  lemma FrontStarts(bs: seq<Block>, k: nat)
    requires k < |bs|
    ensures Starts(bs[..k], true) == MergedFront(bs, k) + Opt(PrevFree(bs, k), if k > 0 then bs[k - 1].start else 0)
    ensures PrevFree(bs, k) ==> Starts(bs[..k], false) == Starts(bs[..k - 1], false)
  {
    if PrevFree(bs, k) {
      assert bs[..k] == bs[..k - 1] + [bs[k - 1]];
      StartsAppend(bs[..k - 1], [bs[k - 1]], true);
      StartsAppend(bs[..k - 1], [bs[k - 1]], false);
    }
  }

  lemma BackStarts(bs: seq<Block>, k: nat)
    requires k < |bs|
    ensures Starts(bs[k + 1..], true)
         == Opt(NextFree(bs, k), if k + 1 < |bs| then bs[k + 1].start else 0) + MergedBack(bs, k)
    ensures NextFree(bs, k) ==> Starts(bs[k + 1..], false) == Starts(bs[k + 2..], false)
  {
    if NextFree(bs, k) {
      assert bs[k + 1..][1..] == bs[k + 2..];
    }
  }

  lemma MidStarts(bs: seq<Block>, k: nat, free: bool)
    requires k < |bs|
    ensures var mid := bs[k := bs[k].(free := true)];
      Starts(mid, free) == Starts(bs[..k], free) + (if free then [bs[k].start] else []) + Starts(bs[k + 1..], free)
  {
    var mid := bs[k := bs[k].(free := true)];
    StartsAt(mid, k, free);
    assert mid[..k] == bs[..k] && mid[k + 1..] == bs[k + 1..];
  }

  lemma FreeParts(bs: seq<Block>, k: nat)
    requires k < |bs|
    ensures FreeAt(bs, k)
         == (if PrevFree(bs, k) then bs[..k - 1] else bs[..k]) + [Merged(bs, k)]
          + (if NextFree(bs, k) then bs[k + 2..] else bs[k + 1..])
    ensures Merged(bs, k).free
  {
    var x, z := bs[..k], bs[k + 1..];
    if PrevFree(bs, k) { assert x[..|x| - 1] == bs[..k - 1]; }
    if NextFree(bs, k) { assert z[1..] == bs[k + 2..]; }
  }

  lemma FreeStarts(bs: seq<Block>, k: nat)
    requires k < |bs|
    ensures Starts(FreeAt(bs, k), true) == MergedFront(bs, k) + [Merged(bs, k).start] + MergedBack(bs, k)
    ensures Starts(FreeAt(bs, k), false) == Starts(bs[..k], false) + Starts(bs[k + 1..], false)
  {
    hide Starts, FreeAt, Merged;
    FreeParts(bs, k);
    var x := if PrevFree(bs, k) then bs[..k - 1] else bs[..k];
    var z := if NextFree(bs, k) then bs[k + 2..] else bs[k + 1..];
    var m := Merged(bs, k);
    StartsOne(m, true);
    StartsOne(m, false);
    StartsAppend(x + [m], z, true);
    StartsAppend(x, [m], true);
    StartsAppend(x + [m], z, false);
    StartsAppend(x, [m], false);
    FrontStarts(bs, k);
    BackStarts(bs, k);
  }

  lemma StartsOne(b: Block, free: bool)
    ensures Starts([b], free) == if b.free == free then [b.start] else []
  {
    assert Starts([b], free) == (if b.free == free then [b.start] else []) + Starts([], free);
  }

  /** What the adjacency tests of the merge see. */
  ghost predicate MergeSees(h: seq<int>, bs: seq<Block>, k: nat)
    requires k < |bs|
  {
    var s, f1, f2 := bs[k].start, Starts(bs[..k], true), Starts(bs[k + 1..], true);
    && s + 1 < |h| && h[s] == bs[k].len && h[s + 1] == First(f2, NULL)
    && (PrevFree(bs, k) ==> f1 != [])
    && (f1 != [] ==>
         var p := f1[|f1| - 1];
         && p + 1 < |h| && p + HEADER <= s
         && if PrevFree(bs, k) then p == bs[k - 1].start && h[p] == bs[k - 1].len && bs[k - 1].End() == s
            else p + h[p] + HEADER < s)
    && f2 != []
    && var q := f2[0];
       && q + 1 < |h|
       && if NextFree(bs, k) then
            && q == bs[k + 1].start == bs[k].End() && h[q] == bs[k + 1].len
            && h[q + 1] == First(MergedBack(bs, k), NULL)
          else q > bs[k].End()
  }

  lemma MergeWalk(h: seq<int>, list: int, bs: seq<Block>, k: nat)
    requires Inv(bs, HEAP_UNITS) && k < |bs|
    requires Chain(h, list, Starts(bs[k := bs[k].(free := true)], true))
    ensures var xs, i := Starts(bs[k := bs[k].(free := true)], true), |Starts(bs[..k], true)|;
      && i < |xs| && xs[i] == bs[k].start && xs[..i] == Starts(bs[..k], true)
      && (forall j :: 0 <= j < i ==> xs[j] != bs[k].start)
      && list == xs[0]
  {
    hide Starts, Inv, Linked;
    MidStarts(bs, k, true);
    AroundBlock(bs, HEAP_UNITS, k, true);
    var f1, f2 := Starts(bs[..k], true), Starts(bs[k + 1..], true);
    var xs := f1 + [bs[k].start] + f2;
    assert xs[..|f1|] == f1;
    LinkedHead(h, list, xs, NULL);
  }

  /** A free block in front of `k` is the last header of the free list in front of it, and touches
      it exactly when it is its neighbour; likewise behind it. */
  lemma MergeSeesAll(h: seq<int>, list: int, bs: seq<Block>, k: nat)
    requires |h| == HEAP_UNITS && Inv(bs, HEAP_UNITS) && k < |bs| && !bs[k].free
    requires var mid := bs[k := bs[k].(free := true)]; Lengths(h, mid) && Chain(h, list, Starts(mid, true))
    ensures MergeSees(h, bs, k)
  {
    SeesBack(h, list, bs, k);
    SeesFront(h, bs, k);
  }

  lemma SeesFront(h: seq<int>, bs: seq<Block>, k: nat)
    requires |h| == HEAP_UNITS && Inv(bs, HEAP_UNITS) && k < |bs| && !bs[k].free
    requires Lengths(h, bs[k := bs[k].(free := true)])
    ensures var s, f1 := bs[k].start, Starts(bs[..k], true);
      && (PrevFree(bs, k) ==> f1 != [])
      && (f1 != [] ==>
           var p := f1[|f1| - 1];
           && p + 1 < |h| && p + HEADER <= s
           && if PrevFree(bs, k) then p == bs[k - 1].start && h[p] == bs[k - 1].len && bs[k - 1].End() == s
              else p + h[p] + HEADER < s)
  {
    var mid := bs[k := bs[k].(free := true)];
    FrontStarts(bs, k);
    AroundBlock(bs, HEAP_UNITS, k, true);
    if PrevFree(bs, k) {
      hide Inv, Starts, Seg;
      assert mid[k - 1] == bs[k - 1] && mid[k - 1] in mid;
      BlocksApart(bs, HEAP_UNITS, bs[k - 1], bs[k - 1]);
      SegNext(bs, HEAP_UNITS, k - 1);
    } else if Starts(bs[..k], true) != [] {
      hide Inv, Seg;
      var i := LastFreeBlock(bs, k);
      hide Starts;
      assert mid[i] == bs[i] && mid[i] in mid;
      BlocksApart(bs, HEAP_UNITS, bs[i], bs[i]);
      SegAround(bs, HEAP_UNITS, k - 1);
      assert bs[..k - 1][i] == bs[i];
      SegNext(bs, HEAP_UNITS, k - 1);
    }
  }

  /** The block that ends the free list in front of `k`, when it is not the neighbour of `k`. */
  lemma LastFreeBlock(bs: seq<Block>, k: nat) returns (i: nat)
    requires Inv(bs, HEAP_UNITS) && k < |bs| && !PrevFree(bs, k) && Starts(bs[..k], true) != []
    ensures i < k - 1 && bs[i].free && bs[i].start == Starts(bs[..k], true)[|Starts(bs[..k], true)| - 1]
  {
    SegAround(bs, HEAP_UNITS, k);
    StartsSpaced(bs[..k], 0, bs[k].start, false, LastFree(bs[..k], false), true);
    var f1 := Starts(bs[..k], true);
    assert f1[|f1| - 1] in f1;
    var u :| u in bs[..k] && u.start == f1[|f1| - 1] && u.free == true;
    i :| 0 <= i < k && bs[i] == u;
  }

  lemma SegNext(bs: seq<Block>, top: nat, k: nat)
    requires Inv(bs, top) && k + 1 < |bs|
    ensures bs[k].End() == bs[k + 1].start
    ensures !(bs[k].free && bs[k + 1].free)
  {
    SegAround(bs, top, k);
    assert bs[k + 1..][0] == bs[k + 1];
  }

  lemma {:induction false} FreeBehind(bs: seq<Block>, a: nat, b: nat, p: bool)
    requires Seg(bs, a, b, p, true) && !p
    ensures Starts(bs, true) != [] && bs != []
    decreases |bs|
  {
    if !bs[0].free {
      FreeBehind(bs[1..], bs[0].End(), b, false);
    }
  }

  lemma SeesBack(h: seq<int>, list: int, bs: seq<Block>, k: nat)
    requires |h| == HEAP_UNITS && Inv(bs, HEAP_UNITS) && k < |bs| && !bs[k].free
    requires var mid := bs[k := bs[k].(free := true)]; Lengths(h, mid) && Chain(h, list, Starts(mid, true))
    ensures var s, f2 := bs[k].start, Starts(bs[k + 1..], true);
      && s + 1 < |h| && h[s] == bs[k].len && h[s + 1] == First(f2, NULL)
      && f2 != []
      && var q := f2[0];
         && q + 1 < |h|
         && if NextFree(bs, k) then
              && q == bs[k + 1].start == bs[k].End() && h[q] == bs[k + 1].len
              && h[q + 1] == First(MergedBack(bs, k), NULL)
            else q > bs[k].End()
  {
    var mid := bs[k := bs[k].(free := true)];
    var f1, f2 := Starts(bs[..k], true), Starts(bs[k + 1..], true);
    NotLast(bs, k);
    MidStarts(bs, k, true);
    assert mid[k] in mid;
    hide Starts, Inv, Seg, Linked;
    SegNext(bs, HEAP_UNITS, k);
    var xs := Starts(mid, true);
    assert xs[|f1| + 1..] == f2 && xs[|f1|] == bs[k].start && xs[|f1| + 1] == f2[0];
    LinkedAt(h, list, xs, |f1|);
    LinkedAt(h, list, xs, |f1| + 1);
    assert xs[|f1| + 2..] == f2[1..];
    if NextFree(bs, k) {
      assert mid[k + 1] == bs[k + 1] && mid[k + 1] in mid;
      BackStarts(bs, k);
    } else {
      AroundBlock(bs, HEAP_UNITS, k + 1, true);
      LiveFirst(bs, k + 1);
    }
  }

  lemma NotLast(bs: seq<Block>, k: nat)
    requires Inv(bs, HEAP_UNITS) && k < |bs| && !bs[k].free
    ensures k + 1 < |bs| && Starts(bs[k + 1..], true) != []
  {
    SegAround(bs, HEAP_UNITS, k);
    FreeBehind(bs[k + 1..], bs[k].End(), HEAP_UNITS, false);
  }

  lemma LiveFirst(bs: seq<Block>, k: nat)
    requires k < |bs| && !bs[k].free
    ensures Starts(bs[k..], true) == Starts(bs[k + 1..], true)
  {
    assert bs[k..][1..] == bs[k + 1..];
  }

  /** Rewriting the two words of the merged header makes lengths and lists those of the merged heap. */
  lemma MergeEffect(h: seq<int>, freeList: int, allocateList: int, bs: seq<Block>, k: nat)
    requires |h| == HEAP_UNITS && Inv(bs, HEAP_UNITS) && k < |bs| && !bs[k].free
    requires var mid := bs[k := bs[k].(free := true)];
      Lengths(h, mid) && Chain(h, freeList, Starts(mid, true)) && Chain(h, allocateList, Starts(mid, false))
    ensures var h', bs' := MergeHeap(h, bs, k), FreeAt(bs, k);
      && |h'| == |h| && Lengths(h', bs')
      && Chain(h', freeList, Starts(bs', true)) && Chain(h', allocateList, Starts(bs', false))
  {
    MergeLengths(h, bs, k);
    MergeFree(h, freeList, bs, k);
    MergeLive(h, allocateList, bs, k);
  }

  lemma MergeLive(h: seq<int>, list: int, bs: seq<Block>, k: nat)
    requires |h| == HEAP_UNITS && Inv(bs, HEAP_UNITS) && k < |bs| && !bs[k].free
    requires Chain(h, list, Starts(bs[k := bs[k].(free := true)], false))
    ensures Chain(MergeHeap(h, bs, k), list, Starts(FreeAt(bs, k), false))
  {
    var m, bs' := Merged(bs, k), FreeAt(bs, k);
    FreeInv(bs, HEAP_UNITS, k);
    FreeParts(bs, k);
    assert m in bs';
    hide Inv, Starts, Merged, FreeAt, Chain;
    MidStarts(bs, k, false);
    FreeStarts(bs, k);
    var ys := Starts(bs', false);
    assert Starts(bs[..k], false) + [] + Starts(bs[k + 1..], false) == ys;
    BlocksApart(bs', HEAP_UNITS, m, m);
    forall i | 0 <= i < |ys| ensures SameNext(h, MergeHeap(h, bs, k), ys[i]) {
      assert ys[i] in ys;
      LiveAway(bs', m, ys[i]);
    }
    ChainFrame(h, MergeHeap(h, bs, k), list, ys);
  }

  lemma LiveAway(bs: seq<Block>, m: Block, x: nat)
    requires Inv(bs, HEAP_UNITS) && m in bs && m.free && x in Starts(bs, false)
    ensures x + 1 < m.start || m.End() <= x
  {
    StartsSpaced(bs, 0, HEAP_UNITS, false, true, false);
    var u :| u in bs && u.start == x && u.free == false;
    BlocksApart(bs, HEAP_UNITS, u, m);
  }

  lemma MergeLengths(h: seq<int>, bs: seq<Block>, k: nat)
    requires |h| == HEAP_UNITS && Inv(bs, HEAP_UNITS) && k < |bs| && !bs[k].free
    requires Lengths(h, bs[k := bs[k].(free := true)])
    ensures Lengths(MergeHeap(h, bs, k), FreeAt(bs, k))
  {
    var mid, m, bs' := bs[k := bs[k].(free := true)], Merged(bs, k), FreeAt(bs, k);
    FreeInv(bs, HEAP_UNITS, k);
    FreeParts(bs, k);
    assert m in bs';
    hide Inv, Merged, FreeAt;
    forall u | u in bs' ensures u.start < |h| && MergeHeap(h, bs, k)[u.start] == u.len {
      BlocksApart(bs', HEAP_UNITS, u, m);
      if u != m {
        assert u in bs[..k] || u in bs[k + 1..];
        assert u in mid by {
          if u in bs[..k] {
            var i :| 0 <= i < k && bs[..k][i] == u;
            assert mid[i] == u;
          } else {
            var i :| 0 <= i < |bs| - k - 1 && bs[k + 1..][i] == u;
            assert mid[k + 1 + i] == u;
          }
        }
      }
    }
  }

  lemma MergeFree(h: seq<int>, list: int, bs: seq<Block>, k: nat)
    requires |h| == HEAP_UNITS && Inv(bs, HEAP_UNITS) && k < |bs| && !bs[k].free
    requires Chain(h, list, Starts(bs[k := bs[k].(free := true)], true))
    ensures Chain(MergeHeap(h, bs, k), list, Starts(FreeAt(bs, k), true))
  {
    FreeInv(bs, HEAP_UNITS, k);
    FreeParts(bs, k);
    var m, bs' := Merged(bs, k), FreeAt(bs, k);
    assert m in bs';
    BlocksApart(bs', HEAP_UNITS, m, m);
    var x, y := MergedFront(bs, k), MergedBack(bs, k);
    MergeGone(bs, k);
    MergeBounds(bs, k);
    FreeStarts(bs, k);
    var gone :| Starts(bs[k := bs[k].(free := true)], true) == x + [m.start] + gone + y;
    hide Starts, Inv, Merged, FreeAt;
    Relink(h, MergeHeap(h, bs, k), list, x, m.start, gone, y);
  }

  lemma MergeGone(bs: seq<Block>, k: nat)
    requires Inv(bs, HEAP_UNITS) && k < |bs| && !bs[k].free
    ensures exists gone :: Starts(bs[k := bs[k].(free := true)], true)
                        == MergedFront(bs, k) + [Merged(bs, k).start] + gone + MergedBack(bs, k)
  {
    hide Starts, Inv, MergedFront, MergedBack;
    MidStarts(bs, k, true);
    FrontStarts(bs, k);
    BackStarts(bs, k);
    var s, x, y := bs[k].start, MergedFront(bs, k), MergedBack(bs, k);
    var next := Opt(NextFree(bs, k), if k + 1 < |bs| then bs[k + 1].start else 0);
    hide Opt;
    if PrevFree(bs, k) {
      var p := bs[k - 1].start;
      assert bs[..k][|bs[..k]| - 1] == bs[k - 1];
      SeqShift(x, p, s, next, y);
    } else {
      SeqPlain(x, s, next, y);
    }
  }

  lemma SeqShift(x: seq<nat>, p: nat, s: nat, next: seq<nat>, y: seq<nat>)
    ensures x + Opt(true, p) + [s] + (next + y) == x + [p] + ([s] + next) + y
  {
  }

  lemma SeqPlain(x: seq<nat>, s: nat, next: seq<nat>, y: seq<nat>)
    ensures forall p :: x + Opt(false, p) + [s] + (next + y) == x + [s] + next + y
  {
  }

  lemma MergeBounds(bs: seq<Block>, k: nat)
    requires Inv(bs, HEAP_UNITS) && k < |bs| && !bs[k].free
    ensures Below(MergedFront(bs, k), Merged(bs, k).start)
    ensures Above(MergedBack(bs, k), Merged(bs, k).start + HEADER, HEAP_UNITS)
  {
    hide Starts, Inv, Seg;
    AroundBlock(bs, HEAP_UNITS, k, true);
    if PrevFree(bs, k) {
      AroundBlock(bs, HEAP_UNITS, k - 1, true);
      SegNext(bs, HEAP_UNITS, k - 1);
      assert bs[..k][|bs[..k]| - 1] == bs[k - 1];
    }
    if NextFree(bs, k) {
      AroundBlock(bs, HEAP_UNITS, k + 1, true);
      SegNext(bs, HEAP_UNITS, k);
    }
  }

  /** Dropping the headers `gone` behind `p` from a list. */
  lemma Relink(h: seq<int>, h': seq<int>, list: int, x: seq<nat>, p: nat, gone: seq<nat>, y: seq<nat>)
    requires Chain(h, list, x + [p] + gone + y) && p + 1 < |h| == |h'|
    requires h'[p + 1] == First(y, NULL)
    requires Below(x, p) && Above(y, p + HEADER, |h|)
    requires forall a :: 0 <= a < |h| && a != p && a != p + 1 ==> h[a] == h'[a]
    ensures Chain(h', list, x + [p] + y)
  {
    assert x + [p] + gone + y == x + ([p] + gone + y);
    LinkedSplit(h, list, x, [p] + gone + y, NULL);
    assert x + [p] + gone + y == (x + [p] + gone) + y;
    LinkedSplit(h, list, x + [p] + gone, y, NULL);
    LinkedOne(h', p, First(y, NULL));
    hide Linked;
    LinkedFrame(h, h', list, x, p);
    LinkedFrame(h, h', First(y, NULL), y, NULL);
    LinkedJoin(h', list, x, p, [p], First(y, NULL));
    LinkedJoin(h', list, x + [p], First(y, NULL), y, NULL);
  }

  lemma MidLengths(h: seq<int>, bs: seq<Block>, k: nat)
    requires k < |bs| && Lengths(h, bs)
    ensures Lengths(h, bs[k := bs[k].(free := true)])
  {
    var mid := bs[k := bs[k].(free := true)];
    forall b | b in mid ensures b.start < |h| && h[b.start] == b.len {
      var i :| 0 <= i < |mid| && mid[i] == b;
      assert bs[i] in bs;
    }
  }

  lemma ReleaseFacts(h: seq<int>, bs: seq<Block>, k: nat)
    requires Inv(bs, HEAP_UNITS) && k < |bs| && !bs[k].free && Lengths(h, bs) && |h| == HEAP_UNITS
    ensures var s, mid := bs[k].start, bs[k := bs[k].(free := true)];
      var i, j := |Starts(bs[..k], true)|, |Starts(bs[..k], false)|;
      var fs, ls := Starts(bs, true), Starts(bs, false);
      && s + 1 < HEAP_UNITS
      && Spaced(ls) && j < |ls| && ls[j] == s && ls[..j] + ls[j + 1..] == Starts(mid, false)
      && Spaced(fs) && InsertPoint(fs, i, s) && i < |fs| && fs[..i] + [s] + fs[i..] == Starts(mid, true)
      && NoCommon(fs, ls) && NoCommon(Starts(mid, false), fs + [s])
      && Headers(bs, ls) && Headers(bs, fs + [s])
  {
    NotLast(bs, k);
    hide Starts, Inv, Lengths, Spaced, NoCommon, InsertPoint, Below, Above;
    var s, mid := bs[k].start, bs[k := bs[k].(free := true)];
    BlocksApart(bs, HEAP_UNITS, bs[k], bs[k]);
    ListsApart(bs, HEAP_UNITS, true);
    ListsApart(bs, HEAP_UNITS, false);
    AroundBlock(bs, HEAP_UNITS, k, true);
    AroundBlock(bs, HEAP_UNITS, k, false);
    StartsAt(bs, k, true);
    StartsAt(bs, k, false);
    MidStarts(bs, k, true);
    MidStarts(bs, k, false);
    var f1, f2 := Starts(bs[..k], true), Starts(bs[k + 1..], true);
    var a1, a2 := Starts(bs[..k], false), Starts(bs[k + 1..], false);
    ReleaseLists(f1, f2, a1, a2, s, bs[k].End(), Starts(bs, true), Starts(bs, false));
    assert bs[k] in bs;
    assert forall x :: x in Starts(bs, true) + [s] ==> x in Starts(bs, true) || x == s;
  }

  lemma ReleaseLists(f1: seq<nat>, f2: seq<nat>, a1: seq<nat>, a2: seq<nat>, s: nat, end: nat, fs: seq<nat>,
      ls: seq<nat>)
    requires fs == f1 + [] + f2 && ls == a1 + [s] + a2 && s < end
    requires Below(f1, s) && Above(f2, end, HEAP_UNITS) && Below(a1, s) && Above(a2, end, HEAP_UNITS)
    requires NoCommon(fs, ls)
    ensures ls[..|a1|] == a1 && ls[|a1| + 1..] == a2 && ls[|a1|] == s
    ensures fs[..|f1|] == f1 && fs[|f1|..] == f2 && InsertPoint(fs, |f1|, s)
    ensures NoCommon(a1 + [] + a2, fs + [s])
  {
    forall x | x in a1 + [] + a2 ensures x !in fs + [s] {
      assert x in ls;
      if x in a1 { } else { assert x in a2; }
    }
  }

  /** The payloads that stay live are not written. */
  lemma FreeKeepsPayloads(h: seq<int>, h1: seq<int>, h2: seq<int>, bs: seq<Block>, k: nat)
    requires |h| == HEAP_UNITS && Inv(bs, HEAP_UNITS) && k < |bs| && !bs[k].free
    requires KeepsPayloads(h, h1, Live(bs)) && KeepsPayloads(h1, h2, Live(bs))
    ensures KeepsPayloads(h, MergeHeap(h2, bs, k), Live(FreeAt(bs, k)))
  {
    FreeLive(bs, HEAP_UNITS, k);
    FreeInv(bs, HEAP_UNITS, k);
    FreeParts(bs, k);
    var m, bs' := Merged(bs, k), FreeAt(bs, k);
    assert m in bs';
    hide Inv, FreeAt, Merged;
    forall b | b in Live(bs') ensures b.End() <= m.start || m.End() <= b.start {
      BlocksApart(bs', HEAP_UNITS, b, m);
    }
  }

  lemma KeptSince(h: seq<int>, h1: seq<int>, h2: seq<int>, live: set<Block>, now: set<Block>)
    requires KeepsPayloads(h, h1, live) && KeepsPayloads(h1, h2, now) && now <= live
    ensures KeepsPayloads(h, h2, now)
  {
  }

  /** The block under the sweep, its link, and the allocated list once it is gone. */
  lemma SweepFacts(h: seq<int>, list: int, bs: seq<Block>, kept: seq<nat>, rest: seq<nat>) returns (k: nat)
    requires Inv(bs, HEAP_UNITS) && |h| == HEAP_UNITS && rest != []
    requires Chain(h, list, Starts(bs, false)) && Starts(bs, false) == kept + rest
    ensures k == Find(bs, rest[0]) < |bs| && FreeStart(bs, rest[0]) == FreeAt(bs, k)
    ensures rest[0] + 1 < |h| && h[rest[0] + 1] == First(rest[1..], NULL)
    ensures Starts(FreeAt(bs, k), false) == kept + rest[1..]
    ensures kept + [rest[0]] + rest[1..] == kept + rest
  {
    hide Inv, Linked, FreeAt;
    var s := rest[0];
    StartsExact(bs);
    assert s in Starts(bs, false);
    k := Find(bs, s);
    LinkedAt(h, list, Starts(bs, false), |kept|);
    assert (kept + rest)[|kept| + 1..] == rest[1..];
    StartsAt(bs, k, false);
    FreeStarts(bs, k);
    ListsApart(bs, HEAP_UNITS, false);
    hide Starts;
    CutOnce(Starts(bs[..k], false), Starts(bs[k + 1..], false), kept, rest[1..], s);
  }

  /** In a list without repetitions an element sits in one place. */
  lemma CutOnce(a: seq<nat>, b: seq<nat>, c: seq<nat>, d: seq<nat>, s: nat)
    requires a + [s] + b == c + [s] + d && Spaced(a + [s] + b)
    ensures a == c && b == d
  {
    var xs := a + [s] + b;
    assert xs[|a|] == s && xs[|c|] == (c + [s] + d)[|c|] == s;
    assert |a| == |c|;
    assert a == xs[..|a|] == c && b == xs[|a| + 1..] == d;
  }

  lemma NothingFits(m: nat)
    ensures FirstFit([], m) == 0
  {
  }

  /** Where the search stands: `header` is free block `k`, or the end of the list. */
  ghost predicate SearchFacts(h: seq<int>, header: int, bs: seq<Block>, k: nat, m: nat)
    requires k <= |bs|
  {
    if k == |bs| then header == NULL
    else
      && header == bs[k].start && bs[k].free && bs[k].start + 1 < |h| && h[bs[k].start] == bs[k].len
      && Chain(h, h[bs[k].start + 1], Starts(bs[k + 1..], true))
      && FirstFit(bs[k..], m) == if bs[k].len >= m then 0 else 1 + FirstFit(bs[k + 1..], m)
  }

  lemma SearchAt(h: seq<int>, header: int, bs: seq<Block>, k: nat)
    requires |h| == HEAP_UNITS && Inv(bs, HEAP_UNITS) && Lengths(h, bs)
    requires k <= |bs| && Chain(h, header, Starts(bs[k..], true))
    requires k < |bs| ==> bs[k].free
    ensures forall m: nat :: SearchFacts(h, header, bs, k, m)
  {
    if k < |bs| {
      assert bs[k..][1..] == bs[k + 1..];
      assert Starts(bs[k..], true) == [bs[k].start] + Starts(bs[k + 1..], true);
      BlockInside(h, bs, k);
      LinkedTail(h, header, Starts(bs[k..], true), NULL);
      assert ([bs[k].start] + Starts(bs[k + 1..], true))[1..] == Starts(bs[k + 1..], true);
    }
  }

  /** The next free block at or behind `j`; live blocks in between are on neither search. */
  lemma SkipLive(bs: seq<Block>, j: nat, m: nat) returns (k: nat)
    requires j <= |bs|
    ensures j <= k <= |bs| && (k < |bs| ==> bs[k].free)
    ensures Starts(bs[k..], true) == Starts(bs[j..], true)
    ensures j + FirstFit(bs[j..], m) == k + FirstFit(bs[k..], m)
    decreases |bs| - j
  {
    k := j;
    if j < |bs| {
      assert bs[j..][1..] == bs[j + 1..];
      if !bs[j].free {
        k := SkipLive(bs, j + 1, m);
      }
    }
  }

  lemma DetachFacts(bs: seq<Block>, k: nat, n: nat)
    requires Inv(bs, HEAP_UNITS) && k < |bs| && bs[k].free && bs[k].len >= n + HEADER
    ensures var s, links, others, bs' := bs[k].start, SplitStarts(bs, k, n), Starts(bs, false), AllocAt(bs, k, n);
      var i := |Starts(bs[..k], true)|;
      && s + 1 < HEAP_UNITS
      && Spaced(links) && i < |links| && links[i] == s
      && links[..i] + links[i + 1..] == Starts(bs', true)
      && NoCommon(others, links) && NoCommon(Starts(bs', true), [s])
      && Headers(bs', links)
  {
    hide Starts, Inv, AllocAt, Spaced;
    var s, bs' := bs[k].start, AllocAt(bs, k, n);
    BlocksApart(bs, HEAP_UNITS, bs[k], bs[k]);
    AllocInv(bs, HEAP_UNITS, k, n);
    AllocStarts(bs, k, n, true);
    AllocStarts(bs, k, n, false);
    SplitSpaced(bs, k, n);
    ListsApart(bs', HEAP_UNITS, true);
    var f1, f2 := Starts(bs[..k], true), Starts(bs[k + 1..], true);
    var links := SplitStarts(bs, k, n);
    assert links[..|f1|] == f1 && links[|f1| + 1..] == [s + HEADER + n] + f2;
    assert f1 + ([s + HEADER + n] + f2) == f1 + [s + HEADER + n] + f2;
    assert s in Starts(bs', false);
  }

  lemma AttachFacts(bs: seq<Block>, k: nat, n: nat)
    requires Inv(bs, HEAP_UNITS) && k < |bs| && bs[k].free && bs[k].len >= n + HEADER
    ensures var s, others, bs' := bs[k].start, Starts(bs, false), AllocAt(bs, k, n);
      var j := |Starts(bs[..k], false)|;
      && Spaced(others) && InsertPoint(others, j, s)
      && others[..j] + [s] + others[j..] == Starts(bs', false)
      && NoCommon(Starts(bs', true), others + [s])
      && Headers(bs', others + [s])
  {
    hide Starts, Inv, AllocAt, Spaced;
    var s, bs' := bs[k].start, AllocAt(bs, k, n);
    AllocInv(bs, HEAP_UNITS, k, n);
    AllocStarts(bs, k, n, false);
    OthersStarts(bs, k);
    ListsApart(bs, HEAP_UNITS, false);
    ListsApart(bs', HEAP_UNITS, true);
    ListsApart(bs', HEAP_UNITS, false);
    AroundBlock(bs, HEAP_UNITS, k, false);
    var a1, a2 := Starts(bs[..k], false), Starts(bs[k + 1..], false);
    var others := Starts(bs, false);
    assert others[..|a1|] == a1 && others[|a1|..] == a2;
    assert forall x :: x in others + [s] ==> x in Starts(bs', false);
  }

  /** No payload of a block that was live before is written. */
  lemma TakeKeepsPayloads(h: seq<int>, h1: seq<int>, h2: seq<int>, h3: seq<int>, h4: seq<int>,
                          bs: seq<Block>, k: nat, n: nat)
    requires |h| == |h1| == |h2| == |h3| == |h4| == HEAP_UNITS
    requires Inv(bs, HEAP_UNITS) && k < |bs| && bs[k].free && bs[k].len >= n + HEADER
    requires forall a :: 0 <= a < HEAP_UNITS && !(bs[k].start <= a < bs[k].End()) ==> h[a] == h1[a]
    requires OnlyLinks(h1, h2, SplitStarts(bs, k, n)) && OnlyLinks(h2, h3, Starts(bs, false) + [bs[k].start])
    requires OnlyPayload(h3, h4, Block(bs[k].start, n, false))
    ensures KeepsPayloads(h, h4, Live(bs))
  {
    hide Inv, OnlyLinks, Starts, SplitStarts;
    var bs' := AllocAt(bs, k, n);
    DetachFacts(bs, k, n);
    AttachFacts(bs, k, n);
    AllocInv(bs, HEAP_UNITS, k, n);
    AllocLive(bs, HEAP_UNITS, k, n);
    KeepLengths(h1, h2, bs', SplitStarts(bs, k, n));
    KeepLengths(h2, h3, bs', Starts(bs, false) + [bs[k].start]);
    forall b | b in Live(bs) ensures b.End() <= bs[k].start || bs[k].End() <= b.start {
      BlocksApart(bs, HEAP_UNITS, b, bs[k]);
    }
  }

  /** The payloads of the given blocks are the same in both heaps. */
  ghost predicate KeepsPayloads(h: seq<int>, h': seq<int>, live: set<Block>) {
    && |h| == |h'|
    && forall b, a :: b in live && b.Data() <= a < b.End() && a < |h| ==> h[a] == h'[a]
  }

  lemma KeepsBoth(h: seq<int>, h1: seq<int>, h2: seq<int>, live: set<Block>)
    requires KeepsPayloads(h, h1, live) && KeepsPayloads(h1, h2, live)
    ensures KeepsPayloads(h, h2, live)
  {
  }

  lemma BlockInside(h: seq<int>, bs: seq<Block>, k: nat)
    requires Inv(bs, HEAP_UNITS) && Lengths(h, bs) && k < |bs|
    ensures bs[k].End() <= HEAP_UNITS && bs[k].start < |h| && h[bs[k].start] == bs[k].len
  {
    assert bs[k] in bs;
    BlocksApart(bs, HEAP_UNITS, bs[k], bs[k]);
  }

  /** The free list after the split. */
  ghost function SplitStarts(bs: seq<Block>, k: nat, n: nat): seq<nat>
    requires k < |bs|
  {
    Starts(bs[..k], true) + [bs[k].start, bs[k].start + HEADER + n] + Starts(bs[k + 1..], true)
  }

  ghost function SplitHeap(h: seq<int>, header: nat, n: nat): seq<int>
    requires header + HEADER + n + 1 < |h|
  {
    var next := header + HEADER + n;
    h[next := h[header] - HEADER - n][header := n][next + 1 := h[header + 1]][header + 1 := next]
  }

  lemma SplitEffect(h: seq<int>, freeList: int, allocateList: int, bs: seq<Block>, k: nat, n: nat)
    requires |h| == HEAP_UNITS && Inv(bs, HEAP_UNITS) && Lengths(h, bs)
    requires Chain(h, freeList, Starts(bs, true)) && Chain(h, allocateList, Starts(bs, false))
    requires k < |bs| && bs[k].free && bs[k].len >= n + HEADER && bs[k].End() <= HEAP_UNITS
    ensures var h' := SplitHeap(h, bs[k].start, n);
      && Lengths(h', AllocAt(bs, k, n))
      && Chain(h', freeList, SplitStarts(bs, k, n))
      && Chain(h', allocateList, Starts(bs, false))
  {
    SplitLengths(h, bs, k, n);
    SplitFree(h, freeList, bs, k, n);
    SplitLive(h, allocateList, bs, k, n);
  }

  lemma SplitFree(h: seq<int>, list: int, bs: seq<Block>, k: nat, n: nat)
    requires |h| == HEAP_UNITS && Inv(bs, HEAP_UNITS) && Chain(h, list, Starts(bs, true))
    requires k < |bs| && bs[k].free && bs[k].len >= n + HEADER && bs[k].End() <= |h|
    ensures Chain(SplitHeap(h, bs[k].start, n), list, SplitStarts(bs, k, n))
  {
    hide Starts, Linked, Inv, SplitHeap, SameNext;
    ChainCut(h, list, bs, k, true);
    AroundBlock(bs, HEAP_UNITS, k, true);
    SplitLinks(h, bs[k], n);
    var x, y := Starts(bs[..k], true), Starts(bs[k + 1..], true);
    SplitSameAll(h, bs[k], n, x, y);
    SplitLinked(h, SplitHeap(h, bs[k].start, n), list, x, bs[k].start, bs[k].start + HEADER + n, y);
  }

  lemma SplitLive(h: seq<int>, list: int, bs: seq<Block>, k: nat, n: nat)
    requires |h| == HEAP_UNITS && Inv(bs, HEAP_UNITS) && Chain(h, list, Starts(bs, false))
    requires k < |bs| && bs[k].free && bs[k].len >= n + HEADER && bs[k].End() <= |h|
    ensures Chain(SplitHeap(h, bs[k].start, n), list, Starts(bs, false))
  {
    hide Starts, Linked, Inv, SplitHeap, SameNext;
    ChainCut(h, list, bs, k, false);
    AroundBlock(bs, HEAP_UNITS, k, false);
    var x, y := Starts(bs[..k], false), Starts(bs[k + 1..], false);
    SplitSameAll(h, bs[k], n, x, y);
    PassLinked(h, SplitHeap(h, bs[k].start, n), list, x, y);
  }

  lemma SplitSameAll(h: seq<int>, b: Block, n: nat, x: seq<nat>, y: seq<nat>)
    requires b.len >= n + HEADER && b.End() <= |h|
    requires Below(x, b.start) && Above(y, b.End(), |h|)
    ensures forall j :: 0 <= j < |x| ==> SameNext(h, SplitHeap(h, b.start, n), x[j])
    ensures forall j :: 0 <= j < |y| ==> SameNext(h, SplitHeap(h, b.start, n), y[j])
  {
    forall j | 0 <= j < |x| ensures SameNext(h, SplitHeap(h, b.start, n), x[j]) { SplitSame(h, b, n, x[j]); }
    forall j | 0 <= j < |y| ensures SameNext(h, SplitHeap(h, b.start, n), y[j]) { SplitSame(h, b, n, y[j]); }
  }

  /** Linking `next` in behind `s`. */
  lemma SplitLinked(h: seq<int>, h': seq<int>, list: int, x: seq<nat>, s: nat, next: nat, y: seq<nat>)
    requires Linked(h, list, x, s) && s + 1 < |h| == |h'| && next + 1 < |h|
    requires h[s + 1] == First(y, NULL) && Linked(h, h[s + 1], y, NULL)
    requires h'[s + 1] == next && h'[next + 1] == h[s + 1]
    requires forall j :: 0 <= j < |x| ==> SameNext(h, h', x[j])
    requires forall j :: 0 <= j < |y| ==> SameNext(h, h', y[j])
    ensures Chain(h', list, x + [s, next] + y)
  {
    LinkedOne(h', s, next);
    LinkedOne(h', next, h[s + 1]);
    hide Linked, SameNext;
    LinkedFrame(h, h', list, x, s);
    LinkedFrame(h, h', h[s + 1], y, NULL);
    LinkedJoin(h', s, [s], next, [next], h[s + 1]);
    LinkedJoin(h', list, x, s, [s] + [next], h[s + 1]);
    LinkedJoin(h', list, x + ([s] + [next]), h[s + 1], y, NULL);
    assert x + [s, next] + y == x + ([s] + [next]) + y;
  }

  /** A list whose `next` words did not change. */
  lemma PassLinked(h: seq<int>, h': seq<int>, list: int, x: seq<nat>, y: seq<nat>)
    requires Linked(h, list, x, First(y, NULL)) && Linked(h, First(y, NULL), y, NULL)
    requires forall j :: 0 <= j < |x| ==> SameNext(h, h', x[j])
    requires forall j :: 0 <= j < |y| ==> SameNext(h, h', y[j])
    ensures Chain(h', list, x + y)
  {
    hide Linked, SameNext;
    LinkedFrame(h, h', list, x, First(y, NULL));
    LinkedFrame(h, h', First(y, NULL), y, NULL);
    LinkedJoin(h', list, x, First(y, NULL), y, NULL);
  }

  /** A list cut at block `k`. */
  ghost predicate ChainAround(h: seq<int>, list: int, bs: seq<Block>, k: nat, free: bool)
    requires k < |bs|
  {
    var s := bs[k].start;
    var x, y := Starts(bs[..k], free), Starts(bs[k + 1..], free);
    if bs[k].free == free then
      && Starts(bs, free) == x + [s] + y
      && Linked(h, list, x, s) && s + 1 < |h| && h[s + 1] == First(y, NULL) && Linked(h, h[s + 1], y, NULL)
    else
      && Starts(bs, free) == x + y
      && Linked(h, list, x, First(y, NULL)) && Linked(h, First(y, NULL), y, NULL)
  }

  lemma ChainCut(h: seq<int>, list: int, bs: seq<Block>, k: nat, free: bool)
    requires k < |bs| && Chain(h, list, Starts(bs, free))
    ensures ChainAround(h, list, bs, k, free)
  {
    hide Linked;
    var s := bs[k].start;
    var x, y := Starts(bs[..k], free), Starts(bs[k + 1..], free);
    StartsAt(bs, k, free);
    hide Starts;
    if bs[k].free == free {
      assert x + [s] + y == x + ([s] + y);
      LinkedSplit(h, list, x, [s] + y, NULL);
      LinkedTail(h, s, [s] + y, NULL);
      assert ([s] + y)[1..] == y;
      LinkedHead(h, h[s + 1], y, NULL);
    } else {
      assert x + [] + y == x + y;
      LinkedSplit(h, list, x, y, NULL);
    }
  }

  lemma LinkedHead(h: seq<int>, head: int, xs: seq<nat>, tail: int)
    requires Linked(h, head, xs, tail)
    ensures head == First(xs, tail)
  {
  }

  ghost predicate Below(xs: seq<nat>, s: nat) {
    forall j :: 0 <= j < |xs| ==> xs[j] + HEADER <= s
  }

  ghost predicate Above(xs: seq<nat>, end: nat, top: nat) {
    forall j :: 0 <= j < |xs| ==> end <= xs[j] && xs[j] + HEADER <= top
  }

  /** The headers in front of block `k` end before it, those behind it start after it. */
  lemma AroundBlock(bs: seq<Block>, top: nat, k: nat, free: bool)
    requires Inv(bs, top) && k < |bs|
    ensures Below(Starts(bs[..k], free), bs[k].start)
    ensures Above(Starts(bs[k + 1..], free), bs[k].End(), top)
  {
    SegAround(bs, top, k);
    StartsSpaced(bs[..k], 0, bs[k].start, false, LastFree(bs[..k], false), free);
    StartsSpaced(bs[k + 1..], bs[k].End(), top, bs[k].free, true, free);
    var x, y := Starts(bs[..k], free), Starts(bs[k + 1..], free);
    assert forall j :: 0 <= j < |x| ==> x[j] in x;
    assert forall j :: 0 <= j < |y| ==> y[j] in y;
  }

  lemma SplitSame(h: seq<int>, b: Block, n: nat, x: nat)
    requires b.len >= n + HEADER && b.End() <= |h|
    requires x + 1 < b.start || b.End() <= x
    ensures SameNext(h, SplitHeap(h, b.start, n), x)
  {
  }

  lemma SplitLinks(h: seq<int>, b: Block, n: nat)
    requires b.len >= n + HEADER && b.End() <= |h|
    ensures var next, h' := b.start + HEADER + n, SplitHeap(h, b.start, n);
      |h'| == |h| && next + 1 < |h| && h'[b.start + 1] == next && h'[next + 1] == h[b.start + 1]
  {
  }

  lemma ChainFrame(h: seq<int>, h': seq<int>, head: int, xs: seq<nat>)
    requires Chain(h, head, xs)
    requires forall i :: 0 <= i < |xs| ==> SameNext(h, h', xs[i])
    ensures Chain(h', head, xs)
  {
    LinkedFrame(h, h', head, xs, NULL);
  }

  lemma SplitLengths(h: seq<int>, bs: seq<Block>, k: nat, n: nat)
    requires |h| == HEAP_UNITS && Inv(bs, HEAP_UNITS) && Lengths(h, bs)
    requires k < |bs| && bs[k].free && bs[k].len >= n + HEADER && bs[k].End() <= HEAP_UNITS
    ensures Lengths(SplitHeap(h, bs[k].start, n), AllocAt(bs, k, n))
  {
    SegAround(bs, HEAP_UNITS, k);
    forall b | b in AllocAt(bs, k, n)
      ensures b.start < |h| && SplitHeap(h, bs[k].start, n)[b.start] == b.len
    {
      assert bs[k] in bs;
      if b in SplitBlock(bs[k], n) {
      } else {
        assert b in bs[..k] || b in bs[k + 1..];
        assert b in bs;
      }
    }
  }

  // ----- what a step leaves alone -----

  lemma KeepLengths(h: seq<int>, h': seq<int>, bs: seq<Block>, xs: seq<nat>)
    requires Inv(bs, |h|) && OnlyLinks(h, h', xs) && Headers(bs, xs)
    ensures Lengths(h, bs) ==> Lengths(h', bs)
    ensures KeepsPayloads(h, h', Live(bs))
  {
    hide Inv, OnlyLinks, Headers;
    assert |h| == |h'| by { SameSize(h, h', xs); }
    forall b, a | b in bs && (a == b.start || (!b.free && b.Data() <= a < b.End())) && 0 <= a < |h|
      ensures h[a] == h'[a]
    {
      SameWord(h, h', bs, xs, b, a);
    }
  }

  lemma SameSize(h: seq<int>, h': seq<int>, xs: seq<nat>)
    requires OnlyLinks(h, h', xs)
    ensures |h| == |h'|
  {
  }

  lemma SameWord(h: seq<int>, h': seq<int>, bs: seq<Block>, xs: seq<nat>, b: Block, a: int)
    requires Inv(bs, |h|) && OnlyLinks(h, h', xs) && Headers(bs, xs)
    requires b in bs && 0 <= a < |h| && (a == b.start || (!b.free && b.Data() <= a < b.End()))
    ensures h[a] == h'[a]
  {
    hide Inv;
    if a - 1 in xs {
      var u :| u in bs && u.start == a - 1;
      BlocksApart(bs, |h|, b, u);
    }
  }

  lemma KeepChain(h: seq<int>, h': seq<int>, list: int, ys: seq<nat>, xs: seq<nat>)
    requires Chain(h, list, ys) && OnlyLinks(h, h', xs) && NoCommon(ys, xs)
    ensures Chain(h', list, ys)
  {
    hide Chain;
    forall i | 0 <= i < |ys| ensures SameNext(h, h', ys[i]) {
      assert ys[i] in ys;
    }
    ChainFrame(h, h', list, ys);
  }

  /** Two heaps that agree outside the payload of `b`. */
  ghost predicate OnlyPayload(h: seq<int>, h': seq<int>, b: Block) {
    |h| == |h'| && forall a :: 0 <= a < |h| && !(b.Data() <= a < b.End()) ==> h[a] == h'[a]
  }

  lemma KeepHeaders(h: seq<int>, h': seq<int>, bs: seq<Block>, b: Block, list: int, free: bool)
    requires Inv(bs, |h|) && b in bs && OnlyPayload(h, h', b)
    ensures Lengths(h, bs) ==> Lengths(h', bs)
    ensures Chain(h, list, Starts(bs, free)) ==> Chain(h', list, Starts(bs, free))
    ensures KeepsPayloads(h, h', Live(bs) - {b})
  {
    hide Chain, Inv;
    forall c | c in bs
      ensures c.End() <= |h| && h[c.start] == h'[c.start] && SameNext(h, h', c.start)
      ensures c != b ==> c.End() <= b.start || b.End() <= c.start
    {
      BlocksApart(bs, |h|, c, b);
    }
    var ys := Starts(bs, free);
    ListsApart(bs, |h|, free);
    if Chain(h, list, ys) {
      forall i | 0 <= i < |ys| ensures SameNext(h, h', ys[i]) {
        assert ys[i] in ys;
      }
      ChainFrame(h, h', list, ys);
    }
  }

  // ----- the lists after an allocation -----

  lemma StartsTwo(b: Block, c: Block, free: bool)
    ensures Starts([b, c], free)
         == (if b.free == free then [b.start] else []) + (if c.free == free then [c.start] else [])
  {
    assert [b, c][1..] == [c] && [c][1..] == [];
    assert Starts([c], free) == (if c.free == free then [c.start] else []) + Starts([], free);
  }

  lemma AllocStarts(bs: seq<Block>, k: nat, n: nat, free: bool)
    requires k < |bs| && bs[k].free && bs[k].len >= n + HEADER
    ensures Starts(AllocAt(bs, k, n), free)
         == Starts(bs[..k], free) + [if free then bs[k].start + HEADER + n else bs[k].start] + Starts(bs[k + 1..], free)
  {
    hide Starts;
    var s := SplitBlock(bs[k], n);
    StartsTwo(s[0], s[1], free);
    StartsAppend(bs[..k] + s, bs[k + 1..], free);
    StartsAppend(bs[..k], s, free);
  }

  lemma OthersStarts(bs: seq<Block>, k: nat)
    requires k < |bs| && bs[k].free
    ensures Starts(bs, false) == Starts(bs[..k], false) + Starts(bs[k + 1..], false)
  {
    StartsAt(bs, k, false);
  }

  lemma SplitSpaced(bs: seq<Block>, k: nat, n: nat)
    requires Inv(bs, HEAP_UNITS) && k < |bs| && bs[k].free && bs[k].len >= n + HEADER
    ensures Spaced(SplitStarts(bs, k, n))
    ensures Headers(AllocAt(bs, k, n), SplitStarts(bs, k, n))
    ensures NoCommon(Starts(bs, false), SplitStarts(bs, k, n))
  {
    hide Starts, Inv, AllocAt, Spaced;
    var bs', s := AllocAt(bs, k, n), bs[k].start;
    AllocInv(bs, HEAP_UNITS, k, n);
    AllocStarts(bs, k, n, true);
    AllocStarts(bs, k, n, false);
    OthersStarts(bs, k);
    ListsApart(bs', HEAP_UNITS, true);
    ListsApart(bs', HEAP_UNITS, false);
    AroundBlock(bs, HEAP_UNITS, k, true);
    AroundBlock(bs, HEAP_UNITS, k, false);
    var f1, f2 := Starts(bs[..k], true), Starts(bs[k + 1..], true);
    JoinSpaced(f1, [s, s + HEADER + n], f2, Starts(bs', true), s, bs[k].End());
    assert s in Starts(bs', false);
    assert forall x :: x in SplitStarts(bs, k, n) ==> x == s || x in Starts(bs', true);
    forall x | x in Starts(bs, false) ensures x != s && x in Starts(bs', false) {
    }
  }

  lemma JoinSpaced(x: seq<nat>, mid: seq<nat>, y: seq<nat>, xy: seq<nat>, s: nat, end: nat)
    requires |mid| == 2 && mid[0] == s && mid[0] + HEADER <= mid[1] && mid[1] + HEADER <= end
    requires xy == x + [mid[1]] + y && Spaced(xy)
    requires Below(x, s) && Above(y, end, HEAP_UNITS)
    ensures Spaced(x + mid + y)
  {
    var r := x + mid + y;
    forall i, j | 0 <= i < j < |r| ensures r[i] + HEADER <= r[j] {
      var i', j' := if i <= |x| then i else i - 1, if j <= |x| then j else j - 1;
      if i != |x| && j != |x| {
        assert xy[i'] == r[i] && xy[j'] == r[j];
      }
    }
  }
}
