/** The FinSH heap (finsh_heap.c) as a sequence of blocks in address order. Addresses and lengths
    are counted in units of `HEAP_ALIGNMENT` bytes; a header takes two units. */
module HeapSpec {
  import opened Machine

  const HEAP_ALIGNMENT: nat := 4
  const HEAP_UNITS: nat := 32
  const HEADER: nat := 2

  datatype Block = Block(start: nat, len: nat, free: bool) {
    function End(): nat {
      start + HEADER + len
    }

    function Data(): nat {
      start + HEADER
    }
  }

  /** `HEAP_ALIGN_SIZE`, in units. */
  function Units(size: nat): nat {
    (size + HEAP_ALIGNMENT - 1) / HEAP_ALIGNMENT
  }

  // ----- sizes in 32 bits -----

  const HEADER_BYTES: nat := 8
  const SIZE_LIMIT: nat := 0xFFFF_FFF4

  /** `HEAP_ALIGN_SIZE` on a 32-bit `size_t`. */
  function AlignSize(size: Word): Word {
    (size + HEAP_ALIGNMENT - 1) % 0x1_0000_0000 / HEAP_ALIGNMENT * HEAP_ALIGNMENT
  }

  /** `size + sizeof(header)`, what the search compares lengths with. */
  function NeededBytes(size: Word): Word {
    (AlignSize(size) + HEADER_BYTES) % 0x1_0000_0000
  }

  /** The search compares with the rounded size and a header exactly up to the limit; beyond it
      the sum wraps around and asks for less. */
  lemma NeededBytesExact(size: Word)
    ensures NeededBytes(size) == HEAP_ALIGNMENT * (Units(size) + HEADER) <==> size <= SIZE_LIMIT
    ensures size > SIZE_LIMIT ==> NeededBytes(size) <= HEADER_BYTES
  {
    if size <= SIZE_LIMIT {
      assert AlignSize(size) == HEAP_ALIGNMENT * Units(size);
    } else if size <= 0xFFFF_FFFC {
      assert AlignSize(size) == HEAP_ALIGNMENT * Units(size) >= 0xFFFF_FFF8;
    } else {
      assert AlignSize(size) == 0;
    }
  }

  // ----- the invariant -----

  /** The blocks tile the units from `a` to `b` without gaps, and no two neighbours are free. `p` says
      whether the block in front of them is free, `q` whether the last block is. */
  ghost predicate Seg(bs: seq<Block>, a: nat, b: nat, p: bool, q: bool) {
    if bs == [] then a == b && p == q
    else bs[0].start == a && !(p && bs[0].free) && Seg(bs[1..], bs[0].End(), b, bs[0].free, q)
  }

  /** The whole heap: tiled from 0 to its top, coalesced, and with its topmost block free. */
  ghost predicate Inv(bs: seq<Block>, top: nat) {
    0 < top && Seg(bs, 0, top, false, true)
  }

  function EndOf(bs: seq<Block>, a: nat): nat {
    if bs == [] then a else bs[|bs| - 1].End()
  }

  function LastFree(bs: seq<Block>, p: bool): bool {
    if bs == [] then p else bs[|bs| - 1].free
  }

  lemma {:induction false} SegSplit(x: seq<Block>, y: seq<Block>, a: nat, c: nat, p: bool, r: bool)
    requires Seg(x + y, a, c, p, r)
    ensures Seg(x, a, EndOf(x, a), p, LastFree(x, p))
    ensures Seg(y, EndOf(x, a), c, LastFree(x, p), r)
    decreases |x|
  {
    if x == [] {
      assert x + y == y;
    } else {
      assert (x + y)[1..] == x[1..] + y;
      SegSplit(x[1..], y, x[0].End(), c, x[0].free, r);
    }
  }

  lemma {:induction false} SegJoin(x: seq<Block>, y: seq<Block>, a: nat, b: nat, c: nat, p: bool, q: bool, r: bool)
    requires Seg(x, a, b, p, q) && Seg(y, b, c, q, r)
    ensures Seg(x + y, a, c, p, r)
    decreases |x|
  {
    if x == [] {
      assert x + y == y;
    } else {
      assert (x + y)[1..] == x[1..] + y;
      SegJoin(x[1..], y, x[0].End(), b, c, x[0].free, q, r);
    }
  }

  lemma {:induction false} SegBounds(bs: seq<Block>, a: nat, b: nat, p: bool, q: bool)
    requires Seg(bs, a, b, p, q)
    ensures a <= b
    ensures forall x :: x in bs ==> a <= x.start && x.End() <= b
    decreases |bs|
  {
    if bs != [] {
      SegBounds(bs[1..], bs[0].End(), b, bs[0].free, q);
    }
  }

  /** What surrounds block `k`. */
  lemma SegAround(bs: seq<Block>, top: nat, k: nat)
    requires Inv(bs, top) && k < |bs|
    ensures var x, y, z := bs[..k], bs[k], bs[k + 1..];
      && bs == x + [y] + z
      && Seg(x, 0, y.start, false, LastFree(x, false))
      && !(LastFree(x, false) && y.free)
      && Seg(z, y.End(), top, y.free, true)
      && (forall u :: u in x ==> u.End() <= y.start)
      && (forall u :: u in z ==> y.End() <= u.start && u.End() <= top)
      && y.End() <= top
      && (!y.free ==> z != [])
  {
    var x, y, z := bs[..k], bs[k], bs[k + 1..];
    assert bs == x + ([y] + z);
    SegSplit(x, [y] + z, 0, top, false, true);
    SegSplit([y], z, EndOf(x, 0), top, LastFree(x, false), true);
    SegBounds(x, 0, y.start, false, LastFree(x, false));
    SegBounds(z, y.End(), top, y.free, true);
  }

  // ----- initialisation -----

  function InitBlocks(): seq<Block> {
    [Block(0, HEAP_UNITS - HEADER, true)]
  }

  lemma InitInv()
    ensures Inv(InitBlocks(), HEAP_UNITS)
  {
  }

  // ----- allocation -----

  /** The first free block of at least `len` units, or `|bs|`. */
  function FirstFit(bs: seq<Block>, len: nat): (k: nat)
    ensures k <= |bs|
    ensures k < |bs| ==> bs[k].free && bs[k].len >= len
  {
    if bs == [] || (bs[0].free && bs[0].len >= len) then 0
    else 1 + FirstFit(bs[1..], len)
  }

  /** Block `k` split: its front becomes the allocated block, the rest stays free. */
  function AllocAt(bs: seq<Block>, k: nat, n: nat): seq<Block>
    requires k < |bs| && bs[k].len >= n + HEADER
  {
    bs[..k] + SplitBlock(bs[k], n) + bs[k + 1..]
  }

  function SplitBlock(b: Block, n: nat): seq<Block>
    requires b.len >= n + HEADER
  {
    [Block(b.start, n, false), Block(b.start + HEADER + n, b.len - n - HEADER, true)]
  }

  lemma AllocInv(bs: seq<Block>, top: nat, k: nat, n: nat)
    requires Inv(bs, top) && k < |bs| && bs[k].free && bs[k].len >= n + HEADER
    ensures Inv(AllocAt(bs, k, n), top)
  {
    SegAround(bs, top, k);
    var b := bs[k];
    var p := LastFree(bs[..k], false);
    SegJoin(bs[..k], SplitBlock(b, n), 0, b.start, b.End(), false, p, true);
    SegJoin(bs[..k] + SplitBlock(b, n), bs[k + 1..], 0, b.End(), top, false, true, true);
  }

  // ----- release -----

  function MergeFront(x: seq<Block>, b: Block): Block {
    if x != [] && x[|x| - 1].free then Block(x[|x| - 1].start, x[|x| - 1].len + HEADER + b.len, true)
    else b.(free := true)
  }

  function MergeBack(b: Block, z: seq<Block>): Block {
    if z != [] && z[0].free then b.(len := b.len + HEADER + z[0].len) else b
  }

  /** Block `k` released and merged with a free block on either side. */
  function FreeAt(bs: seq<Block>, k: nat): seq<Block>
    requires k < |bs|
  {
    var x, z := bs[..k], bs[k + 1..];
    var front := if x != [] && x[|x| - 1].free then x[..|x| - 1] else x;
    var back := if z != [] && z[0].free then z[1..] else z;
    front + [MergeBack(MergeFront(x, bs[k]), z)] + back
  }

  lemma FreeInv(bs: seq<Block>, top: nat, k: nat)
    requires Inv(bs, top) && k < |bs| && !bs[k].free
    ensures Inv(FreeAt(bs, k), top)
  {
    SegAround(bs, top, k);
    var x, b, z := bs[..k], bs[k], bs[k + 1..];
    var front := if x != [] && x[|x| - 1].free then x[..|x| - 1] else x;
    var back := if z[0].free then z[1..] else z;
    var m := MergeBack(MergeFront(x, b), z);
    if x != [] && x[|x| - 1].free {
      assert x == front + [x[|x| - 1]];
      SegSplit(front, [x[|x| - 1]], 0, b.start, false, true);
    }
    assert Seg(front, 0, m.start, false, false);
    assert Seg(back, m.End(), top, true, true);
    SegJoin(front, [m], 0, m.start, m.End(), false, false, true);
    SegJoin(front + [m], back, 0, m.End(), top, false, true, true);
  }

  // ----- what is allocated -----

  function Live(bs: seq<Block>): set<Block> {
    set b | b in bs && !b.free
  }

  /** Live blocks lie inside the heap and do not overlap. */
  lemma LiveDisjoint(bs: seq<Block>, top: nat)
    requires Inv(bs, top)
    ensures forall b :: b in Live(bs) ==> b.End() <= top
    ensures forall b, c :: b in Live(bs) && c in Live(bs) && b != c ==> b.End() <= c.start || c.End() <= b.start
    ensures forall b, c :: b in Live(bs) && c in Live(bs) && b.start == c.start ==> b == c
  {
    forall b, c | b in bs && c in bs && b != c
      ensures b.End() <= top && (b.End() <= c.start || c.End() <= b.start)
    {
      var k :| 0 <= k < |bs| && bs[k] == b;
      SegAround(bs, top, k);
    }
    forall b | b in bs ensures b.End() <= top {
      var k :| 0 <= k < |bs| && bs[k] == b;
      SegAround(bs, top, k);
    }
  }

  lemma NotElsewhere(bs: seq<Block>, top: nat, k: nat)
    requires Inv(bs, top) && k < |bs|
    ensures bs[k] !in bs[..k] + bs[k + 1..]
  {
    SegAround(bs, top, k);
  }

  lemma AllocLive(bs: seq<Block>, top: nat, k: nat, n: nat)
    requires Inv(bs, top) && k < |bs| && bs[k].free && bs[k].len >= n + HEADER
    ensures Live(AllocAt(bs, k, n)) == Live(bs) + {Block(bs[k].start, n, false)}
  {
    var r := AllocAt(bs, k, n);
    assert bs == bs[..k] + [bs[k]] + bs[k + 1..];
    forall b ensures b in Live(r) <==> b in Live(bs) + {Block(bs[k].start, n, false)} {
      assert b in r <==> b in bs[..k] || b in SplitBlock(bs[k], n) || b in bs[k + 1..];
      assert b in bs <==> b in bs[..k] || b == bs[k] || b in bs[k + 1..];
    }
  }

  lemma FreeLive(bs: seq<Block>, top: nat, k: nat)
    requires Inv(bs, top) && k < |bs| && !bs[k].free
    ensures Live(FreeAt(bs, k)) == Live(bs) - {bs[k]}
  {
    var x, b, z := bs[..k], bs[k], bs[k + 1..];
    var front := if x != [] && x[|x| - 1].free then x[..|x| - 1] else x;
    var back := if z != [] && z[0].free then z[1..] else z;
    NotElsewhere(bs, top, k);
    assert bs == x + [b] + z;
    forall c ensures c in Live(FreeAt(bs, k)) <==> c in Live(bs) - {b} {
      assert c in bs <==> c in x || c == b || c in z;
      if x != [] {
        assert c in x <==> c in x[..|x| - 1] || c == x[|x| - 1];
      }
      if z != [] {
        assert c in z <==> c == z[0] || c in z[1..];
      }
      assert c in FreeAt(bs, k) <==> c in front || c == MergeBack(MergeFront(x, b), z) || c in back;
    }
  }

  /** Allocating from a block and releasing the result at once restores the tiling. */
  lemma AllocThenFree(bs: seq<Block>, top: nat, k: nat, n: nat)
    requires Inv(bs, top) && k < |bs| && bs[k].free && bs[k].len >= n + HEADER
    ensures FreeAt(AllocAt(bs, k, n), k) == bs
  {
    SegAround(bs, top, k);
    var r := AllocAt(bs, k, n);
    assert r[..k] == bs[..k];
    assert r[k + 1..] == [SplitBlock(bs[k], n)[1]] + bs[k + 1..];
    assert bs == bs[..k] + [bs[k]] + bs[k + 1..];
  }

  // ----- garbage collection -----

  /** The starts of the free blocks, or of the live ones, in address order: the two lists. */
  function Starts(bs: seq<Block>, free: bool): seq<nat> {
    if bs == [] then [] else (if bs[0].free == free then [bs[0].start] else []) + Starts(bs[1..], free)
  }

  lemma StartsAt(bs: seq<Block>, k: nat, free: bool)
    requires k < |bs|
    ensures Starts(bs, free)
         == Starts(bs[..k], free) + (if bs[k].free == free then [bs[k].start] else []) + Starts(bs[k + 1..], free)
  {
    assert bs == bs[..k] + ([bs[k]] + bs[k + 1..]);
    StartsAppend(bs[..k], [bs[k]] + bs[k + 1..], free);
    assert ([bs[k]] + bs[k + 1..])[1..] == bs[k + 1..];
  }

  lemma BlocksApart(bs: seq<Block>, top: nat, b: Block, c: Block)
    requires Inv(bs, top) && b in bs && c in bs
    ensures b.End() <= top
    ensures b == c || b.End() <= c.start || c.End() <= b.start
  {
    var k :| 0 <= k < |bs| && bs[k] == b;
    SegAround(bs, top, k);
  }

  ghost predicate NoCommon(xs: seq<nat>, ys: seq<nat>) {
    forall x :: x in xs ==> x !in ys
  }

  /** The two lists have no header in common, and every header of theirs is one of a block. */
  lemma ListsApart(bs: seq<Block>, top: nat, free: bool)
    requires Inv(bs, top)
    ensures Spaced(Starts(bs, free))
    ensures NoCommon(Starts(bs, free), Starts(bs, !free))
    ensures Headers(bs, Starts(bs, free))
  {
    StartsSpaced(bs, 0, top, false, true, free);
    StartsSpaced(bs, 0, top, false, true, !free);
    forall x | x in Starts(bs, free) ensures x !in Starts(bs, !free) {
      if x in Starts(bs, !free) {
        var u :| u in bs && u.start == x && u.free == free;
        var v :| v in bs && v.start == x && v.free == !free;
        BlocksApart(bs, top, u, v);
      }
    }
  }

  ghost predicate Headers(bs: seq<Block>, xs: seq<nat>) {
    forall x :: x in xs ==> exists u :: u in bs && u.start == x
  }

  /** The live block that starts at `s`, or `|bs|`. */
  function Find(bs: seq<Block>, s: nat): (k: nat)
    ensures k <= |bs|
    ensures k < |bs| ==> !bs[k].free && bs[k].start == s
    ensures (exists b :: b in bs && !b.free && b.start == s) ==> k < |bs|
  {
    if bs == [] || (!bs[0].free && bs[0].start == s) then 0 else 1 + Find(bs[1..], s)
  }

  function FreeStart(bs: seq<Block>, s: nat): seq<Block> {
    var k := Find(bs, s);
    if k < |bs| then FreeAt(bs, k) else bs
  }

  /** The sweep over the starts `xs` of live blocks: those whose data address no variable holds are released. */
  function Sweep(bs: seq<Block>, xs: seq<nat>, held: set<int>): seq<Block>
    decreases |xs|
  {
    if xs == [] then bs
    else Sweep(if xs[0] + HEADER in held then bs else FreeStart(bs, xs[0]), xs[1..], held)
  }

  function Gc(bs: seq<Block>, held: set<int>): seq<Block> {
    Sweep(bs, Starts(bs, false), held)
  }

  lemma {:induction false} StartsAppend(x: seq<Block>, y: seq<Block>, free: bool)
    ensures Starts(x + y, free) == Starts(x, free) + Starts(y, free)
    decreases |x|
  {
    if x == [] {
      assert x + y == y;
    } else {
      assert (x + y)[1..] == x[1..] + y;
      StartsAppend(x[1..], y, free);
    }
  }

  /** Increasing, and at least two units apart. */
  ghost predicate Spaced(xs: seq<nat>) {
    forall i, j :: 0 <= i < j < |xs| ==> xs[i] + HEADER <= xs[j]
  }

  lemma {:induction false} StartsSpaced(bs: seq<Block>, a: nat, b: nat, p: bool, q: bool, free: bool)
    requires Seg(bs, a, b, p, q)
    ensures Spaced(Starts(bs, free))
    ensures forall x :: x in Starts(bs, free) ==> a <= x && x + HEADER <= b
    ensures forall x :: x in Starts(bs, free) ==> exists u :: u in bs && u.start == x && u.free == free
    decreases |bs|
  {
    if bs != [] {
      StartsSpaced(bs[1..], bs[0].End(), b, bs[0].free, q, free);
      SegBounds(bs, a, b, p, q);
      var rest := Starts(bs[1..], free);
      assert forall j :: 0 <= j < |rest| ==> rest[j] in rest;
    }
  }

  lemma {:induction false} StartsExact(bs: seq<Block>)
    ensures forall s :: s in Starts(bs, false) <==> exists b :: b in Live(bs) && b.start == s
  {
    if bs != [] {
      StartsExact(bs[1..]);
      assert Live(bs) == (if bs[0].free then {} else {bs[0]}) + Live(bs[1..]);
    }
  }

  lemma FreeStartExact(bs: seq<Block>, top: nat, s: nat)
    requires Inv(bs, top)
    ensures Inv(FreeStart(bs, s), top)
    ensures Live(FreeStart(bs, s)) == set b | b in Live(bs) && b.start != s
  {
    LiveDisjoint(bs, top);
    var k := Find(bs, s);
    if k < |bs| {
      FreeInv(bs, top, k);
      FreeLive(bs, top, k);
      assert bs[k] in Live(bs);
    }
  }

  lemma {:induction false} SweepExact(bs: seq<Block>, top: nat, xs: seq<nat>, held: set<int>)
    requires Inv(bs, top)
    ensures Inv(Sweep(bs, xs, held), top)
    ensures Live(Sweep(bs, xs, held)) == set b | b in Live(bs) && !(b.start in xs && b.Data() !in held)
    decreases |xs|
  {
    hide Inv, Live, FreeStart;
    if xs != [] {
      FreeStartExact(bs, top, xs[0]);
      var next := if xs[0] + HEADER in held then bs else FreeStart(bs, xs[0]);
      SweepExact(next, top, xs[1..], held);
      assert forall s :: s in xs <==> s == xs[0] || s in xs[1..];
    }
  }

  /** Garbage collection releases precisely the live blocks whose data address is held by no
      variable, keeps every other block as it is, and keeps the heap in order. */
  lemma GcExact(bs: seq<Block>, top: nat, held: set<int>)
    requires Inv(bs, top)
    ensures Inv(Gc(bs, held), top)
    ensures Live(Gc(bs, held)) == set b | b in Live(bs) && b.Data() in held
  {
    StartsExact(bs);
    SweepExact(bs, top, Starts(bs, false), held);
  }

  /** There is a free block of at least `m` units. */
  ghost predicate Room(bs: seq<Block>, m: nat) {
    exists b :: b in bs && b.free && b.len >= m
  }

  lemma FreeKeepsRoom(bs: seq<Block>, m: nat, k: nat)
    requires k < |bs| && !bs[k].free && Room(bs, m)
    ensures Room(FreeAt(bs, k), m)
  {
    var b :| b in bs && b.free && b.len >= m;
    var x, z := bs[..k], bs[k + 1..];
    assert bs == x + [bs[k]] + z;
    var merged := MergeBack(MergeFront(x, bs[k]), z);
    assert merged in FreeAt(bs, k);
    if (x != [] && b == x[|x| - 1]) || (z != [] && b == z[0]) {
      assert merged.free && merged.len >= m;
    } else {
      assert b in FreeAt(bs, k) by {
        var i :| 0 <= i < |bs| && bs[i] == b;
        if i < k {
          assert x[..|x| - 1][i] == b;
        } else {
          assert z[1..][i - k - 2] == b;
        }
      }
    }
  }

  lemma {:induction false} SweepKeepsRoom(bs: seq<Block>, xs: seq<nat>, held: set<int>, m: nat)
    requires Room(bs, m)
    ensures Room(Sweep(bs, xs, held), m)
    decreases |xs|
  {
    hide Room, FreeAt;
    if xs != [] {
      if Find(bs, xs[0]) < |bs| {
        FreeKeepsRoom(bs, m, Find(bs, xs[0]));
      }
      SweepKeepsRoom(if xs[0] + HEADER in held then bs else FreeStart(bs, xs[0]), xs[1..], held, m);
    }
  }

  lemma {:induction false} FirstFitIsFirst(bs: seq<Block>, m: nat, i: nat)
    requires i < |bs| && bs[i].free && bs[i].len >= m
    ensures FirstFit(bs, m) <= i
    decreases i
  {
    if i > 0 {
      FirstFitIsFirst(bs[1..], m, i - 1);
    }
  }

  lemma FirstFitExact(bs: seq<Block>, m: nat)
    ensures FirstFit(bs, m) < |bs| <==> Room(bs, m)
  {
    if Room(bs, m) {
      var b :| b in bs && b.free && b.len >= m;
      var i :| 0 <= i < |bs| && bs[i] == b;
      FirstFitIsFirst(bs, m, i);
    }
    if FirstFit(bs, m) < |bs| {
      assert bs[FirstFit(bs, m)] in bs;
    }
  }

  // ----- finsh_heap_allocate -----

  /** The first search wants a remainder with room in it, the one after collecting does not. */
  function Allocate(bs: seq<Block>, n: nat, held: set<int>): (seq<Block>, Option<nat>) {
    var k := FirstFit(bs, n + HEADER + 1);
    if k < |bs| then (AllocAt(bs, k, n), Some(bs[k].Data()))
    else
      var cs := Gc(bs, held);
      var j := FirstFit(cs, n + HEADER);
      if j < |cs| then (AllocAt(cs, j, n), Some(cs[j].Data())) else (cs, None)
  }

  /** The live blocks that survive an allocation: all of them, or after collecting those held. */
  function Kept(bs: seq<Block>, n: nat, held: set<int>): set<Block> {
    if FirstFit(bs, n + HEADER + 1) < |bs| then Live(bs) else set b | b in Live(bs) && b.Data() in held
  }

  /** On success exactly one block is new; it has the size asked for and overlaps no survivor. */
  ghost predicate Granted(bs: seq<Block>, kept: set<Block>, top: nat, n: nat, p: nat) {
    && p >= HEADER
    && var b := Block(p - HEADER, n, false);
      && Live(bs) == kept + {b}
      && b !in kept && b.End() <= top
      && forall c :: c in kept ==> c.End() <= b.start || b.End() <= c.start
  }

  lemma GrantedAt(bs: seq<Block>, top: nat, k: nat, n: nat)
    requires Inv(bs, top) && k < |bs| && bs[k].free && bs[k].len >= n + HEADER
    ensures Inv(AllocAt(bs, k, n), top)
    ensures Granted(AllocAt(bs, k, n), Live(bs), top, n, bs[k].Data())
  {
    AllocInv(bs, top, k, n);
    AllocLive(bs, top, k, n);
    SegAround(bs, top, k);
    forall c | c in Live(bs) ensures c.End() <= bs[k].start || bs[k].End() <= c.start {
      assert bs == bs[..k] + [bs[k]] + bs[k + 1..];
    }
  }

  /** The contract of allocation: the heap stays in order; success grants a new block; failure means
      nothing is granted, and it happens exactly when, after collecting, no free block has room for
      the size and a header. */
  lemma AllocateContract(bs: seq<Block>, top: nat, n: nat, held: set<int>)
    requires Inv(bs, top)
    ensures var (bs', p) := Allocate(bs, n, held);
      && Inv(bs', top)
      && (p.Some? ==> Granted(bs', Kept(bs, n, held), top, n, p.value))
      && (p.None? ==> Live(bs') == Kept(bs, n, held))
      && (p.None? <==> !Room(Gc(bs, held), n + HEADER))
  {
    hide Inv, Live, Granted, Gc, AllocAt;
    GcExact(bs, top, held);
    FirstFitExact(bs, n + HEADER + 1);
    FirstFitExact(Gc(bs, held), n + HEADER);
    var k := FirstFit(bs, n + HEADER + 1);
    if k < |bs| {
      GrantedAt(bs, top, k, n);
      GcKeepsRoom(bs, held, n + HEADER + 1);
    } else if FirstFit(Gc(bs, held), n + HEADER) < |Gc(bs, held)| {
      GrantedAt(Gc(bs, held), top, FirstFit(Gc(bs, held), n + HEADER), n);
    }
  }

  lemma GcKeepsRoom(bs: seq<Block>, held: set<int>, m: nat)
    requires Room(bs, m)
    ensures 0 < m ==> Room(Gc(bs, held), m - 1)
  {
    SweepKeepsRoom(bs, Starts(bs, false), held, m);
  }

  // ----- every run -----

  datatype Request = Ask(n: nat, held: set<int>) | Give(start: nat)

  function Serve(bs: seq<Block>, r: Request): seq<Block> {
    match r
    case Ask(n, held) => Allocate(bs, n, held).0
    case Give(start) => FreeStart(bs, start)
  }

  function ServeAll(bs: seq<Block>, rs: seq<Request>): seq<Block>
    decreases |rs|
  {
    if rs == [] then bs else ServeAll(Serve(bs, rs[0]), rs[1..])
  }

  /** After any sequence of allocations, collections and releases the heap is tiled, coalesced and
      free at its top. */
  lemma {:induction false} RunInv(bs: seq<Block>, top: nat, rs: seq<Request>)
    requires Inv(bs, top)
    ensures Inv(ServeAll(bs, rs), top)
    decreases |rs|
  {
    hide Inv, Allocate, FreeStart;
    if rs != [] {
      match rs[0] {
        case Ask(n, held) => AllocateContract(bs, top, n, held);
        case Give(start) => FreeStartExact(bs, top, start);
      }
      RunInv(Serve(bs, rs[0]), top, rs[1..]);
    }
  }

  /** Releasing what was just allocated without collecting restores the tiling. */
  lemma AllocateThenFree(bs: seq<Block>, top: nat, n: nat, held: set<int>)
    requires Inv(bs, top) && FirstFit(bs, n + HEADER + 1) < |bs|
    ensures var (bs', p) := Allocate(bs, n, held);
      p.Some? && p.value >= HEADER && FreeStart(bs', p.value - HEADER) == bs
  {
    var k := FirstFit(bs, n + HEADER + 1);
    var bs' := AllocAt(bs, k, n);
    AllocInv(bs, top, k, n);
    AllocThenFree(bs, top, k, n);
    var j := Find(bs', bs[k].start);
    assert bs'[k] == Block(bs[k].start, n, false) && bs'[k] in bs';
    if j != k {
      StartsDiffer(bs', top, j, k);
    }
  }

  lemma StartsDiffer(bs: seq<Block>, top: nat, i: nat, j: nat)
    requires Inv(bs, top) && i < |bs| && j < |bs| && i != j
    ensures bs[i].start != bs[j].start
  {
    SegAround(bs, top, i);
    if j < i {
      assert bs[..i][j] == bs[j] && bs[j] in bs[..i];
    } else {
      assert bs[i + 1..][j - i - 1] == bs[j] && bs[j] in bs[i + 1..];
    }
  }
}
