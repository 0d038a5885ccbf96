/** What the copies of string literals hold: `finsh_node_new_string` on the heap as it runs. */
module StringHeap {
  import opened Machine
  import opened Limits
  import opened HeapSpec
  import opened Heap
  import opened StringCopies

  // ----- characters in words -----

  function CharAt(text: string, i: nat): Byte {
    if i < |text| then text[i] as int % 0x100 else 0
  }

  /** The word that holds four characters of a text, or the zeros behind it. */
  function WordAt(text: string, k: nat): Word {
    FromBytes([CharAt(text, 4 * k), CharAt(text, 4 * k + 1), CharAt(text, 4 * k + 2), CharAt(text, 4 * k + 3)], W32)
  }

  function Place(i: nat): nat {
    match i % 4 case 0 => 1 case 1 => 0x100 case 2 => 0x1_0000 case _ => 0x100_0000
  }

  lemma NextChar(text: string, i: nat, k: nat)
    requires i < |text|
    ensures WordAt(text[..i + 1], k)
         == WordAt(text[..i], k) + if k == i / 4 then CharAt(text, i) * Place(i) else 0
  {
    var s, t := text[..i], text[..i + 1];
    assert forall j: nat :: CharAt(t, j) == if j == i then CharAt(text, i) else CharAt(s, j);
    assert CharAt(s, i) == 0;
    assert i == 4 * (i / 4) + i % 4;
  }

  lemma NoChars(k: nat)
    ensures WordAt([], k) == 0
  {
  }

  /** The words of the text stand at `p`, with zeros behind them up to the end of the copy. */
  ghost predicate Holds(h: seq<int>, p: nat, text: string) {
    p + CopyUnits(text) <= |h| && forall k :: 0 <= k < CopyUnits(text) ==> h[p + k] == WordAt(text, k)
  }

  // ----- making a copy -----

  /** One copy made: the heap is what the allocation makes of it, the payloads of all survivors are as they
      were, and the new block holds the text. */
  ghost predicate Copied(h: seq<int>, bs: seq<Block>, h': seq<int>, bs': seq<Block>, text: string, held: set<int>) {
    var n := CopyUnits(text);
    var r := Allocate(bs, n, held);
    && bs' == r.0 && |h'| == HEAP_UNITS
    && KeepsPayloads(h, h', Kept(bs, n, held))
    && (r.1.Some? ==> Holds(h', r.1.value, text))
  }

  /** The allocation and the copying of `finsh_node_new_string`; null when nothing is granted. */
  method NewCopy(heap: FinshHeap, text: string) returns (p: int)
    requires heap.Valid() && heap.variables.Length == VARIABLE_MAX && |text| < SIZE_LIMIT
    modifies heap`freeList, heap`allocateList, heap`blocks, heap.heap
    ensures heap.Valid()
    ensures Copied(old(heap.heap[..]), old(heap.blocks), heap.heap[..], heap.blocks, text, heap.Held())
    ensures var q := Allocate(old(heap.blocks), CopyUnits(text), heap.Held()).1; p == if q.None? then NULL else q.value
  {
    ghost var h, bs, held, n := heap.heap[..], heap.blocks, heap.Held(), CopyUnits(text);
    AllocateContract(bs, HEAP_UNITS, n, held);
    hide Inv, Chain, Lengths, Live, Allocate, Kept, KeepsPayloads, WordAt;
    p := heap.Alloc(|text| + 1);
    if p == NULL {
      return;
    }
    ghost var h1 := heap.heap[..];
    var start: nat := p;
    forall k: nat | k < n ensures h1[start + k] == WordAt(text[..0], k) {
      NoChars(k);
      assert text[..0] == [];
    }
    for i := 0 to |text|
      modifies heap.heap
      invariant forall k: nat :: k < n ==> start + k < heap.heap.Length && heap.heap[start + k] == WordAt(text[..i], k)
      invariant forall a :: 0 <= a < heap.heap.Length && !(start <= a < start + n) ==> heap.heap[a] == h1[a]
    {
      assert i / 4 < n;
      ghost var h2 := heap.heap[..];
      heap.heap[start + i / 4] := heap.heap[start + i / 4] + text[i] as int % 0x100 * Place(i);
      ghost var t := text[..i + 1];
      forall k: nat | k < n ensures heap.heap[start + k] == WordAt(t, k) {
        NextChar(text, i, k);
        assert h2[start + k] == WordAt(text[..i], k);
      }
    }
    assert text[..|text|] == text;
    PayloadWritten(h, h1, heap.heap[..], bs, heap.blocks, heap.freeList, heap.allocateList, n, start, held);
  }

  lemma PayloadWritten(h: seq<int>, h1: seq<int>, h2: seq<int>, bs: seq<Block>, bs': seq<Block>,
                       freeList: int, allocateList: int, n: nat, p: nat, held: set<int>)
    requires |h| == |h1| == |h2| == HEAP_UNITS && Inv(bs', HEAP_UNITS)
    requires Granted(bs', Kept(bs, n, held), HEAP_UNITS, n, p) && KeepsPayloads(h, h1, Kept(bs, n, held))
    requires forall a :: 0 <= a < |h2| && !(p <= a < p + n) ==> h2[a] == h1[a]
    ensures Lengths(h1, bs') ==> Lengths(h2, bs')
    ensures Chain(h1, freeList, Starts(bs', true)) ==> Chain(h2, freeList, Starts(bs', true))
    ensures Chain(h1, allocateList, Starts(bs', false)) ==> Chain(h2, allocateList, Starts(bs', false))
    ensures KeepsPayloads(h, h2, Kept(bs, n, held))
  {
    hide Inv, Chain, Lengths, Kept;
    var b := Block(p - HEADER, n, false);
    assert b in Live(bs') && b in bs';
    KeepHeaders(h1, h2, bs', b, freeList, true);
    KeepHeaders(h1, h2, bs', b, allocateList, false);
    assert Live(bs') - {b} == Kept(bs, n, held);
    KeepsBoth(h, h1, h2, Kept(bs, n, held));
  }

  // ----- all copies of a line -----

  /** The heaps between the copies. */
  ghost predicate Trace(hs: seq<seq<int>>, bs: seq<Block>, texts: seq<string>, held: set<int>)
    decreases |texts|
  {
    && |hs| == |texts| + 1
    && (texts != [] ==>
          var bs' := Allocate(bs, CopyUnits(texts[0]), held).0;
          Copied(hs[0], bs, hs[1], bs', texts[0], held) && Trace(hs[1..], bs', texts[1..], held))
  }

  /** The texts of the copies made so far can be read in their blocks. */
  ghost predicate Readable(h: seq<int>, made: map<Block, string>) {
    forall b :: b in made ==> b.len == CopyUnits(made[b]) && Holds(h, b.Data(), made[b])
  }

  lemma StillReadable(h: seq<int>, h': seq<int>, made: map<Block, string>, live: set<Block>)
    requires Readable(h, made) && made.Keys <= live && KeepsPayloads(h, h', live)
    ensures Readable(h', made)
  {
    hide WordAt, CopyUnits;
    forall b | b in made ensures b.len == CopyUnits(made[b]) && Holds(h', b.Data(), made[b]) {
      forall k | 0 <= k < CopyUnits(made[b]) ensures h'[b.Data() + k] == WordAt(made[b], k) {
        assert b in live && b.Data() <= b.Data() + k < b.End();
      }
    }
  }

  /** If the copies are all kept, every literal of the line can be read at its address when the line has been
      read, whatever was allocated behind it. */
  lemma {:induction false} TextsReadable(hs: seq<seq<int>>, bs: seq<Block>, made: map<Block, string>,
      texts: seq<string>,
                                         held: set<int>)
    requires Inv(bs, HEAP_UNITS) && Trace(hs, bs, texts, held)
    requires Readable(hs[0], made) && AllKept(bs, made.Keys, texts, held)
    ensures var h, ps := hs[|texts|], CopyAddresses(bs, texts, held);
      && Readable(h, made)
      && forall k :: 0 <= k < |texts| ==> ps[k].Some? && Holds(h, ps[k].value, texts[k])
    decreases |texts|
  {
    hide Allocate, Kept, Holds, KeepsPayloads, CopyUnits, Inv;
    if texts != [] {
      var n := CopyUnits(texts[0]);
      var r := Allocate(bs, n, held);
      var b := CopyBlock(r.1.value, texts[0]);
      AllocateContract(bs, HEAP_UNITS, n, held);
      assert b !in made;
      StillReadable(hs[0], hs[1], made, Kept(bs, n, held));
      var made' := made[b := texts[0]];
      assert made'.Keys == made.Keys + {b};
      assert b.Data() == r.1.value;
      TextsReadable(hs[1..], r.0, made', texts[1..], held);
      var h := hs[|texts|];
      assert hs[1..][|texts| - 1] == h;
      var ps, rest := CopyAddresses(bs, texts, held), CopyAddresses(r.0, texts[1..], held);
      assert ps == [r.1] + rest;
      assert made'[b] == texts[0] && Holds(h, b.Data(), texts[0]);
      forall c | c in made ensures c.len == CopyUnits(made[c]) && Holds(h, c.Data(), made[c]) {
        assert c in made';
      }
    }
  }

  // ----- the heap in the machine's memory -----

  /** The machine sees the heap at `base`. */
  ghost predicate InMemory(m: Mem, base: Word, h: seq<int>) {
    forall i :: 0 <= i < |h| && 0 <= h[i] < 0x1_0000_0000 ==> Load(m, Offset(base, HEAP_ALIGNMENT * i), W32) == h[i]
  }

  /** The characters of a text and the zero behind them stand at an address. */
  ghost predicate Spells(m: Mem, a: Word, text: string) {
    forall j: nat :: j <= |text| ==> At(m, Offset(a, j)) == CharAt(text, j)
  }

  lemma SameBytes(b: seq<Byte>, c: seq<Byte>)
    requires |b| == |c| == 4 && FromBytes(b, W32) == FromBytes(c, W32)
    ensures b == c
  {
    SameDigit(b[0], b[1] as int + 0x100 * b[2] as int + 0x1_0000 * b[3] as int,
             c[0], c[1] as int + 0x100 * c[2] as int + 0x1_0000 * c[3] as int);
    SameDigit(b[1], b[2] as int + 0x100 * b[3] as int, c[1], c[2] as int + 0x100 * c[3] as int);
    SameDigit(b[2], b[3], c[2], c[3]);
  }

  lemma SameDigit(a: Byte, rest: int, b: Byte, rest': int)
    ensures a + 0x100 * rest == b + 0x100 * rest' ==> a == b && rest == rest'
  {
  }

  lemma OffsetTwice(base: Word, p: nat, j: nat)
    ensures Offset(Offset(base, HEAP_ALIGNMENT * p), j) == Offset(Offset(base, HEAP_ALIGNMENT * (p + j / 4)), j % 4)
    ensures Offset(base, 0) == base
  {
    assert j == 4 * (j / 4) + j % 4;
    OffsetAdds(base, 4 * p, j);
    OffsetAdds(base, 4 * (p + j / 4), j % 4);
  }

  lemma OffsetAdds(a: Word, i: nat, j: nat)
    ensures Offset(Offset(a, i), j) == Offset(a, i + j)
  {
    var q := (a + i) / 0x1_0000_0000;
    assert a + i + j == Offset(a, i) + j + 0x1_0000_0000 * q;
  }

  lemma HeldSpells(m: Mem, base: Word, h: seq<int>, p: nat, text: string)
    requires Holds(h, p, text) && InMemory(m, base, h)
    ensures Spells(m, Offset(base, HEAP_ALIGNMENT * p), text)
  {
    hide Load, FromBytes, Offset, InMemory;
    forall j: nat | j <= |text| ensures At(m, Offset(Offset(base, HEAP_ALIGNMENT * p), j)) == CharAt(text, j) {
      OneSpelled(m, base, h, p, text, j);
    }
  }

  lemma OneSpelled(m: Mem, base: Word, h: seq<int>, p: nat, text: string, j: nat)
    requires Holds(h, p, text) && InMemory(m, base, h) && j <= |text|
    ensures At(m, Offset(Offset(base, HEAP_ALIGNMENT * p), j)) == CharAt(text, j)
  {
    var k := j / 4;
    var a := Offset(base, HEAP_ALIGNMENT * (p + k));
    assert k < CopyUnits(text) && h[p + k] == WordAt(text, k);
    hide FromBytes, At, CharAt;
    assert Load(m, a, W32) == WordAt(text, k);
    var b := [At(m, a), At(m, Offset(a, 1)), At(m, Offset(a, 2)), At(m, Offset(a, 3))];
    var c := [CharAt(text, 4 * k), CharAt(text, 4 * k + 1), CharAt(text, 4 * k + 2), CharAt(text, 4 * k + 3)];
    SameBytes(b, c);
    OffsetTwice(base, p, j);
    assert Offset(a, 0) == a;
    assert j == 4 * k + j % 4;
    assert b[j % 4] == c[j % 4];
  }
}
