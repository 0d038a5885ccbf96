/** The copies of string literals (finsh_node.c) in the FinSH heap: when all those of a line are still there
    once the line has been read. No variable changes meanwhile, so a collection keeps nothing new. */
module StringCopies {
  import opened Machine
  import opened HeapSpec

  /** The characters and a terminating zero. */
  function CopyUnits(text: string): nat {
    Units(|text| + 1)
  }

  function CopyBlock(p: nat, text: string): Block
    requires p >= HEADER
  {
    Block(p - HEADER, CopyUnits(text), false)
  }

  /** Every copy is granted, and none of the blocks made before it is collected on the way. */
  ghost predicate AllKept(bs: seq<Block>, made: set<Block>, texts: seq<string>, held: set<int>)
    decreases |texts|
  {
    texts == []
    || (var n := CopyUnits(texts[0]);
        var r := Allocate(bs, n, held);
        && made <= Kept(bs, n, held)
        && r.1.Some?
        && r.1.value >= HEADER
        && AllKept(r.0, made + {CopyBlock(r.1.value, texts[0])}, texts[1..], held))
  }

  function CopyAll(bs: seq<Block>, texts: seq<string>, held: set<int>): seq<Block>
    decreases |texts|
  {
    if texts == [] then bs else CopyAll(Allocate(bs, CopyUnits(texts[0]), held).0, texts[1..], held)
  }

  /** The address each text is granted. */
  function CopyAddresses(bs: seq<Block>, texts: seq<string>, held: set<int>): (ps: seq<Option<nat>>)
    ensures |ps| == |texts|
    decreases |texts|
  {
    if texts == [] then []
    else
      var r := Allocate(bs, CopyUnits(texts[0]), held);
      [r.1] + CopyAddresses(r.0, texts[1..], held)
  }

  predicate HasCopy(bs: seq<Block>, p: Option<nat>, text: string) {
    p.Some? && p.value >= HEADER && CopyBlock(p.value, text) in Live(bs)
  }

  /** Two copies, with a header between them. */
  predicate Clear(p: nat, s: string, q: nat, t: string) {
    p + CopyUnits(s) + HEADER <= q || q + CopyUnits(t) + HEADER <= p
  }

  /** Each copy has a live block of its own at the end. */
  ghost predicate Apart(bs: seq<Block>, texts: seq<string>, held: set<int>) {
    var ps := CopyAddresses(bs, texts, held);
    && (forall k :: 0 <= k < |texts| ==> HasCopy(CopyAll(bs, texts, held), ps[k], texts[k]))
    && (forall j, k :: 0 <= j < k < |texts| ==> Clear(ps[j].value, texts[j], ps[k].value, texts[k]))
  }

  /** No copy needs a collection. */
  predicate Quiet(bs: seq<Block>, texts: seq<string>, held: set<int>)
    decreases |texts|
  {
    texts == []
    || (FirstFit(bs, CopyUnits(texts[0]) + HEADER + 1) < |bs|
        && Quiet(Allocate(bs, CopyUnits(texts[0]), held).0, texts[1..], held))
  }

  /** Every copy is granted, and when one needs a collection, the addresses of all made before are held by
      variables. */
  predicate Careful(bs: seq<Block>, made: set<int>, texts: seq<string>, held: set<int>)
    decreases |texts|
  {
    texts == []
    || (var n := CopyUnits(texts[0]);
        var r := Allocate(bs, n, held);
        && r.1.Some?
        && (FirstFit(bs, n + HEADER + 1) < |bs| || made <= held)
        && Careful(r.0, made + {r.1.value}, texts[1..], held))
  }

  ghost function Addresses(made: set<Block>): set<int> {
    set b | b in made :: b.Data()
  }

  lemma KeptThen(bs: seq<Block>, made: set<Block>, n: nat, held: set<int>)
    requires made <= Live(bs)
    ensures made <= Kept(bs, n, held) <==> FirstFit(bs, n + HEADER + 1) < |bs| || Addresses(made) <= held
  {
    hide FirstFit, Live;
    if made <= Kept(bs, n, held) && FirstFit(bs, n + HEADER + 1) >= |bs| {
      forall a | a in Addresses(made) ensures a in held {
        var b :| b in made && b.Data() == a;
      }
    }
    if Addresses(made) <= held {
      forall b | b in made ensures b in Kept(bs, n, held) {
        assert b.Data() in Addresses(made);
      }
    }
  }

  /** On every heap and whatever the variables hold: no copy of a line's literals is lost if and only if all are
      granted and each collection finds the earlier ones held. */
  lemma {:induction false} KeptExactly(bs: seq<Block>, top: nat, made: set<Block>, texts: seq<string>, held: set<int>)
    requires Inv(bs, top) && made <= Live(bs)
    ensures AllKept(bs, made, texts, held) <==> Careful(bs, Addresses(made), texts, held)
    decreases |texts|
  {
    hide Inv, Live, Allocate, Kept, FirstFit, Addresses, CopyUnits;
    if texts != [] {
      var n := CopyUnits(texts[0]);
      var r := Allocate(bs, n, held);
      AllocateContract(bs, top, n, held);
      KeptThen(bs, made, n, held);
      if r.1.Some? && made <= Kept(bs, n, held) {
        var b := CopyBlock(r.1.value, texts[0]);
        KeptExactly(r.0, top, made + {b}, texts[1..], held);
        AddressesGrow(made, b);
      }
    }
  }

  lemma AddressesGrow(made: set<Block>, b: Block)
    ensures Addresses(made + {b}) == Addresses(made) + {b.Data()}
    ensures Addresses({}) == {}
  {
  }

  /** Then all of them are live at the end, beside those that were made before, and one is new for each
      text. */
  lemma {:induction false} KeptAreLive(bs: seq<Block>, top: nat, made: set<Block>, texts: seq<string>, held: set<int>)
      returns (all: set<Block>)
    requires Inv(bs, top) && made <= Live(bs) && AllKept(bs, made, texts, held)
    ensures made <= all <= Live(CopyAll(bs, texts, held)) && |all| == |made| + |texts|
    ensures Inv(CopyAll(bs, texts, held), top)
    decreases |texts|
  {
    hide Inv, Live, Allocate, Kept, FirstFit;
    all := made;
    if texts != [] {
      var n := CopyUnits(texts[0]);
      AllocateContract(bs, top, n, held);
      var r := Allocate(bs, n, held);
      var b := CopyBlock(r.1.value, texts[0]);
      assert b !in made && |made + {b}| == |made| + 1;
      all := KeptAreLive(r.0, top, made + {b}, texts[1..], held);
    }
  }

  lemma {:induction false} KeptAt(bs: seq<Block>, top: nat, made: set<Block>, texts: seq<string>, held: set<int>)
    requires Inv(bs, top) && made <= Live(bs) && AllKept(bs, made, texts, held)
    ensures Inv(CopyAll(bs, texts, held), top) && made <= Live(CopyAll(bs, texts, held))
    ensures var ps := CopyAddresses(bs, texts, held);
      && (forall k :: 0 <= k < |texts| ==>
            HasCopy(CopyAll(bs, texts, held), ps[k], texts[k]) && CopyBlock(ps[k].value, texts[k]) !in made)
      && (forall j, k :: 0 <= j < k < |texts| ==> CopyBlock(ps[j].value, texts[j]) != CopyBlock(ps[k].value, texts[k]))
    decreases |texts|
  {
    hide Inv, Live, Allocate, Kept, FirstFit;
    if texts != [] {
      var n := CopyUnits(texts[0]);
      AllocateContract(bs, top, n, held);
      var r := Allocate(bs, n, held);
      var b := CopyBlock(r.1.value, texts[0]);
      KeptAt(r.0, top, made + {b}, texts[1..], held);
      var ps, rest := CopyAddresses(bs, texts, held), CopyAddresses(r.0, texts[1..], held);
      assert ps == [r.1] + rest;
    }
  }

  /** Intact copies lie in live blocks that do not overlap. */
  lemma KeptApart(bs: seq<Block>, top: nat, texts: seq<string>, held: set<int>)
    requires Inv(bs, top) && AllKept(bs, {}, texts, held)
    ensures Apart(bs, texts, held)
  {
    hide Inv, Live, AllKept, CopyAll, CopyAddresses;
    KeptAt(bs, top, {}, texts, held);
    LiveDisjoint(CopyAll(bs, texts, held), top);
    var ps := CopyAddresses(bs, texts, held);
    forall j, k | 0 <= j < k < |texts| ensures Clear(ps[j].value, texts[j], ps[k].value, texts[k]) {
      var b, c := CopyBlock(ps[j].value, texts[j]), CopyBlock(ps[k].value, texts[k]);
      assert HasCopy(CopyAll(bs, texts, held), ps[j], texts[j]) && HasCopy(CopyAll(bs, texts, held), ps[k], texts[k]);
      assert b.End() <= c.start || c.End() <= b.start;
    }
  }

  lemma AllocateQuietly(bs: seq<Block>, top: nat, n: nat, held: set<int>)
    requires Inv(bs, top) && FirstFit(bs, n + HEADER + 1) < |bs|
    ensures Allocate(bs, n, held).1.Some? && Kept(bs, n, held) == Live(bs)
  {
  }

  lemma {:induction false} QuietKeeps(bs: seq<Block>, top: nat, made: set<Block>, texts: seq<string>, held: set<int>)
    requires Inv(bs, top) && made <= Live(bs) && Quiet(bs, texts, held)
    ensures AllKept(bs, made, texts, held)
    decreases |texts|
  {
    hide Inv, Live, Allocate, Kept, FirstFit;
    if texts != [] {
      var n := CopyUnits(texts[0]);
      AllocateContract(bs, top, n, held);
      AllocateQuietly(bs, top, n, held);
      var r := Allocate(bs, n, held);
      QuietKeeps(r.0, top, made + {CopyBlock(r.1.value, texts[0])}, texts[1..], held);
    }
  }

  lemma {:induction false} KeepingIsQuiet(bs: seq<Block>, made: set<Block>, b: Block, texts: seq<string>,
      held: set<int>)
    requires b in made && b.Data() !in held && AllKept(bs, made, texts, held)
    ensures Quiet(bs, texts, held)
    decreases |texts|
  {
    hide Live, Allocate, FirstFit, CopyUnits;
    if texts != [] {
      assert b in Kept(bs, CopyUnits(texts[0]), held);
      var r := Allocate(bs, CopyUnits(texts[0]), held);
      KeepingIsQuiet(r.0, made + {CopyBlock(r.1.value, texts[0])}, b, texts[1..], held);
    }
  }

  /** On every heap: the copies of a line's literals are all intact when the line has been read if and only
      if the first is granted and none of the others needs a collection. (The address of the first is
      one that no variable holds already.) */
  lemma CopiesKeptExactly(bs: seq<Block>, top: nat, first: string, rest: seq<string>, held: set<int>)
    requires Inv(bs, top)
    requires Allocate(bs, CopyUnits(first), held).1.Some? ==> Allocate(bs, CopyUnits(first), held).1.value !in held
    ensures AllKept(bs, {}, [first] + rest, held)
            <==> var r := Allocate(bs, CopyUnits(first), held); r.1.Some? && Quiet(r.0, rest, held)
  {
    hide Inv, Live, Allocate, Kept, FirstFit, Quiet, CopyUnits;
    assert ([first] + rest)[1..] == rest;
    AllocateContract(bs, top, CopyUnits(first), held);
    var r := Allocate(bs, CopyUnits(first), held);
    if r.1.Some? {
      var b := CopyBlock(r.1.value, first);
      assert {} + {b} == {b};
      if Quiet(r.0, rest, held) {
        QuietKeeps(r.0, top, {b}, rest, held);
      }
      if AllKept(r.0, {b}, rest, held) {
        KeepingIsQuiet(r.0, {b}, b, rest, held);
      }
    }
  }

  // ----- a heap with one free block -----

  /** The bytes of the copies and their headers, in units. */
  function Total(texts: seq<string>): nat {
    if texts == [] then 0 else CopyUnits(texts[0]) + HEADER + Total(texts[1..])
  }

  /** All blocks but the topmost are live. */
  ghost predicate OneFree(bs: seq<Block>) {
    bs != [] && bs[|bs| - 1].free && forall i :: 0 <= i < |bs| - 1 ==> !bs[i].free
  }

  lemma {:induction false} FirstFitOfOne(bs: seq<Block>, m: nat)
    requires OneFree(bs)
    ensures FirstFit(bs, m) == if bs[|bs| - 1].len >= m then |bs| - 1 else |bs|
  {
    if |bs| > 1 {
      assert OneFree(bs[1..]);
      FirstFitOfOne(bs[1..], m);
    }
  }

  lemma {:induction false} QuietExactly(bs: seq<Block>, texts: seq<string>, held: set<int>)
    requires OneFree(bs) && (texts == [] ==> bs[|bs| - 1].len > 0)
    ensures Quiet(bs, texts, held) <==> Total(texts) < bs[|bs| - 1].len
    decreases |texts|
  {
    hide FirstFit, Gc;
    if texts != [] {
      var n := CopyUnits(texts[0]);
      var k := |bs| - 1;
      FirstFitOfOne(bs, n + HEADER + 1);
      if bs[k].len > n + HEADER {
        var bs' := AllocAt(bs, k, n);
        assert bs' == bs[..k] + SplitBlock(bs[k], n);
        QuietExactly(bs', texts[1..], held);
      }
    }
  }

  /** On the empty heap the first allocation cannot gain by collecting. */
  lemma FirstCopy(n: nat)
    ensures var r := Allocate(InitBlocks(), n, {});
      if n + HEADER <= HEAP_UNITS - HEADER then r == (SplitBlock(InitBlocks()[0], n), Some(HEADER)) else r.1.None?
  {
    var bs := InitBlocks();
    assert Starts(bs, false) == [] by {
      assert bs[1..] == [];
    }
    assert Gc(bs, {}) == bs;
    FirstFitOfOne(bs, n + HEADER + 1);
    FirstFitOfOne(bs, n + HEADER);
    if n + HEADER <= HEAP_UNITS - HEADER {
      assert AllocAt(bs, 0, n) == SplitBlock(bs[0], n);
    }
  }

  lemma {:induction false} TotalOfSome(texts: seq<string>)
    ensures Total(texts) >= (HEADER + 1) * |texts|
    decreases |texts|
  {
    if texts != [] {
      TotalOfSome(texts[1..]);
    }
  }

  /** On the empty heap, with no variable set: all copies of a line's literals are intact if and only if
      there is one only and it has room, or together with a header each they leave a unit of the heap. */
  lemma FreshHeapExactly(texts: seq<string>)
    ensures AllKept(InitBlocks(), {}, texts, {})
            <==> texts == [] || Total(texts) < HEAP_UNITS - HEADER + if |texts| == 1 then 1 else 0
  {
    hide AllKept, Allocate, Quiet, Inv, CopyUnits;
    if texts == [] {
      NothingToKeep();
    } else {
      var n := CopyUnits(texts[0]);
      InitInv();
      FirstCopy(n);
      assert texts == [texts[0]] + texts[1..];
      CopiesKeptExactly(InitBlocks(), HEAP_UNITS, texts[0], texts[1..], {});
      TotalOfSome(texts[1..]);
      if n + HEADER <= HEAP_UNITS - HEADER {
        QuietOfRest(n, texts[1..]);
      }
    }
  }

  lemma NothingToKeep()
    ensures AllKept(InitBlocks(), {}, [], {})
  {
  }

  lemma QuietOfRest(n: nat, texts: seq<string>)
    requires n + HEADER <= HEAP_UNITS - HEADER
    ensures Quiet(SplitBlock(InitBlocks()[0], n), texts, {})
            <==> texts == [] || Total(texts) + n + HEADER < HEAP_UNITS - HEADER
  {
    if texts != [] {
      QuietExactly(SplitBlock(InitBlocks()[0], n), texts, {});
    }
  }

  lemma NothingLive(bs: seq<Block>)
    requires Inv(bs, HEAP_UNITS) && Live(bs) == {}
    ensures bs == InitBlocks()
  {
    assert forall b :: b in bs && !b.free ==> b in Live(bs);
    assert bs[0] in bs && bs[0].free;
    var rest := bs[1..];
    assert Seg(rest, bs[0].End(), HEAP_UNITS, true, true);
    assert bs == [bs[0]];
  }

  /** With no variable set, a copy that needs a collection gets the address of the first one of all: two
      literals of the line become one string. */
  lemma CollectingReuses(bs: seq<Block>, n: nat)
    requires Inv(bs, HEAP_UNITS) && n + HEADER <= HEAP_UNITS - HEADER
    requires FirstFit(bs, n + HEADER + 1) == |bs|
    ensures Allocate(bs, n, {}).1 == Some(HEADER)
  {
    hide Inv, Live, Gc;
    GcExact(bs, HEAP_UNITS, {});
    assert Live(Gc(bs, {})) == {};
    NothingLive(Gc(bs, {}));
    FirstFitOfOne(InitBlocks(), n + HEADER);
  }

  /** Ten literals of one character, which a line can hold, are too many. */
  lemma TenLiterals(texts: seq<string>)
    requires |texts| == 10 && forall i :: 0 <= i < 10 ==> |texts[i]| == 1
    ensures !AllKept(InitBlocks(), {}, texts, {})
  {
    TotalOfSome(texts);
    hide AllKept;
    FreshHeapExactly(texts);
  }
}
