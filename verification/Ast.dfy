/** The parser's syntax tree: a fixed pool of nodes linked by first child and next sibling
    (finsh_node.h, finsh.h), and the forest such links describe. */
module Ast {
  import opened Machine
  import opened Limits

  /** The enumeration `finsh_type`. */
  datatype FinshType =
    | TUnknown | TVoid | TVoidP | TChar | TUChar | TCharP | TShort | TUShort | TShortP
    | TInt | TUInt | TIntP | TLong | TULong | TLongP

  /** What an identifier was resolved to; `addr` is the address of the variable's value.
      `misread` is the address obtained by treating the symbol as a `finsh_var` when it is not one. */
  datatype Symbol =
    | NoSymbol
    | VarSym(ty: FinshType, addr: Word)
    | SysvarSym(ty: FinshType, addr: Word, misread: Word)
    | SyscallSym(func: Word, misread: Word)

  datatype Kind =
    | KUnknown
    | KId | KChar | KInt | KLong | KString | KNull
    | KBin(op: BinOp) | KInvert | KFunc | KAssign
    | KPreInc | KPreDec | KInc | KDec | KGetValue | KGetAddr

  // FINSH_DATA_TYPE_*
  const DT_VOID: nat := 0
  const DT_BYTE: nat := 1
  const DT_WORD: nat := 2
  const DT_DWORD: nat := 3

  function Dt(w: Width): nat {
    match w case W8 => DT_BYTE case W16 => DT_WORD case W32 => DT_DWORD
  }

  function DtWidth(dt: nat): Option<Width> {
    if dt == DT_BYTE then Some(W8) else if dt == DT_WORD then Some(W16)
    else if dt == DT_DWORD then Some(W32) else None
  }

  // ----- the node pool -----

  /** `struct finsh_node`: a pool index stands for a node pointer. */
  datatype NodeRec = NodeRec(kind: Kind, dt: nat, isAddr: bool, value: Word, sym: Symbol,
                             sibling: int, child: int)

  const FREE_NODE := NodeRec(KUnknown, DT_VOID, false, 0, NoSymbol, NULL, NULL)

  /** A finite binary tree of first-child and next-sibling links; `at` is the pool index of its root. */
  datatype Forest =
    | Nil
    | Node(at: nat, kind: Kind, dt: nat, isAddr: bool, value: Word, sym: Symbol,
           child: Forest, next: Forest)

  function Root(f: Forest): int {
    if f.Nil? then NULL else f.at
  }

  /** The records at the forest's indices are exactly its nodes, linked as it says. */
  ghost predicate InPool(pool: seq<NodeRec>, f: Forest) {
    f.Node? ==>
      && f.at < |pool|
      && pool[f.at] == NodeRec(f.kind, f.dt, f.isAddr, f.value, f.sym, Root(f.next), Root(f.child))
      && InPool(pool, f.child)
      && InPool(pool, f.next)
  }

  ghost function Indices(f: Forest): set<nat> {
    if f.Nil? then {} else {f.at} + Indices(f.child) + Indices(f.next)
  }

  /** No node occurs twice: the links neither share nor loop. */
  ghost predicate Distinct(f: Forest) {
    f.Node? ==>
      && f.at !in Indices(f.child) + Indices(f.next)
      && Indices(f.child) !! Indices(f.next)
      && Distinct(f.child)
      && Distinct(f.next)
  }

  function Count(f: Forest): nat {
    if f.Nil? then 0 else 1 + Count(f.child) + Count(f.next)
  }

  /** The number of trees in a sibling chain. */
  function Length(f: Forest): nat {
    if f.Nil? then 0 else 1 + Length(f.next)
  }

  lemma {:induction false} InPoolFrame(pool: seq<NodeRec>, pool': seq<NodeRec>, f: Forest)
    requires InPool(pool, f)
    requires |pool| <= |pool'|
    requires forall i :: i in Indices(f) && i < |pool| ==> pool[i] == pool'[i]
    ensures InPool(pool', f)
  {
    if f.Node? {
      InPoolFrame(pool, pool', f.child);
      InPoolFrame(pool, pool', f.next);
    }
  }

  lemma UnionSize(x: nat, a: set<nat>, b: set<nat>)
    requires a !! b && x !in a + b
    ensures |{x} + a + b| == 1 + |a| + |b|
  {
    assert |a + b| == |a| + |b|;
    assert {x} + a + b == {x} + (a + b);
  }

  lemma {:induction false} CountIsIndices(f: Forest)
    requires Distinct(f)
    ensures |Indices(f)| == Count(f)
  {
    if f.Node? {
      CountIsIndices(f.child);
      CountIsIndices(f.next);
      UnionSize(f.at, Indices(f.child), Indices(f.next));
    }
  }
}
