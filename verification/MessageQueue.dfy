/** POSIX message queues (mqueue.c): the list of queues, their reference counts, and when they are
    freed. Handles are the addresses of list cells; the messages themselves are the kernel's. */
module MessageQueue {
  import opened Machine

  const RT_NAME_MAX: nat := 20

  /** The reference count is a 16-bit number. */
  const COUNTS: nat := 0x1_0000

  datatype Error = EEXIST | ENFILE | ENOENT

  /** `struct mqdes`, with the name of the kernel queue behind it. */
  datatype Mqdes = Mqdes(at: nat, name: string, refcount: nat, unlinked: bool)

  /** The list, newest first; the next address; which handles are open, which queues have been
      unlinked, and which have been freed. */
  datatype Queues = Queues(list: seq<Mqdes>, next: nat, handles: multiset<nat>, unlinked: set<nat>, freed: set<nat>)

  datatype Reply = Handle(at: nat) | Done | Failed(e: Error)

  /** The caller's choices; `memory` tells whether the kernel grants the new queue. Only an open
      handle is closed. */
  datatype Event = Open(name: string, create: bool, excl: bool, memory: bool) | Close(at: nat) | Unlink(name: string)

  const EMPTY := Queues([], 0, multiset{}, {}, {})

  /** Names are compared, and kept, up to `RT_NAME_MAX` characters. */
  function Key(name: string): string {
    if |name| > RT_NAME_MAX then name[..RT_NAME_MAX] else name
  }

  /** `posix_mq_find`: the first queue of that name, or the length of the list. */
  function Find(list: seq<Mqdes>, name: string): (k: nat)
    ensures k <= |list|
  {
    if list == [] || list[0].name == Key(name) then 0 else 1 + Find(list[1..], name)
  }

  function Locate(list: seq<Mqdes>, at: nat): (k: nat)
    ensures k <= |list|
  {
    if list == [] || list[0].at == at then 0 else 1 + Locate(list[1..], at)
  }

  function Removed(q: Queues, k: nat): Queues
    requires k < |q.list|
  {
    q.(list := q.list[..k] + q.list[k + 1..], freed := q.freed + {q.list[k].at})
  }

  function Opened(q: Queues, name: string, create: bool, excl: bool, memory: bool): (Queues, Reply) {
    var k := Find(q.list, name);
    if create then
      if excl && k < |q.list| then (q, Failed(EEXIST))
      else if !memory then (q, Failed(ENFILE))
      else
        var d := Mqdes(q.next, Key(name), 1, false);
        (q.(list := [d] + q.list, next := q.next + 1, handles := q.handles + multiset{q.next}), Handle(q.next))
    else if k < |q.list| then
      var d := q.list[k];
      (q.(list := q.list[k := d.(refcount := (d.refcount + 1) % COUNTS)], handles := q.handles + multiset{d.at}),
          Handle(d.at))
    else (q, Failed(ENOENT))
  }

  function Closed(q: Queues, at: nat): Queues
    requires Locate(q.list, at) < |q.list|
  {
    var k := Locate(q.list, at);
    var d := q.list[k].(refcount := (q.list[k].refcount + COUNTS - 1) % COUNTS);
    var q1 := q.(list := q.list[k := d], handles := q.handles - multiset{at});
    if d.refcount == 0 && d.unlinked then Removed(q1, k) else q1
  }

  function Unlinked(q: Queues, name: string): (Queues, Reply) {
    var k := Find(q.list, name);
    if k < |q.list| then
      var d := q.list[k];
      var q1 := q.(list := q.list[k := d.(unlinked := true)], unlinked := q.unlinked + {d.at});
      (if d.refcount == 0 then Removed(q1, k) else q1, Done)
    else (q, Failed(ENOENT))
  }

  /** The step of an event; closing needs an open handle, to a queue that has not been freed. */
  function Next(q: Queues, e: Event): Option<Queues> {
    match e
    case Open(name, create, excl, memory) => Some(Opened(q, name, create, excl, memory).0)
    case Close(at) =>
      if at in q.handles && Locate(q.list, at) < |q.list| then Some(Closed(q, at)) else None
    case Unlink(name) => Some(Unlinked(q, name).0)
  }

  // ----- the invariant -----

  ghost predicate Listed(q: Queues, at: nat) {
    exists d :: d in q.list && d.at == at
  }

  /** What is true of a queue cell: its count is the low 16 bits of its number of open handles, and its flag
      says whether it has been unlinked. */
  ghost predicate CellInv(q: Queues, d: Mqdes) {
    && d.at < q.next && d.at !in q.freed
    && d.refcount == q.handles[d.at] % COUNTS
    && (d.unlinked <==> d.at in q.unlinked)
  }

  ghost predicate Separate(list: seq<Mqdes>) {
    forall i, j :: 0 <= i < j < |list| ==> list[i].at != list[j].at
  }

  /** Every queue ever created is listed or freed, and it is freed only after it has been unlinked and with a
      count of zero. */
  ghost predicate AddressInv(q: Queues, at: nat) {
    && (at < q.next ==> (Listed(q, at) <==> at !in q.freed))
    && (at in q.freed ==> at in q.unlinked && q.handles[at] % COUNTS == 0)
    && (at >= q.next ==> at !in q.handles && at !in q.freed && at !in q.unlinked)
  }

  ghost predicate Inv(q: Queues) {
    && Separate(q.list)
    && (forall d :: d in q.list ==> CellInv(q, d))
    && forall at: nat :: AddressInv(q, at)
  }

  lemma {:induction false} LocateListed(list: seq<Mqdes>, at: nat)
    requires exists d :: d in list && d.at == at
    ensures Locate(list, at) < |list|
  {
    if list[0].at != at {
      assert forall d :: d in list ==> d == list[0] || d in list[1..];
      LocateListed(list[1..], at);
    }
  }

  lemma {:induction false} LocateFinds(list: seq<Mqdes>, at: nat)
    requires Locate(list, at) < |list|
    ensures list[Locate(list, at)].at == at
  {
    if list[0].at != at {
      LocateFinds(list[1..], at);
    }
  }

  lemma EmptyInv()
    ensures Inv(EMPTY)
  {
  }

  ghost predicate Has(list: seq<Mqdes>, x: Mqdes) {
    x in list
  }

  /** Replacing one cell keeps addresses apart and the other cells. */
  lemma UpdateSeparate(list: seq<Mqdes>, k: nat, d: Mqdes)
    requires Separate(list) && k < |list| && d.at == list[k].at
    ensures Separate(list[k := d])
    ensures forall x :: Has(list[k := d], x) <==> x == d || (Has(list, x) && x.at != d.at)
  {
    forall x ensures Has(list[k := d], x) <==> x == d || (Has(list, x) && x.at != d.at) {
      Replaced(list, k, d, x);
    }
  }

  lemma Replaced(list: seq<Mqdes>, k: nat, d: Mqdes, x: Mqdes)
    requires Separate(list) && k < |list| && d.at == list[k].at
    ensures Has(list[k := d], x) <==> x == d || (Has(list, x) && x.at != d.at)
  {
    var up := list[k := d];
    if x in list && x.at != d.at {
      var i :| 0 <= i < |list| && list[i] == x;
      assert up[i] == x;
    }
    if x in up && x != d {
      var i :| 0 <= i < |up| && up[i] == x;
      assert list[i] == x && i != k;
    }
    assert up[k] == d;
  }

  /** Removing one cell keeps addresses apart and the other cells. */
  lemma RemoveSeparate(list: seq<Mqdes>, k: nat)
    requires Separate(list) && k < |list|
    ensures var rm := list[..k] + list[k + 1..];
      Separate(rm) && forall x :: Has(rm, x) <==> Has(list, x) && x.at != list[k].at
  {
    var rm := list[..k] + list[k + 1..];
    forall i, j | 0 <= i < j < |rm| ensures rm[i].at != rm[j].at {
      var i', j' := if i < k then i else i + 1, if j < k then j else j + 1;
      assert rm[i] == list[i'] && rm[j] == list[j'];
    }
    forall x ensures Has(rm, x) <==> Has(list, x) && x.at != list[k].at {
      TakenOut(list, k, x);
    }
  }

  lemma TakenOut(list: seq<Mqdes>, k: nat, x: Mqdes)
    requires Separate(list) && k < |list|
    ensures Has(list[..k] + list[k + 1..], x) <==> Has(list, x) && x.at != list[k].at
  {
    var rm := list[..k] + list[k + 1..];
    if x in list && x.at != list[k].at {
      var i :| 0 <= i < |list| && list[i] == x;
      assert rm[if i < k then i else i - 1] == x;
    }
    if x in rm {
      var i :| 0 <= i < |rm| && rm[i] == x;
      assert list[if i < k then i else i + 1] == x;
    }
  }

  /** One cell was replaced by `d`, and nothing else about other addresses has changed. */
  lemma ReplaceInv(q: Queues, k: nat, d: Mqdes, q1: Queues)
    requires Inv(q) && k < |q.list| && d.at == q.list[k].at
    requires q1.list == q.list[k := d] && q1.next == q.next && q1.freed == q.freed
    requires forall at :: at != d.at ==> q1.handles[at] == q.handles[at] && (at in q1.unlinked <==> at in q.unlinked)
    requires CellInv(q1, d)
    ensures Inv(q1)
  {
    UpdateSeparate(q.list, k, d);
    assert CellInv(q, q.list[k]);
    forall x | x in q1.list ensures CellInv(q1, x) {
      assert Has(q1.list, x);
      if x != d {
        assert CellInv(q, x);
      }
    }
    forall at: nat ensures AddressInv(q1, at) {
      assert AddressInv(q, at);
      assert q1.list[k] == d;
      if at == d.at {
        assert Listed(q1, at);
      } else if at < q.next && Listed(q, at) {
        var x :| x in q.list && x.at == at;
        assert Has(q1.list, x);
      }
    }
  }

  /** One cell was removed: it had been unlinked, and its count is zero. */
  lemma RemoveInv(q: Queues, k: nat, q1: Queues)
    requires Inv(q) && k < |q.list|
    requires var at := q.list[k].at;
      && q1.list == q.list[..k] + q.list[k + 1..] && q1.next == q.next && q1.freed == q.freed + {at}
      && (forall a :: a != at ==> q1.handles[a] == q.handles[a] && (a in q1.unlinked <==> a in q.unlinked))
      && at in q1.unlinked && q1.handles[at] % COUNTS == 0
    ensures Inv(q1)
  {
    var d := q.list[k];
    RemoveSeparate(q.list, k);
    assert CellInv(q, d);
    forall x | x in q1.list ensures CellInv(q1, x) {
      assert Has(q1.list, x) && CellInv(q, x);
    }
    forall at: nat ensures AddressInv(q1, at) {
      assert AddressInv(q, at);
      if at < q.next && at != d.at && Listed(q, at) {
        var x :| x in q.list && x.at == at;
        assert Has(q1.list, x);
      }
    }
  }

  lemma CreateInv(q: Queues, name: string)
    requires Inv(q)
    ensures Inv(Opened(q, name, true, false, true).0)
  {
    var q1 := Opened(q, name, true, false, true).0;
    var d := q1.list[0];
    assert AddressInv(q, q.next);
    forall x | x in q1.list ensures CellInv(q1, x) {
      if x != d {
        assert CellInv(q, x);
      }
    }
    forall i, j | 0 <= i < j < |q1.list| ensures q1.list[i].at != q1.list[j].at {
      assert CellInv(q, q.list[j - 1]);
    }
    forall at: nat ensures AddressInv(q1, at) {
      assert AddressInv(q, at);
      if at == q.next {
        assert d in q1.list;
      } else if at < q.next && Listed(q, at) {
        var x :| x in q.list && x.at == at;
        assert Has(q1.list, x);
      }
    }
  }

  lemma OpenInv(q: Queues, name: string, create: bool, excl: bool, memory: bool)
    requires Inv(q)
    ensures Inv(Opened(q, name, create, excl, memory).0)
  {
    var k := Find(q.list, name);
    if create {
      CreateInv(q, name);
    } else if k < |q.list| {
      var d := q.list[k];
      assert CellInv(q, d);
      assert AddressInv(q, d.at);
      ReplaceInv(q, k, d.(refcount := (d.refcount + 1) % COUNTS), Opened(q, name, create, excl, memory).0);
    }
  }

  lemma CellOf(q: Queues, k: nat)
    requires Inv(q) && k < |q.list|
    ensures CellInv(q, q.list[k])
  {
  }

  lemma CloseInv(q: Queues, at: nat)
    requires Inv(q) && at in q.handles && Locate(q.list, at) < |q.list|
    ensures Inv(Closed(q, at))
  {
    hide Inv, Listed;
    LocateFinds(q.list, at);
    var k := Locate(q.list, at);
    var d := q.list[k];
    CellOf(q, k);
    var d1 := d.(refcount := (d.refcount + COUNTS - 1) % COUNTS);
    assert d1.refcount == (q.handles[at] - 1) % COUNTS;
    var q1 := Closed(q, at);
    if d1.refcount == 0 && d1.unlinked {
      var list := q.list[k := d1];
      assert list[..k] + list[k + 1..] == q.list[..k] + q.list[k + 1..];
      RemoveInv(q, k, q1);
    } else {
      ReplaceInv(q, k, d1, q1);
    }
  }

  lemma UnlinkInv(q: Queues, name: string)
    requires Inv(q)
    ensures Inv(Unlinked(q, name).0)
  {
    var k := Find(q.list, name);
    if k < |q.list| {
      var d := q.list[k];
      assert CellInv(q, d);
      var q1 := Unlinked(q, name).0;
      if d.refcount == 0 {
        var list := q.list[k := d.(unlinked := true)];
        assert list[..k] + list[k + 1..] == q.list[..k] + q.list[k + 1..];
        RemoveInv(q, k, q1);
      } else {
        ReplaceInv(q, k, d.(unlinked := true), q1);
      }
    }
  }

  lemma NextInv(q: Queues, e: Event)
    requires Inv(q) && Next(q, e).Some?
    ensures Inv(Next(q, e).value)
  {
    hide Inv, Opened, Closed, Unlinked;
    match e
    case Open(name, create, excl, memory) => OpenInv(q, name, create, excl, memory);
    case Close(at) => CloseInv(q, at);
    case Unlink(name) => UnlinkInv(q, name);
  }

  /** The queues after a history, if every handle it closes was open, to a queue not freed. */
  function After(q: Queues, history: seq<Event>): Option<Queues>
    decreases |history|
  {
    if history == [] then Some(q)
    else match Next(q, history[0]) {
      case None => None
      case Some(q1) => After(q1, history[1..])
    }
  }

  lemma {:induction false} HistoryInv(q: Queues, history: seq<Event>, q': Queues)
    requires Inv(q) && After(q, history) == Some(q')
    ensures Inv(q')
    decreases |history|
  {
    hide Inv, Next;
    if history != [] {
      NextInv(q, history[0]);
      HistoryInv(Next(q, history[0]).value, history[1..], q');
    }
  }

  /** After every history: the reference count of a listed queue is its number of open handles modulo 2^16;
      a queue is listed until it is freed; and it is freed only after it has been unlinked, while its
      number of open handles is a multiple of 2^16. */
  lemma CountsModulo(history: seq<Event>, q: Queues, at: nat)
    requires After(EMPTY, history) == Some(q) && at < q.next
    ensures forall d :: d in q.list && d.at == at ==> d.refcount == q.handles[at] % COUNTS
    ensures at in q.freed <==> !Listed(q, at)
    ensures at in q.freed ==> at in q.unlinked && q.handles[at] % COUNTS == 0
  {
    EmptyInv();
    HistoryInv(EMPTY, history, q);
    assert AddressInv(q, at);
    forall d | d in q.list && d.at == at ensures d.refcount == q.handles[at] % COUNTS {
      assert CellInv(q, d);
    }
  }

  // ----- histories with few handles -----

  /** No queue has 2^16 handles open. */
  ghost predicate Few(q: Queues) {
    forall at: nat :: q.handles[at] < COUNTS
  }

  /** No queue ever has, at any point of a history. */
  ghost predicate AlwaysFew(q: Queues, history: seq<Event>)
    decreases |history|
  {
    Few(q) && (history != [] ==> Next(q, history[0]).Some? ==> AlwaysFew(Next(q, history[0]).value, history[1..]))
  }

  /** No listed queue is both unlinked and unused. */
  ghost predicate Swept(q: Queues) {
    forall d :: Has(q.list, d) ==> !(d.unlinked && d.refcount == 0)
  }

  lemma OpenSwept(q: Queues, name: string, create: bool, excl: bool, memory: bool)
    requires Inv(q) && Swept(q) && Few(Opened(q, name, create, excl, memory).0)
    ensures Swept(Opened(q, name, create, excl, memory).0)
  {
    var q1 := Opened(q, name, create, excl, memory).0;
    var k := Find(q.list, name);
    if !create && k < |q.list| {
      var d := q.list[k];
      assert CellInv(q, d);
      var d1 := d.(refcount := (d.refcount + 1) % COUNTS);
      assert q1.handles[d.at] == q.handles[d.at] + 1 < COUNTS;
      UpdateSeparate(q.list, k, d1);
    } else {
      forall d | Has(q1.list, d) ensures !(d.unlinked && d.refcount == 0) {
        assert Has(q.list, d) || d.refcount != 0;
      }
    }
  }

  lemma CloseSwept(q: Queues, at: nat)
    requires Inv(q) && Swept(q) && at in q.handles && Locate(q.list, at) < |q.list|
    ensures Swept(Closed(q, at))
  {
    LocateFinds(q.list, at);
    var k := Locate(q.list, at);
    var d1 := q.list[k].(refcount := (q.list[k].refcount + COUNTS - 1) % COUNTS);
    UpdateSeparate(q.list, k, d1);
    RemoveSeparate(q.list, k);
    var list := q.list[k := d1];
    assert list[..k] + list[k + 1..] == q.list[..k] + q.list[k + 1..];
  }

  lemma UnlinkSwept(q: Queues, name: string)
    requires Inv(q) && Swept(q)
    ensures Swept(Unlinked(q, name).0)
  {
    var k := Find(q.list, name);
    if k < |q.list| {
      var d1 := q.list[k].(unlinked := true);
      UpdateSeparate(q.list, k, d1);
      RemoveSeparate(q.list, k);
      var list := q.list[k := d1];
      assert list[..k] + list[k + 1..] == q.list[..k] + q.list[k + 1..];
    }
  }

  lemma NextSwept(q: Queues, e: Event)
    requires Inv(q) && Swept(q) && Next(q, e).Some? && Few(Next(q, e).value)
    ensures Swept(Next(q, e).value)
  {
    hide Inv, Opened, Closed, Unlinked, Swept, Few;
    match e
    case Open(name, create, excl, memory) => OpenSwept(q, name, create, excl, memory);
    case Close(at) => CloseSwept(q, at);
    case Unlink(name) => UnlinkSwept(q, name);
  }

  lemma {:induction false} HistorySwept(q: Queues, history: seq<Event>, q': Queues)
    requires Inv(q) && Swept(q) && AlwaysFew(q, history) && After(q, history) == Some(q')
    ensures Swept(q') && Few(q')
    decreases |history|
  {
    hide Inv, Next, Swept, Few;
    if history != [] {
      var q1 := Next(q, history[0]).value;
      NextInv(q, history[0]);
      assert Few(q1);
      NextSwept(q, history[0]);
      HistorySwept(q1, history[1..], q');
    }
  }

  /** After every history with balanced handles in which no queue ever has 2^16 of them open: a queue's
      reference count is its number of open handles; it is freed exactly when it has been unlinked and its
      last handle is closed, in either order; and a freed queue is neither listed nor held open. */
  lemma Lifetime(history: seq<Event>, q: Queues, at: nat)
    requires After(EMPTY, history) == Some(q) && AlwaysFew(EMPTY, history) && at < q.next
    ensures at in q.freed <==> at in q.unlinked && at !in q.handles
    ensures at in q.freed <==> !Listed(q, at)
    ensures forall d :: d in q.list && d.at == at ==> d.refcount == q.handles[at]
  {
    EmptyInv();
    HistoryInv(EMPTY, history, q);
    HistorySwept(EMPTY, history, q);
    assert AddressInv(q, at) && q.handles[at] < COUNTS;
    forall d | d in q.list && d.at == at
      ensures d.refcount == q.handles[at] && (d.unlinked <==> at in q.unlinked) && !(d.unlinked && d.refcount == 0)
    {
      assert CellInv(q, d) && Has(q.list, d);
    }
  }

  /** With few handles open every handle can be closed. */
  lemma HandlesCanBeClosed(history: seq<Event>, q: Queues, at: nat)
    requires After(EMPTY, history) == Some(q) && AlwaysFew(EMPTY, history) && at in q.handles
    ensures Next(q, Close(at)).Some?
  {
    EmptyInv();
    HistoryInv(EMPTY, history, q);
    assert AddressInv(q, at);
    Lifetime(history, q, at);
    LocateListed(q.list, at);
  }

  // ----- the wrap -----

  /** One creation and `n` further openings of the same name. */
  ghost function Openings(name: string, n: nat): seq<Event> {
    if n == 0 then [Open(name, true, true, true)] else Openings(name, n - 1) + [Open(name, false, false, true)]
  }

  lemma {:induction false} AfterSnoc(q: Queues, a: seq<Event>, e: Event)
    requires After(q, a).Some?
    ensures After(q, a + [e]) == Next(After(q, a).value, e)
    decreases |a|
  {
    hide Next;
    if a == [] {
      assert ([] + [e])[0] == e && ([] + [e])[1..] == [];
    } else {
      assert (a + [e])[1..] == a[1..] + [e];
      AfterSnoc(Next(q, a[0]).value, a[1..], e);
    }
  }

  /** The only queue, opened `count` times. */
  ghost predicate OneQueue(q: Queues, name: string, count: nat) {
    && q.list == [Mqdes(0, Key(name), count % COUNTS, false)]
    && q.next == 1 && q.handles[0] == count && q.unlinked == {} && q.freed == {}
  }

  lemma FirstOpening(name: string)
    ensures var q := After(EMPTY, Openings(name, 0)); q.Some? && OneQueue(q.value, name, 1)
  {
    hide Key;
    assert Openings(name, 0)[1..] == [];
    assert Find([], name) == 0;
  }

  lemma OneMoreOpening(q: Queues, name: string, count: nat)
    requires OneQueue(q, name, count)
    ensures var q1 := Next(q, Open(name, false, false, true)); q1.Some? && OneQueue(q1.value, name, count + 1)
  {
    hide Key;
    assert Find(q.list, name) == 0;
  }

  lemma {:induction false} OpeningsCount(name: string, n: nat)
    ensures var q := After(EMPTY, Openings(name, n)); q.Some? && OneQueue(q.value, name, n + 1)
  {
    hide OneQueue, Next, After;
    if n == 0 {
      FirstOpening(name);
    } else {
      OpeningsCount(name, n - 1);
      AfterSnoc(EMPTY, Openings(name, n - 1), Open(name, false, false, true));
      OneMoreOpening(After(EMPTY, Openings(name, n - 1)).value, name, n);
    }
  }

  /** The history that breaks the rule: after 2^16 openings the count is zero, and unlinking frees the queue
      under all its open handles. */
  lemma WrapFreesOpenQueue(name: string)
    ensures var q := After(EMPTY, Openings(name, COUNTS - 1) + [Unlink(name)]);
      q.Some? && 0 in q.value.freed && q.value.handles[0] == COUNTS && !Listed(q.value, 0)
  {
    hide Key;
    var h := Openings(name, COUNTS - 1);
    OpeningsCount(name, COUNTS - 1);
    AfterSnoc(EMPTY, h, Unlink(name));
    var q := After(EMPTY, h).value;
    assert Find(q.list, name) == 0;
    assert Unlinked(q, name).0.list == [];
  }

  lemma {:induction false} FindFirst(list: seq<Mqdes>, name: string)
    ensures var k := Find(list, name);
      && (k < |list| ==> list[k].name == Key(name))
      && forall i :: 0 <= i < k ==> list[i].name != Key(name)
  {
    if list != [] && list[0].name != Key(name) {
      FindFirst(list[1..], name);
      var k := Find(list, name);
      forall i | 0 <= i < k ensures list[i].name != Key(name) {
        if i > 0 {
          assert list[i] == list[1..][i - 1];
        }
      }
    }
  }

  /** Exclusive creation succeeds only when no listed queue has that name. */
  lemma ExclusiveCreation(q: Queues, name: string, memory: bool)
    ensures var (q1, r) := Opened(q, name, true, true, memory);
      (r.Handle? <==> memory && forall d :: d in q.list ==> d.name != Key(name))
  {
    FindFirst(q.list, name);
    var k := Find(q.list, name);
    if k < |q.list| {
      assert q.list[k] in q.list;
    }
  }

  /** Another listed queue of the same name. */
  ghost predicate HasTwin(list: seq<Mqdes>, k: nat, name: string)
    requires k < |list|
  {
    exists i :: 0 <= i < |list| && i != k && list[i].name == Key(name)
  }

  lemma {:induction false} FindNone(list: seq<Mqdes>, name: string)
    ensures Find(list, name) == |list| <==> forall i :: 0 <= i < |list| ==> list[i].name != Key(name)
  {
    FindFirst(list, name);
  }

  /** In IEEE Std 1003.1 an unlinked name can no longer be opened. Here opening it fails if and only if the
      queue that was unlinked had a count of zero and no other listed queue has its name. */
  lemma UnlinkedNameGone(q: Queues, name: string)
    requires Find(q.list, name) < |q.list|
    ensures var k := Find(q.list, name);
      Opened(Unlinked(q, name).0, name, false, false, true).1 == Failed(ENOENT)
      <==> q.list[k].refcount == 0 && !HasTwin(q.list, k, name)
  {
    var k := Find(q.list, name);
    FindFirst(q.list, name);
    var d := q.list[k].(unlinked := true);
    var up := q.list[k := d];
    var q1 := Unlinked(q, name).0;
    FindNone(q1.list, name);
    if q.list[k].refcount == 0 {
      var rm := up[..k] + up[k + 1..];
      if HasTwin(q.list, k, name) {
        var i :| 0 <= i < |q.list| && i != k && q.list[i].name == Key(name);
        assert rm[if i < k then i else i - 1] == q.list[i];
      } else {
        forall i | 0 <= i < |rm| ensures rm[i].name != Key(name) {
          assert rm[i] == q.list[if i < k then i else i + 1];
        }
      }
    } else {
      assert up[k].name == Key(name);
    }
  }

  /** What IEEE Std 1003.1 asks of `O_CREAT` without `O_EXCL`: an existing queue is opened. */
  function StandardCreation(q: Queues, name: string, memory: bool): (Queues, Reply) {
    Opened(q, name, Find(q.list, name) == |q.list|, false, memory)
  }

  /** Creation without `O_EXCL` is standard if and only if no listed queue has the name; otherwise it lists a
      second queue of that name, or fails for want of memory. */
  lemma CreationStandard(q: Queues, name: string, memory: bool)
    requires Inv(q)
    ensures Opened(q, name, true, false, memory) == StandardCreation(q, name, memory)
      <==> forall d :: d in q.list ==> d.name != Key(name)
  {
    FindNone(q.list, name);
    if Find(q.list, name) < |q.list| {
      var d := q.list[Find(q.list, name)];
      assert CellInv(q, d) && d in q.list;
      FindFirst(q.list, name);
    }
  }

  // ----- what every call answers -----

  /** The first listed queue of a name stands at `k`. */
  ghost predicate IsFirst(list: seq<Mqdes>, k: nat, name: string) {
    && k < |list| && list[k].name == Key(name)
    && forall i :: 0 <= i < k ==> list[i].name != Key(name)
  }

  ghost predicate IsNamed(q: Queues, name: string) {
    exists d :: d in q.list && d.name == Key(name)
  }

  /** All cells but the one at `k` are the same, and that one is still the same queue. */
  ghost predicate OnlyCell(list: seq<Mqdes>, list': seq<Mqdes>, k: nat) {
    && k < |list| == |list'| && list'[k].at == list[k].at && list'[k].name == list[k].name
    && forall i :: 0 <= i < |list| && i != k ==> list'[i] == list[i]
  }

  lemma FindNamed(q: Queues, name: string)
    ensures var k := Find(q.list, name);
      if IsNamed(q, name) then IsFirst(q.list, k, name) else k == |q.list|
  {
    FindFirst(q.list, name);
    var k := Find(q.list, name);
    if k < |q.list| {
      assert q.list[k] in q.list;
    }
  }

  /** A handle that creation gives out is new: no queue has had its address, and none there was is touched. */
  lemma CreationGives(q: Queues, name: string, excl: bool, memory: bool)
    requires Inv(q)
    ensures var (q1, r) := Opened(q, name, true, excl, memory);
      match r
      case Handle(at) =>
        && memory && !(excl && IsNamed(q, name))
        && at == q.next && at !in q.handles && !Listed(q, at) && at !in q.freed
        && q1.list == [Mqdes(at, Key(name), 1, false)] + q.list && q1.next == at + 1
        && q1.handles == q.handles[at := 1] && q1.unlinked == q.unlinked && q1.freed == q.freed
      case Failed(e) =>
        && q1 == q && e == (if excl && IsNamed(q, name) then EEXIST else ENFILE)
        && ((excl && IsNamed(q, name)) || !memory)
      case Done => false
  {
    FindNamed(q, name);
    assert AddressInv(q, q.next);
    assert q.handles + multiset{q.next} == q.handles[q.next := 1];
  }

  /** A handle that is given out otherwise is that of the first listed queue of the name, whose count goes up;
      without such a queue the answer is ENOENT. */
  lemma OpeningGives(q: Queues, name: string, excl: bool, memory: bool)
    requires Inv(q)
    ensures var (q1, r) := Opened(q, name, false, excl, memory);
      match r
      case Handle(at) =>
        && IsNamed(q, name)
        && (exists k: nat :: IsFirst(q.list, k, name) && q.list[k].at == at && OnlyCell(q.list, q1.list, k)
              && q1.list[k].refcount == (q.list[k].refcount + 1) % COUNTS && q1.list[k].unlinked == q.list[k].unlinked)
        && q1.handles == q.handles[at := q.handles[at] + 1]
        && q1.next == q.next && q1.unlinked == q.unlinked && q1.freed == q.freed
      case Failed(e) => q1 == q && e == ENOENT && !IsNamed(q, name)
      case Done => false
  {
    FindNamed(q, name);
    var k := Find(q.list, name);
    if k < |q.list| {
      var q1 := Opened(q, name, false, excl, memory).0;
      assert OnlyCell(q.list, q1.list, k);
      assert q1.handles == q.handles[q.list[k].at := q.handles[q.list[k].at] + 1];
    }
  }

  /** Unlinking succeeds if and only if a listed queue has the name. It marks the first of them, which goes with
      a count of zero, and touches no handle and no other queue. */
  lemma UnlinkingGives(q: Queues, name: string)
    ensures var (q1, r) := Unlinked(q, name);
      match r
      case Done =>
        && IsNamed(q, name) && q1.handles == q.handles && q1.next == q.next
        && exists k: nat ::
             && IsFirst(q.list, k, name) && q1.unlinked == q.unlinked + {q.list[k].at}
             && if q.list[k].refcount == 0 then
                  q1.list == q.list[..k] + q.list[k + 1..] && q1.freed == q.freed + {q.list[k].at}
                else
                  && OnlyCell(q.list, q1.list, k) && q1.freed == q.freed
                  && q1.list[k].unlinked && q1.list[k].refcount == q.list[k].refcount
      case Failed(e) => q1 == q && e == ENOENT && !IsNamed(q, name)
      case Handle(_) => false
  {
    FindNamed(q, name);
    var k := Find(q.list, name);
    if k < |q.list| {
      var q1 := Unlinked(q, name).0;
      var up := q.list[k := q.list[k].(unlinked := true)];
      assert IsFirst(q.list, k, name);
      if q.list[k].refcount == 0 {
        assert up[..k] == q.list[..k] && up[k + 1..] == q.list[k + 1..];
      } else {
        assert OnlyCell(q.list, q1.list, k);
      }
    }
  }

  /** Closing gives one handle back and touches no other queue; the cell goes if its queue was unlinked and its
      count has come down to zero. */
  lemma ClosingGives(q: Queues, at: nat, q1: Queues)
    requires Inv(q) && Next(q, Close(at)) == Some(q1)
    ensures q1.handles == q.handles[at := q.handles[at] - 1] && q1.next == q.next && q1.unlinked == q.unlinked
    ensures exists k: nat ::
      && k < |q.list| && q.list[k].at == at
      && if q.list[k].refcount == 1 && q.list[k].unlinked then
           q1.list == q.list[..k] + q.list[k + 1..] && q1.freed == q.freed + {at}
         else
           && OnlyCell(q.list, q1.list, k) && q1.freed == q.freed && q1.list[k].unlinked == q.list[k].unlinked
           && (q1.list[k].refcount + 1) % COUNTS == q.list[k].refcount
  {
    LocateFinds(q.list, at);
    var k := Locate(q.list, at);
    assert CellInv(q, q.list[k]);
    var d := q.list[k].(refcount := (q.list[k].refcount + COUNTS - 1) % COUNTS);
    var up := q.list[k := d];
    assert q.handles - multiset{at} == q.handles[at := q.handles[at] - 1];
    assert d.refcount == 0 <==> q.list[k].refcount == 1;
    if d.refcount == 0 && d.unlinked {
      assert up[..k] == q.list[..k] && up[k + 1..] == q.list[k + 1..];
    } else {
      assert OnlyCell(q.list, q1.list, k);
    }
  }

  // ----- the code -----

  class PosixMq {
    var list: seq<Mqdes>
    var fresh_address: nat
    ghost var handles: multiset<nat>
    ghost var unlinked: set<nat>
    ghost var freed: set<nat>

    constructor ()
      ensures Abs() == EMPTY && Inv(Abs())
    {
      list, fresh_address, handles, unlinked, freed := [], 0, multiset{}, {}, {};
    }

    ghost function Abs(): Queues
      reads this
    {
      Queues(list, fresh_address, handles, unlinked, freed)
    }

    /** `posix_mq_find`. */
    method FindQueue(name: string) returns (k: nat)
      ensures k == Find(list, name)
    {
      k := 0;
      while k < |list|
        invariant 0 <= k <= |list| && Find(list, name) == k + Find(list[k..], name)
      {
        if list[k].name == Key(name) {
          return;
        }
        assert list[k..][1..] == list[k + 1..];
        k := k + 1;
      }
    }

    /** `posix_mq_delete`: the cell is searched from the head, unlinked from the list and freed. */
    method Delete(at: nat, ghost k: nat)
      requires k < |list| && list[k].at == at && Separate(list)
      modifies this`list, this`freed
      ensures Abs() == Removed(old(Abs()), k)
    {
      var iter := 0;
      while list[iter].at != at
        invariant 0 <= iter <= k
        decreases k - iter
      {
        iter := iter + 1;
      }
      assert iter == k;
      freed := freed + {at};
      list := list[..iter] + list[iter + 1..];
    }

    /** `mq_open`. */
    method MqOpen(name: string, create: bool, excl: bool, memory: bool) returns (r: Reply)
      requires Inv(Abs())
      modifies this
      ensures Inv(Abs()) && (Abs(), r) == Opened(old(Abs()), name, create, excl, memory)
    {
      OpenInv(Abs(), name, create, excl, memory);
      hide Inv;
      if create {
        if excl {
          var k := FindQueue(name);
          if k < |list| {
            return Failed(EEXIST);
          }
        }
        if !memory {
          return Failed(ENFILE);
        }
        r := Handle(fresh_address);
        list := [Mqdes(fresh_address, Key(name), 1, false)] + list;
        handles := handles + multiset{fresh_address};
        fresh_address := fresh_address + 1;
      } else {
        var k := FindQueue(name);
        if k == |list| {
          return Failed(ENOENT);
        }
        r := Handle(list[k].at);
        handles := handles + multiset{list[k].at};
        list := list[k := list[k].(refcount := (list[k].refcount + 1) % COUNTS)];
      }
    }

    /** `mq_close` on the cell a handle points to. */
    method MqClose(at: nat, k: nat)
      requires Inv(Abs()) && at in handles && k == Locate(list, at) < |list|
      modifies this
      ensures Inv(Abs()) && Some(Abs()) == Next(old(Abs()), Close(at))
    {
      LocateFinds(list, at);
      CloseInv(Abs(), at);
      UpdateSeparate(list, k, list[k].(refcount := (list[k].refcount + COUNTS - 1) % COUNTS));
      hide Inv;
      var d := list[k].(refcount := (list[k].refcount + COUNTS - 1) % COUNTS);
      list := list[k := d];
      handles := handles - multiset{at};
      if d.refcount == 0 {
        if d.unlinked {
          Delete(at, k);
        }
      }
    }

    /** `mq_unlink`. */
    method MqUnlink(name: string) returns (r: Reply)
      requires Inv(Abs())
      modifies this
      ensures Inv(Abs()) && (Abs(), r) == Unlinked(old(Abs()), name)
    {
      UnlinkInv(Abs(), name);
      var k := FindQueue(name);
      if k == |list| {
        return Failed(ENOENT);
      }
      UpdateSeparate(list, k, list[k].(unlinked := true));
      hide Inv;
      var d := list[k];
      list := list[k := d.(unlinked := true)];
      unlinked := unlinked + {d.at};
      if d.refcount == 0 {
        Delete(d.at, k);
      }
      r := Done;
    }
  }
}
