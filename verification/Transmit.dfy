/** The transmit path of the DM9000 driver (dm9000a.c): packing a chain of buffers into 16-bit words, and
    the two-deep pipeline between the sender and the completion interrupt. */
module Transmit {
  import opened Machine

  // ----- packing -----

  type Half = x: int | 0 <= x < 0x1_0000

  function Concat(bufs: seq<seq<Byte>>): seq<Byte> {
    if bufs == [] then [] else bufs[0] + Concat(bufs[1..])
  }

  function Joined(lo: Byte, hi: Byte): Half {
    hi * 0x100 + lo
  }

  /** Little-endian 16-bit words; a single byte left over becomes a word of its own. */
  function Pack(bs: seq<Byte>): seq<Half> {
    if |bs| == 0 then []
    else if |bs| == 1 then [bs[0]]
    else [Joined(bs[0], bs[1])] + Pack(bs[2..])
  }

  /** The bytes in a sequence of words. */
  function Unpack(ws: seq<Half>): seq<Byte> {
    if ws == [] then [] else [ws[0] % 0x100, ws[0] / 0x100] + Unpack(ws[1..])
  }

  /** The words determine the bytes: nothing is lost or reordered, and at most one zero is added. */
  lemma {:induction false} UnpackPack(bs: seq<Byte>)
    ensures Unpack(Pack(bs)) == if |bs| % 2 == 0 then bs else bs + [0]
  {
    if |bs| >= 2 {
      UnpackPack(bs[2..]);
      assert Pack(bs)[1..] == Pack(bs[2..]);
      assert bs == [bs[0], bs[1]] + bs[2..];
    }
  }

  lemma {:induction false} PackAppend(a: seq<Byte>, b: seq<Byte>)
    requires |a| % 2 == 0
    ensures Pack(a + b) == Pack(a) + Pack(b)
  {
    if a == [] {
      assert a + b == b;
    } else {
      assert (a + b)[2..] == a[2..] + b;
      PackAppend(a[2..], b);
    }
  }

  lemma PackTwo(a: seq<Byte>, x: Byte, y: Byte)
    requires |a| % 2 == 0
    ensures Pack(a + [x] + [y]) == Pack(a) + [Joined(x, y)]
  {
    hide Joined;
    var b := [x, y];
    assert a + [x] + [y] == a + b;
    assert Pack(b) == [Joined(x, y)] by {
      assert b[2..] == [] && Pack([]) == [];
    }
    hide Pack;
    PackAppend(a, b);
  }

  /** The bytes of the buffers before `q` and the first `i` bytes of buffer `q`. */
  ghost function Sent(bufs: seq<seq<Byte>>, q: nat, i: nat): seq<Byte>
    requires q <= |bufs| && (q < |bufs| ==> i <= |bufs[q]|) && (q == |bufs| ==> i == 0)
  {
    Concat(bufs[..q]) + if q < |bufs| then bufs[q][..i] else []
  }

  lemma {:induction false} ConcatSnoc(bufs: seq<seq<Byte>>, b: seq<Byte>)
    ensures Concat(bufs + [b]) == Concat(bufs) + b
  {
    if bufs == [] {
      assert (bufs + [b])[1..] == [];
    } else {
      assert (bufs + [b])[1..] == bufs[1..] + [b];
      ConcatSnoc(bufs[1..], b);
    }
  }

  lemma NextBuffer(bufs: seq<seq<Byte>>, q: nat)
    requires q < |bufs|
    ensures Sent(bufs, q + 1, 0) == Sent(bufs, q, |bufs[q]|)
  {
    assert bufs[..q + 1] == bufs[..q] + [bufs[q]];
    ConcatSnoc(bufs[..q], bufs[q]);
    assert bufs[q][..|bufs[q]|] == bufs[q];
    if q + 1 < |bufs| {
      assert bufs[q + 1][..0] == [];
    }
  }

  lemma NextByte(bufs: seq<seq<Byte>>, q: nat, i: nat)
    requires q < |bufs| && i < |bufs[q]|
    ensures Sent(bufs, q, i + 1) == Sent(bufs, q, i) + [bufs[q][i]]
  {
    assert bufs[q][..i + 1] == bufs[q][..i] + [bufs[q][i]];
  }

  /** The loop over the buffer chain: the words written depend on the bytes alone, however they are
      divided into buffers. */
  method WritePacket(p: seq<seq<Byte>>) returns (written: seq<Half>)
    ensures written == Pack(Concat(p))
  {
    var word := new Byte[2](_ => 0);
    var word_index := 0;
    var pbuf_index := 0;
    var q := 0;
    written := [];
    ghost var even: seq<Byte> := [];
    while q < |p|
      invariant q <= |p| && (q < |p| ==> pbuf_index <= |p[q]|) && (q == |p| ==> pbuf_index == 0)
      invariant 0 <= word_index < 2 && |even| % 2 == 0 && written == Pack(even)
      invariant Sent(p, q, pbuf_index) == even + if word_index == 1 then [word[0]] else []
      decreases |p| - q, if q < |p| then |p[q]| - pbuf_index else 0
    {
      if pbuf_index < |p[q]| {
        NextByte(p, q, pbuf_index);
        word[word_index] := p[q][pbuf_index];
        pbuf_index := pbuf_index + 1;
        word_index := word_index + 1;
        if word_index == 2 {
          PackTwo(even, word[0], word[1]);
          written := written + [Joined(word[0], word[1])];
          even := even + [word[0]] + [word[1]];
          word_index := 0;
        }
      } else {
        NextBuffer(p, q);
        q := q + 1;
        pbuf_index := 0;
      }
    }
    assert p[..|p|] == p;
    if word_index == 1 {
      PackAppend(even, [word[0]]);
      written := written + [word[0]];
    } else {
      assert even + [] == even;
    }
    assert Concat(p) + [] == Concat(p);
  }

  // ----- the pipeline -----

  /** `packet_cnt` is one byte. */
  const PACKETS: nat := 0x100

  /** `sem_ack`, `packet_cnt`, `queue_packet_len`; the lengths of the packets handed over, of the transmit
      requests made, how many have completed, and how many senders have not yet taken their acknowledgement. */
  datatype Pipe = Pipe(sem_ack: nat, packet_cnt: nat, queue_len: Half,
                       sent: seq<Half>, requests: seq<Half>, completed: nat, waiting: nat)

  const IDLE := Pipe(1, 0, 0, [], [], 0, 0)

  /** A sender hands a packet over with the device locked; a sender takes its acknowledgement; the
      device reports that a packet under way is sent. */
  datatype Event = Enqueue(len: Half) | TakeAck | Complete

  function Next(s: Pipe, e: Event): Option<Pipe> {
    match e
    case Enqueue(len) =>
      var s1 := s.(sent := s.sent + [len], waiting := s.waiting + 1, packet_cnt := (s.packet_cnt + 1) % PACKETS);
      Some(if s.packet_cnt == 0 then s1.(requests := s.requests + [len]) else s1.(queue_len := len))
    case TakeAck =>
      if s.waiting == 0 || s.sem_ack == 0 then None
      else Some(s.(sem_ack := s.sem_ack - 1, waiting := s.waiting - 1))
    case Complete =>
      if s.completed >= |s.requests| then None
      else
        var s1 := s.(completed := s.completed + 1, packet_cnt := (s.packet_cnt + PACKETS - 1) % PACKETS,
                     sem_ack := s.sem_ack + 1);
        Some(if s1.packet_cnt > 0 then s1.(requests := s.requests + [s.queue_len]) else s1)
  }

  function After(s: Pipe, history: seq<Event>): Option<Pipe>
    decreases |history|
  {
    if history == [] then Some(s)
    else match Next(s, history[0]) {
      case None => None
      case Some(s1) => After(s1, history[1..])
    }
  }

  /** No packet is handed over while an earlier sender still waits. */
  predicate Serial(s: Pipe, history: seq<Event>)
    decreases |history|
  {
    history == []
    || (Next(s, history[0]).Some?
        && (history[0].Enqueue? ==> s.waiting == 0)
        && Serial(Next(s, history[0]).value, history[1..]))
  }

  /** Packets handed over and not completed. */
  function UnderWay(s: Pipe): int {
    |s.sent| - s.completed
  }

  /** The counts, whatever the senders do: the acknowledgements given and taken balance the packets under
      way; `packet_cnt` is their number modulo 2^8; and one request is open for every 2^8 of them, begun. */
  ghost predicate Counts(s: Pipe) {
    && UnderWay(s) >= 0
    && s.sem_ack + UnderWay(s) == 1 + s.waiting
    && s.packet_cnt == UnderWay(s) % PACKETS
    && |s.requests| == s.completed + (UnderWay(s) + PACKETS - 1) / PACKETS
  }

  /** The requests made carry the lengths of the packets in the order they were handed over. */
  ghost predicate Fifo(s: Pipe) {
    |s.requests| <= |s.sent| && s.requests == s.sent[..|s.requests|]
  }

  /** Moreover the one queued length is that of every packet still without a request. */
  ghost predicate Matched(s: Pipe) {
    Fifo(s) && forall i :: |s.requests| <= i < |s.sent| ==> s.sent[i] == s.queue_len
  }

  /** A packet that finds another one queued has its length. */
  predicate Matching(s: Pipe, e: Event) {
    e.Enqueue? && UnderWay(s) >= 2 ==> e.len == s.queue_len
  }

  predicate AllMatching(s: Pipe, history: seq<Event>)
    decreases |history|
  {
    history == []
    || (Matching(s, history[0])
        && (Next(s, history[0]).Some? ==> AllMatching(Next(s, history[0]).value, history[1..])))
  }

  /** The last packet handed over is the one whose length is queued, unless it is the only one. */
  ghost predicate LastQueued(s: Pipe) {
    UnderWay(s) >= 2 ==> s.queue_len == s.sent[|s.sent| - 1]
  }

  /** No packet finds 2^8 others under way. */
  predicate Few(s: Pipe, history: seq<Event>)
    decreases |history|
  {
    history == []
    || ((history[0].Enqueue? ==> UnderWay(s) < PACKETS)
        && (Next(s, history[0]).Some? ==> Few(Next(s, history[0]).value, history[1..])))
  }

  /** No further packet is handed over. */
  predicate Settling(history: seq<Event>) {
    forall i :: 0 <= i < |history| ==> !history[i].Enqueue?
  }

  lemma OneMore(w: nat)
    ensures (w % PACKETS + 1) % PACKETS == (w + 1) % PACKETS
    ensures ((w + 1) % PACKETS + PACKETS - 1) % PACKETS == w % PACKETS
    ensures (w + PACKETS) / PACKETS == (w + PACKETS - 1) / PACKETS + if w % PACKETS == 0 then 1 else 0
  {
  }

  lemma EnqueueCounts(s: Pipe, len: Half)
    requires Counts(s)
    ensures Counts(Next(s, Enqueue(len)).value)
  {
    OneMore(UnderWay(s));
    var s' := Next(s, Enqueue(len)).value;
    assert UnderWay(s') == UnderWay(s) + 1;
  }

  lemma CompleteCounts(s: Pipe)
    requires Counts(s) && Next(s, Complete).Some?
    ensures Counts(Next(s, Complete).value)
  {
    assert UnderWay(s) > 0;
    OneMore(UnderWay(s) - 1);
    var s' := Next(s, Complete).value;
    assert UnderWay(s') == UnderWay(s) - 1;
  }

  lemma NextCounts(s: Pipe, e: Event)
    requires Counts(s) && Next(s, e).Some?
    ensures Counts(Next(s, e).value)
  {
    hide Counts;
    match e
    case Enqueue(len) => EnqueueCounts(s, len);
    case TakeAck => TakeCounts(s);
    case Complete => CompleteCounts(s);
  }

  lemma TakeCounts(s: Pipe)
    requires Counts(s) && Next(s, TakeAck).Some?
    ensures Counts(Next(s, TakeAck).value)
  {
  }

  lemma {:induction false} AfterCounts(s: Pipe, history: seq<Event>, s': Pipe)
    requires Counts(s) && After(s, history) == Some(s')
    ensures Counts(s')
    decreases |history|
  {
    hide Next, Counts;
    if history != [] {
      NextCounts(s, history[0]);
      AfterCounts(Next(s, history[0]).value, history[1..], s');
    }
  }

  /** For every history, overlapping or not: the semaphore and the packets under way balance, the byte-wide
      counter holds their number modulo 2^8, and two requests are open at once if and only if more than
      2^8 packets are under way. */
  lemma CountsModulo(history: seq<Event>, s: Pipe)
    requires After(IDLE, history) == Some(s)
    ensures s.sem_ack + UnderWay(s) == 1 + s.waiting && s.packet_cnt == UnderWay(s) % PACKETS
    ensures |s.requests| - s.completed >= 2 <==> UnderWay(s) > PACKETS
  {
    hide After, Next;
    AfterCounts(IDLE, history, s);
  }

  lemma FirstRequested(s: Pipe, len: Half)
    requires Counts(s) && UnderWay(s) == 0
    ensures var s' := Next(s, Enqueue(len)).value; Matched(s') <==> Matched(s)
  {
    var s' := Next(s, Enqueue(len)).value;
    var n := |s.requests|;
    assert s'.sent[..n] == s.sent[..n];
    assert s'.requests[..n] == s.requests && s'.sent[..n + 1] == s.sent[..n] + [len];
    assert s'.sent[..n + 1][..n] == s.sent[..n];
  }

  lemma LaterQueued(s: Pipe, len: Half)
    requires Counts(s) && s.packet_cnt > 0
    ensures var s' := Next(s, Enqueue(len)).value;
      && (Matched(s) && Matching(s, Enqueue(len)) ==> Matched(s'))
      && (Matched(s') && LastQueued(s) ==> Matched(s) && Matching(s, Enqueue(len)))
  {
    var s' := Next(s, Enqueue(len)).value;
    assert s'.sent[|s.sent|] == len && forall i :: 0 <= i < |s.sent| ==> s'.sent[i] == s.sent[i];
    assert s'.sent[..|s.requests|] == s.sent[..|s.requests|] by {
      assert |s.requests| <= |s.sent|;
    }
    if UnderWay(s) >= 2 {
      assert s'.sent[|s.sent| - 1] == s.sent[|s.sent| - 1];
    }
  }

  /** A full multiple of 2^8 packets under way looks like none: the packet is requested out of its turn. */
  lemma WrapRequested(s: Pipe, len: Half)
    requires Counts(s) && s.packet_cnt == 0 && UnderWay(s) > 0 && Matched(s) && Matching(s, Enqueue(len))
    ensures Matched(Next(s, Enqueue(len)).value)
  {
    var s' := Next(s, Enqueue(len)).value;
    var n := |s.requests|;
    assert n < |s.sent| && s.sent[n] == len;
    assert s'.sent[..n + 1] == s.sent[..n] + [len];
  }

  lemma CompleteMatched(s: Pipe)
    requires Counts(s) && Next(s, Complete).Some?
    ensures Matched(Next(s, Complete).value) <==> Matched(s)
  {
    var s' := Next(s, Complete).value;
    var n := |s.requests|;
    if s'.packet_cnt > 0 {
      assert n < |s.sent|;
      assert s'.requests[..n] == s.requests && s'.requests[n] == s.queue_len;
      assert s.sent[..n + 1] == s.sent[..n] + [s.sent[n]];
      assert s.sent[..n + 1][..n] == s.sent[..n];
    }
  }

  lemma NextMatched(s: Pipe, e: Event)
    requires Counts(s) && Next(s, e).Some?
    ensures Matched(s) && Matching(s, e) ==> Matched(Next(s, e).value)
  {
    hide Matched;
    match e
    case Enqueue(len) =>
      if UnderWay(s) == 0 {
        FirstRequested(s, len);
      } else if s.packet_cnt > 0 {
        LaterQueued(s, len);
      } else if Matched(s) && Matching(s, e) {
        WrapRequested(s, len);
      }
    case TakeAck => TakeMatched(s);
    case Complete => CompleteMatched(s);
  }

  lemma TakeMatched(s: Pipe)
    requires Next(s, TakeAck).Some?
    ensures Matched(Next(s, TakeAck).value) <==> Matched(s)
  {
  }

  lemma {:induction false} AfterMatched(s: Pipe, history: seq<Event>, s': Pipe)
    requires Counts(s) && Matched(s) && After(s, history) == Some(s') && AllMatching(s, history)
    ensures Matched(s')
    decreases |history|
  {
    hide Next, Counts, Matched, Matching;
    if history != [] {
      NextCounts(s, history[0]);
      NextMatched(s, history[0]);
      AfterMatched(Next(s, history[0]).value, history[1..], s');
    }
  }

  lemma NextLastQueued(s: Pipe, e: Event)
    requires Counts(s) && LastQueued(s) && Next(s, e).Some? && (e.Enqueue? ==> UnderWay(s) < PACKETS)
    ensures LastQueued(Next(s, e).value)
  {
  }

  /** Below 2^8 packets a match once lost never comes back. */
  lemma NextUnmatched(s: Pipe, e: Event)
    requires Counts(s) && LastQueued(s) && Next(s, e).Some? && (e.Enqueue? ==> UnderWay(s) < PACKETS)
    ensures Matched(Next(s, e).value) ==> Matched(s) && Matching(s, e)
  {
    hide Matched;
    match e
    case Enqueue(len) =>
      if UnderWay(s) == 0 {
        FirstRequested(s, len);
      } else {
        LaterQueued(s, len);
      }
    case TakeAck => TakeMatched(s);
    case Complete => CompleteMatched(s);
  }

  lemma {:induction false} AfterUnmatched(s: Pipe, history: seq<Event>, s': Pipe)
    requires Counts(s) && LastQueued(s) && After(s, history) == Some(s') && Few(s, history) && Matched(s')
    ensures Matched(s) && AllMatching(s, history)
    decreases |history|
  {
    hide Next, Counts, Matched, Matching, LastQueued;
    if history != [] {
      NextCounts(s, history[0]);
      NextLastQueued(s, history[0]);
      NextUnmatched(s, history[0]);
      AfterUnmatched(Next(s, history[0]).value, history[1..], s');
    }
  }

  lemma {:induction false} SettlingMatches(s: Pipe, history: seq<Event>)
    requires Settling(history)
    ensures AllMatching(s, history)
    decreases |history|
  {
    if history != [] && Next(s, history[0]).Some? {
      SettlingMatches(Next(s, history[0]).value, history[1..]);
    }
  }

  /** As many completions as there are packets queued bring every queued length out. */
  lemma {:induction false} Drained(s: Pipe) returns (rest: seq<Event>)
    requires Counts(s)
    ensures Settling(rest) && After(s, rest).Some? && (Fifo(After(s, rest).value) <==> Matched(s))
    decreases UnderWay(s)
  {
    if UnderWay(s) < 2 {
      rest := [];
    } else {
      var s1 := Next(s, Complete).value;
      NextCounts(s, Complete);
      CompleteMatched(s);
      var rest1 := Drained(s1);
      rest := [Complete] + rest1;
      assert rest[1..] == rest1;
    }
  }

  lemma IdleMatched()
    ensures Counts(IDLE) && LastQueued(IDLE) && Matched(IDLE)
  {
    var s := IDLE;
    assert s.sent == [] && s.requests == [];
    assert s.sent[..0] == [];
  }

  /** The device lock does not cover the wait for the acknowledgement, so packets can be handed over while one
      is queued, and its length is overwritten. For every history, overlapping or not: if each packet that
      found one queued had the length already queued, the requests keep the order and the lengths of the
      packets, now and however the packets under way finish. */
  lemma FifoKept(history: seq<Event>, s: Pipe, rest: seq<Event>)
    requires After(IDLE, history) == Some(s) && AllMatching(IDLE, history)
    requires Settling(rest) && After(s, rest).Some?
    ensures Fifo(After(s, rest).value)
  {
    hide After, AllMatching, Next, Counts, Settling, Fifo;
    IdleMatched();
    AfterCounts(IDLE, history, s);
    AfterMatched(IDLE, history, s);
    SettlingMatches(s, rest);
    AfterMatched(s, rest, After(s, rest).value);
  }

  /** While no packet finds 2^8 others under way, that condition is exact. */
  lemma FifoExactly(history: seq<Event>, s: Pipe)
    requires After(IDLE, history) == Some(s) && Few(IDLE, history)
    ensures AllMatching(IDLE, history)
            <==> forall rest :: Settling(rest) && After(s, rest).Some? ==> Fifo(After(s, rest).value)
  {
    hide After, AllMatching, Next, Counts, Settling, Fifo, Few, LastQueued;
    IdleMatched();
    AfterCounts(IDLE, history, s);
    if AllMatching(IDLE, history) {
      forall rest | Settling(rest) && After(s, rest).Some? ensures Fifo(After(s, rest).value) {
        FifoKept(history, s, rest);
      }
    } else {
      var rest := Drained(s);
      if Matched(s) {
        AfterUnmatched(IDLE, history, s);
      }
    }
  }

  /** One completion shows it: while nothing is lost and a packet is queued, a further packet leaves the
      queued one its own length if and only if both have the same. */
  lemma ThirdPacket(s: Pipe, len: Half)
    requires Counts(s) && Matched(s) && 2 <= UnderWay(s) < PACKETS
    ensures var s1 := Next(s, Enqueue(len)).value;
      Next(s1, Complete).Some? && (Fifo(Next(s1, Complete).value) <==> len == s.queue_len)
  {
    var n := |s.requests|;
    var s1 := Next(s, Enqueue(len)).value;
    var s2 := Next(s1, Complete).value;
    assert s2.requests == s.requests + [len];
    assert s2.sent[..n + 1] == s.sent[..n] + [s.sent[n]];
    assert (s.requests + [len])[n] == len && (s.sent[..n] + [s.sent[n]])[n] == s.sent[n];
  }

  // ----- nobody waits for ever -----

  /** While a sender waits, its acknowledgement is there or a packet is under way whose completion gives one. */
  lemma {:induction false} Settled(s: Pipe) returns (rest: seq<Event>)
    requires Counts(s)
    ensures Settling(rest) && After(s, rest).Some?
    ensures var s' := After(s, rest).value; s'.waiting == 0 && UnderWay(s') == 0 && s'.sem_ack == 1
    decreases UnderWay(s) + s.waiting
  {
    hide Counts;
    CountsFacts(s);
    if UnderWay(s) == 0 && s.waiting == 0 {
      rest := [];
    } else {
      var e := if UnderWay(s) > 0 then Complete else TakeAck;
      var s1 := Next(s, e).value;
      NextCounts(s, e);
      var rest1 := Settled(s1);
      rest := [e] + rest1;
      assert rest[1..] == rest1;
    }
  }

  lemma CountsFacts(s: Pipe)
    requires Counts(s)
    ensures UnderWay(s) >= 0 && s.sem_ack + UnderWay(s) == 1 + s.waiting
    ensures UnderWay(s) > 0 ==> s.completed < |s.requests|
  {
  }

  /** After every history the packets under way can complete and all waiting senders take their acknowledgements,
      until the pipeline is as at the beginning: none is left without one. */
  lemma EverySenderLeaves(history: seq<Event>, s: Pipe) returns (rest: seq<Event>)
    requires After(IDLE, history) == Some(s)
    ensures Settling(rest) && After(s, rest).Some?
    ensures var s' := After(s, rest).value;
      s'.waiting == 0 && UnderWay(s') == 0 && s'.sem_ack == 1 && s'.packet_cnt == 0
  {
    hide After, Next, Settling;
    IdleMatched();
    AfterCounts(IDLE, history, s);
    rest := Settled(s);
    AfterCounts(s, rest, After(s, rest).value);
  }

  // ----- senders that do not overlap -----

  lemma {:induction false} SerialMatches(s: Pipe, history: seq<Event>, s': Pipe)
    requires Counts(s) && s.waiting <= 1 && Serial(s, history) && After(s, history) == Some(s')
    ensures AllMatching(s, history) && Counts(s') && s'.waiting <= 1
    decreases |history|
  {
    if history != [] {
      NextCounts(s, history[0]);
      SerialMatches(Next(s, history[0]).value, history[1..], s');
    }
  }

  lemma MatchedFacts(s: Pipe)
    requires Counts(s) && Matched(s) && s.waiting <= 1
    ensures s.sem_ack + s.packet_cnt == if s.waiting == 0 then 1 else 2
    ensures s.packet_cnt == UnderWay(s) <= 2
    ensures Fifo(s)
  {
  }

  /** For senders that do not overlap, whatever the interrupts do: `sem_ack + packet_cnt` is 1 outside a
      call and 2 inside; at most two packets are under way; and the transmit requests carry the lengths of
      the packets in the order they were handed over. */
  lemma Pipeline(history: seq<Event>, s: Pipe)
    requires Serial(IDLE, history) && After(IDLE, history) == Some(s)
    ensures s.sem_ack + s.packet_cnt == if s.waiting == 0 then 1 else 2
    ensures s.packet_cnt == UnderWay(s) <= 2
    ensures Fifo(s)
  {
    hide Serial, After, AllMatching, Next, Fifo, Matched, Counts;
    IdleMatched();
    SerialMatches(IDLE, history, s);
    AfterMatched(IDLE, history, s);
    MatchedFacts(s);
  }

  // ----- overlapping senders -----

  /** Two overlapping senders behind a finished call are enough. */
  lemma OverlapOverwrites()
    ensures var s := After(IDLE, [Enqueue(60), TakeAck, Enqueue(70), Enqueue(80), Complete]);
      s.Some? && s.value.sent == [60, 70, 80] && s.value.requests == [60, 80]
  {
    var h := [Enqueue(60), TakeAck, Enqueue(70), Enqueue(80), Complete];
    var s1 := Next(IDLE, h[0]).value;
    var s2 := Next(s1, h[1]).value;
    var s3 := Next(s2, h[2]).value;
    var s4 := Next(s3, h[3]).value;
    var s5 := Next(s4, h[4]).value;
    assert s5.sent == [60, 70, 80] && s5.requests == [60, 80];
    hide Next;
    assert h[1..][0] == h[1] && h[1..][1..][0] == h[2] && h[1..][1..][1..][0] == h[3];
    assert h[1..][1..][1..][1..][0] == h[4];
    assert After(s5, h[1..][1..][1..][1..][1..]) == Some(s5);
    assert After(s4, h[1..][1..][1..][1..]) == Some(s5);
    assert After(s3, h[1..][1..][1..]) == Some(s5);
    assert After(s2, h[1..][1..]) == Some(s5);
    assert After(s1, h[1..]) == Some(s5);
  }

  // ----- the code -----

  /** The driver's fields, with the packets handed over and the requests made. */
  class Dm9000 {
    var sem_ack: nat
    var packet_cnt: nat
    var queue_packet_len: Half
    var ram: seq<Half>
    ghost var sent: seq<Half>
    var requests: seq<Half>
    ghost var completed: nat
    ghost var waiting: nat

    constructor ()
      ensures Abs() == IDLE && ram == []
    {
      sem_ack, packet_cnt, queue_packet_len, ram := 1, 0, 0, [];
      sent, requests, completed, waiting := [], [], 0, 0;
    }

    ghost function Abs(): Pipe
      reads this
    {
      Pipe(sem_ack, packet_cnt, queue_packet_len, sent, requests, completed, waiting)
    }

    /** Set the length registers and issue the transmit command. */
    method Request(len: Half)
      modifies this`requests
      ensures requests == old(requests) + [len]
    {
      requests := requests + [len];
    }

    /** `rt_dm9000_tx` up to the unlocking of the device. */
    method Tx(p: seq<seq<Byte>>, tot_len: Half)
      modifies this
      ensures Some(Abs()) == Next(old(Abs()), Enqueue(tot_len))
      ensures ram == old(ram) + Pack(Concat(p))
    {
      var words := WritePacket(p);
      ram := ram + words;
      sent, waiting := sent + [tot_len], waiting + 1;
      if packet_cnt == 0 {
        packet_cnt := (packet_cnt + 1) % PACKETS;
        Request(tot_len);
      } else {
        packet_cnt := (packet_cnt + 1) % PACKETS;
        queue_packet_len := tot_len;
      }
    }

    /** The end of `rt_dm9000_tx`, once the semaphore lets it pass. */
    method WaitAck()
      requires sem_ack > 0 && waiting > 0
      modifies this
      ensures Some(Abs()) == Next(old(Abs()), TakeAck)
    {
      sem_ack := sem_ack - 1;
      waiting := waiting - 1;
    }

    /** The transmit branch of `rt_dm9000_isr`. */
    method TransmitDone()
      requires completed < |requests|
      modifies this
      ensures Some(Abs()) == Next(old(Abs()), Complete)
    {
      completed := completed + 1;
      packet_cnt := (packet_cnt + PACKETS - 1) % PACKETS;
      if packet_cnt > 0 {
        Request(queue_packet_len);
      }
      sem_ack := sem_ack + 1;
    }
  }
}
