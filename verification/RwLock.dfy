/** The read/write lock (pthread_rwlock.c) with any number of threads, as the steps between which
    the scheduler may switch. The internal mutex and the semaphores below the two condition
    variables are given by their contracts; `readHolds` and `writeHolds` record who was granted
    the lock and has not given it back. */
module RwLock {
  import opened Machine
  import opened Condition

  datatype Result = Success | EBUSY | ETIMEDOUT

  datatype Call = Read(timed: bool) | Write(timed: bool) | TryRead | TryWrite | Unlock

  /** Where a thread is: outside; waiting for the mutex on entry; at the head of the loop with the
      mutex; in the condition wait with the mutex, without it, suspended, or on its way back
      (woken, or timed out); about to release the mutex and return. */
  datatype Pc =
    | Outside
    | Entering(c: Call)
    | Deciding(c: Call)
    | Counted(c: Call)
    | Taking(c: Call)
    | Suspended(c: Call)
    | Returning(c: Call, woken: bool)
    | Leaving(c: Call, result: Result)

  datatype State = State(
    owner: Option<Tid>,
    refcount: int,
    nwaitreaders: nat,
    nwaitwriters: nat,
    condreaders: Sem,
    condwriters: Sem,
    th: map<Tid, Pc>,
    readHolds: multiset<Tid>,
    writeHolds: multiset<Tid>)

  /** A scheduler's choice: a thread calls, makes its next step, or has its wait time out. */
  datatype Event = Start(t: Tid, c: Call) | Run(t: Tid) | Timeout(t: Tid)

  const INIT := State(None, 0, 0, 0, Sem(0, []), Sem(0, []), map[], multiset{}, multiset{})

  function PcOf(s: State, t: Tid): Pc {
    if t in s.th then s.th[t] else Outside
  }

  function Woken(pc: Pc): Pc {
    if pc.Suspended? then Returning(pc.c, true) else pc
  }

  function Wake(th: map<Tid, Pc>, ws: seq<Tid>): map<Tid, Pc> {
    map t | t in th :: if t in ws then Woken(th[t]) else th[t]
  }

  /** `pthread_rwlock_unlock` under the mutex: give the lock back, then prefer waiting writers. */
  function Released(s: State, t: Tid): State {
    if s.refcount > 0 then s.(refcount := s.refcount - 1, readHolds := s.readHolds - multiset{t})
    else if s.refcount == -1 then s.(refcount := 0, writeHolds := s.writeHolds - multiset{t})
    else s
  }

  function Notified(s: State): State {
    if s.nwaitwriters > 0 then
      if s.refcount == 0 then
        var (sem, ws) := Release(s.condwriters);
        s.(condwriters := sem, th := Wake(s.th, ws))
      else s
    else if s.nwaitreaders > 0 then
      var (sem, ws) := Broadcast(s.condreaders);
      s.(condreaders := sem, th := Wake(s.th, ws))
    else s
  }

  function Goto(s: State, t: Tid, pc: Pc): State {
    s.(th := s.th[t := pc])
  }

  /** One turn of the loop, or of the test of a `try` call, with the mutex held. */
  function Decide(s: State, t: Tid, c: Call): State {
    match c
    case Read(_) =>
      if s.refcount < 0 || s.nwaitwriters > 0 then Goto(s.(nwaitreaders := s.nwaitreaders + 1), t, Counted(c))
      else Goto(s.(refcount := s.refcount + 1, readHolds := s.readHolds + multiset{t}), t, Leaving(c, Success))
    case TryRead =>
      if s.refcount < 0 || s.nwaitwriters > 0 then Goto(s, t, Leaving(c, EBUSY))
      else Goto(s.(refcount := s.refcount + 1, readHolds := s.readHolds + multiset{t}), t, Leaving(c, Success))
    case Write(_) =>
      if s.refcount != 0 then Goto(s.(nwaitwriters := s.nwaitwriters + 1), t, Counted(c))
      else Goto(s.(refcount := -1, writeHolds := s.writeHolds + multiset{t}), t, Leaving(c, Success))
    case TryWrite =>
      if s.refcount != 0 then Goto(s, t, Leaving(c, EBUSY))
      else Goto(s.(refcount := -1, writeHolds := s.writeHolds + multiset{t}), t, Leaving(c, Success))
    case Unlock => Goto(Notified(Released(s, t)), t, Leaving(c, Success))
  }

  /** `rt_sem_take`: a token, or a place in the queue. */
  function TakeToken(s: State, t: Tid, c: Call): State {
    var sem := if c.Write? then s.condwriters else s.condreaders;
    var sem' := if sem.value > 0 then sem.(value := sem.value - 1) else sem.(queue := sem.queue + [t]);
    var pc := if sem.value > 0 then Returning(c, true) else Suspended(c);
    Goto(if c.Write? then s.(condwriters := sem') else s.(condreaders := sem'), t, pc)
  }

  function Dequeue(q: seq<Tid>, t: Tid): seq<Tid> {
    if q == [] then [] else if q[0] == t then q[1..] else [q[0]] + Dequeue(q[1..], t)
  }

  /** The step an event makes, if it is possible. Unlocking is only called by a holder. */
  function Next(s: State, e: Event): Option<State> {
    match e
    case Start(t, c) =>
      if PcOf(s, t) != Outside || (c.Unlock? && t !in s.readHolds && t !in s.writeHolds) then None
      else Some(Goto(s, t, Entering(c)))
    case Timeout(t) =>
      match PcOf(s, t) {
        case Suspended(Read(true)) =>
          var sem := s.condreaders.(queue := Dequeue(s.condreaders.queue, t));
          Some(Goto(s.(condreaders := sem), t, Returning(Read(true), false)))
        case Suspended(Write(true)) =>
          var sem := s.condwriters.(queue := Dequeue(s.condwriters.queue, t));
          Some(Goto(s.(condwriters := sem), t, Returning(Write(true), false)))
        case _ => None
      }
    case Run(t) =>
      match PcOf(s, t) {
        case Entering(c) =>
          if s.owner.Some? then None else Some(Goto(s.(owner := Some(t)), t, Deciding(c)))
        case Deciding(c) => Some(Decide(s, t, c))
        case Counted(c) => Some(Goto(s.(owner := None), t, Taking(c)))
        case Taking(c) => Some(TakeToken(s, t, c))
        case Returning(c, woken) =>
          if s.owner.Some? then None
          else
            var s1 := if c.Write? then s.(nwaitwriters := if s.nwaitwriters > 0 then s.nwaitwriters - 1 else 0)
                      else s.(nwaitreaders := if s.nwaitreaders > 0 then s.nwaitreaders - 1 else 0);
            Some(Goto(s1.(owner := Some(t)), t, if woken then Deciding(c) else Leaving(c, ETIMEDOUT)))
        case Leaving(_, _) => Some(Goto(s.(owner := None), t, Outside))
        case _ => None
      }
  }

  /** The state after a history, if every event in it is possible in its turn. */
  function After(s: State, history: seq<Event>): Option<State>
    decreases |history|
  {
    if history == [] then Some(s)
    else match Next(s, history[0]) {
      case None => None
      case Some(s1) => After(s1, history[1..])
    }
  }

  // ----- the invariant -----

  /** Between counting itself as a waiter and counting itself out again. */
  predicate InWindow(pc: Pc, writer: bool) {
    (pc.Counted? || pc.Taking? || pc.Suspended? || pc.Returning?) && pc.c.Write? == writer
  }

  ghost function Window(th: map<Tid, Pc>, writer: bool): set<Tid> {
    set t | t in th && InWindow(th[t], writer)
  }

  predicate HasMutex(pc: Pc) {
    pc.Deciding? || pc.Counted? || pc.Leaving?
  }

  function QueueOf(s: State, writer: bool): seq<Tid> {
    if writer then s.condwriters.queue else s.condreaders.queue
  }

  predicate Holds(s: State, t: Tid) {
    t in s.readHolds || t in s.writeHolds
  }

  /** What is true of each thread: it has the mutex exactly between taking and releasing it; only
      reading and writing calls wait; it is queued exactly while suspended, on the semaphore of its
      kind; on its way to unlock it holds the lock; and a call that is about to return success was granted it. */
  ghost predicate ThreadInv(s: State, t: Tid) {
    var pc := PcOf(s, t);
    && (HasMutex(pc) <==> s.owner == Some(t))
    && (InWindow(pc, true) || InWindow(pc, false) ==> pc.c.Read? || pc.c.Write?)
    && (t in QueueOf(s, true) <==> pc.Suspended? && pc.c.Write?)
    && (t in QueueOf(s, false) <==> pc.Suspended? && !pc.c.Write?)
    && (pc == Entering(Unlock) || pc == Deciding(Unlock) ==> Holds(s, t))
    && (pc.Leaving? && pc.result == Success && (pc.c.Read? || pc.c.TryRead?) ==> t in s.readHolds)
    && (pc.Leaving? && pc.result == Success && (pc.c.Write? || pc.c.TryWrite?) ==> t in s.writeHolds)
  }

  ghost predicate ThreadsInv(s: State) {
    forall t :: ThreadInv(s, t)
  }

  ghost predicate QueuesInv(s: State) {
    && SemValid(s.condreaders) && SemValid(s.condwriters)
    && NoRepeats(s.condreaders.queue) && NoRepeats(s.condwriters.queue)
  }

  ghost predicate NoRepeats(q: seq<Tid>) {
    forall i, j :: 0 <= i < j < |q| ==> q[i] != q[j]
  }

  /** The wait counters count the threads inside their wait windows. */
  ghost predicate CountInv(s: State) {
    && s.nwaitreaders == |Window(s.th, false)|
    && s.nwaitwriters == |Window(s.th, true)|
  }

  /** -1 is exactly one writer and no reader; otherwise the count is the number of readers. */
  ghost predicate HoldInv(s: State) {
    && (s.refcount == -1 <==> |s.writeHolds| == 1 && |s.readHolds| == 0)
    && (s.refcount != -1 ==> |s.writeHolds| == 0 && s.refcount == |s.readHolds|)
  }

  /** A woken writer on its way back to the mutex, or a writer about to test the lock with it. */
  predicate WriterComing(pc: Pc) {
    (pc.Returning? && pc.c.Write? && pc.woken) || (pc.Deciding? && pc.c.Write?)
  }

  /** Whenever the lock is free and a writer waits, a token waits for a writer too, or a woken writer
      is on its way back, or one is just deciding. */
  ghost predicate WakeupInv(s: State) {
    s.refcount == 0 && Window(s.th, true) != {} ==>
      s.condwriters.value > 0 || exists t :: WriterComing(PcOf(s, t))
  }

  ghost predicate Inv(s: State) {
    ThreadsInv(s) && QueuesInv(s) && CountInv(s) && HoldInv(s) && WakeupInv(s)
  }

  // ----- windows -----

  lemma WindowGoto(th: map<Tid, Pc>, t: Tid, pc: Pc, writer: bool)
    ensures Window(th[t := pc], writer)
         == if InWindow(pc, writer) then Window(th, writer) + {t} else Window(th, writer) - {t}
    ensures |Window(th[t := pc], writer)|
         == |Window(th, writer)|
          + (if InWindow(pc, writer) then 1 else 0)
          - (if t in th && InWindow(th[t], writer) then 1 else 0)
  {
    var w := Window(th, writer);
    assert Window(th[t := pc], writer) == if InWindow(pc, writer) then w + {t} else w - {t};
    if t in w {
      assert |w| == |w - {t}| + 1 && w + {t} == w;
    } else {
      assert w - {t} == w && |w + {t}| == |w| + 1;
    }
  }

  lemma WindowWake(th: map<Tid, Pc>, ws: seq<Tid>, writer: bool)
    ensures Window(Wake(th, ws), writer) == Window(th, writer)
  {
  }

  // ----- a step of one thread -----

  /** `s1` treats the other threads as `s` does. */
  ghost predicate SameFor(s: State, s1: State, u: Tid) {
    && PcOf(s1, u) == PcOf(s, u)
    && (s1.owner == Some(u) <==> s.owner == Some(u))
    && (u in QueueOf(s1, true) <==> u in QueueOf(s, true))
    && (u in QueueOf(s1, false) <==> u in QueueOf(s, false))
    && (u in s.readHolds ==> u in s1.readHolds)
    && (u in s.writeHolds ==> u in s1.writeHolds)
  }

  lemma GotoThreads(s: State, s1: State, t: Tid, pc: Pc)
    requires ThreadsInv(s) && ThreadInv(Goto(s1, t, pc), t)
    requires forall u :: u != t ==> SameFor(s, s1, u)
    ensures ThreadsInv(Goto(s1, t, pc))
  {
    forall u ensures ThreadInv(Goto(s1, t, pc), u) {
      assert ThreadInv(s, u);
      if u != t {
        assert SameFor(s, s1, u);
      }
    }
  }

  /** The counters follow the thread into and out of its window. */
  lemma GotoCounts(s: State, s1: State, t: Tid, pc: Pc)
    requires CountInv(s) && s1.th == s.th
    requires s1.nwaitreaders == s.nwaitreaders
      + (if InWindow(pc, false) then 1 else 0) - (if InWindow(PcOf(s, t), false) then 1 else 0)
    requires s1.nwaitwriters == s.nwaitwriters
      + (if InWindow(pc, true) then 1 else 0) - (if InWindow(PcOf(s, t), true) then 1 else 0)
    ensures CountInv(Goto(s1, t, pc))
  {
    WindowGoto(s.th, t, pc, true);
    WindowGoto(s.th, t, pc, false);
  }

  /** No writer that is coming stops coming, and no writer starts to wait while the lock is free. */
  lemma GotoWakeup(s: State, s1: State, t: Tid, pc: Pc)
    requires WakeupInv(s) && s1.th == s.th
    requires s1.refcount == 0 ==> s.refcount == 0
    requires InWindow(pc, true) ==> InWindow(PcOf(s, t), true)
    requires WriterComing(PcOf(s, t)) || s1.condwriters.value < s.condwriters.value ==> WriterComing(pc)
    ensures WakeupInv(Goto(s1, t, pc))
  {
    var s' := Goto(s1, t, pc);
    WindowGoto(s.th, t, pc, true);
    if s.refcount == 0 && Window(s.th, true) != {} {
      if u :| WriterComing(PcOf(s, u)) {
        assert WriterComing(PcOf(s', u)) || (u == t && WriterComing(PcOf(s', t)));
      }
      assert PcOf(s', t) == pc;
    }
  }

  // ----- every event keeps the invariant -----

  lemma InitInv()
    ensures Inv(INIT)
  {
    assert Window(INIT.th, true) == {} && Window(INIT.th, false) == {};
  }

  lemma StartInv(s: State, t: Tid, c: Call, s': State)
    requires Inv(s) && Next(s, Start(t, c)) == Some(s')
    ensures Inv(s')
  {
    assert ThreadInv(s, t);
    GotoThreads(s, s, t, Entering(c));
    GotoCounts(s, s, t, Entering(c));
    GotoWakeup(s, s, t, Entering(c));
  }

  lemma {:induction false} DequeueMember(q: seq<Tid>, t: Tid)
    requires NoRepeats(q)
    ensures forall u :: u in Dequeue(q, t) <==> u in q && u != t
    ensures NoRepeats(Dequeue(q, t))
  {
    if q != [] {
      var rest := q[1..];
      assert forall i, j :: 0 <= i < j < |rest| ==> rest[i] != rest[j] by {
        forall i, j | 0 <= i < j < |rest| ensures rest[i] != rest[j] {
          assert q[i + 1] != q[j + 1];
        }
      }
      DequeueMember(rest, t);
      assert forall u :: u in q <==> u == q[0] || u in rest;
      assert q[0] !in rest;
      if q[0] != t {
        var d := Dequeue(rest, t);
        assert forall j :: 0 <= j < |d| ==> d[j] in d;
      }
    }
  }

  lemma TimeoutInv(s: State, t: Tid, s': State)
    requires Inv(s) && Next(s, Timeout(t)) == Some(s')
    ensures Inv(s')
  {
    assert ThreadInv(s, t);
    var c := PcOf(s, t).c;
    var s1 := if c.Write? then s.(condwriters := s.condwriters.(queue := Dequeue(s.condwriters.queue, t)))
              else s.(condreaders := s.condreaders.(queue := Dequeue(s.condreaders.queue, t)));
    DequeueMember(QueueOf(s, c.Write?), t);
    GotoThreads(s, s1, t, Returning(c, false));
    GotoCounts(s, s1, t, Returning(c, false));
    GotoWakeup(s, s1, t, Returning(c, false));
  }

  /** Steps outside `Decide`. */
  lemma PlainRunInv(s: State, t: Tid, s': State)
    requires Inv(s) && Next(s, Run(t)) == Some(s') && !PcOf(s, t).Deciding?
    ensures Inv(s')
  {
    assert ThreadInv(s, t);
    match PcOf(s, t)
    case Entering(c) =>
      var s1 := s.(owner := Some(t));
      OwnerChanges(s, s1, t);
      GotoThreads(s, s1, t, Deciding(c));
      GotoCounts(s, s1, t, Deciding(c));
      GotoWakeup(s, s1, t, Deciding(c));
    case Counted(c) =>
      var s1 := s.(owner := None);
      OwnerChanges(s, s1, t);
      GotoThreads(s, s1, t, Taking(c));
      GotoCounts(s, s1, t, Taking(c));
      GotoWakeup(s, s1, t, Taking(c));
    case Taking(c) => TakingInv(s, t, c, s');
    case Returning(c, woken) =>
      WindowMember(s, t, c.Write?);
      var s1 := (if c.Write? then s.(nwaitwriters := s.nwaitwriters - 1)
                 else s.(nwaitreaders := s.nwaitreaders - 1)).(owner := Some(t));
      var pc := if woken then Deciding(c) else Leaving(c, ETIMEDOUT);
      OwnerChanges(s, s1, t);
      GotoThreads(s, s1, t, pc);
      GotoCounts(s, s1, t, pc);
      GotoWakeup(s, s1, t, pc);
    case Leaving(c, r) =>
      var s1 := s.(owner := None);
      OwnerChanges(s, s1, t);
      GotoThreads(s, s1, t, Outside);
      GotoCounts(s, s1, t, Outside);
      GotoWakeup(s, s1, t, Outside);
  }

  /** Taking or releasing the mutex concerns no other thread. */
  lemma OwnerChanges(s: State, s1: State, t: Tid)
    requires ThreadsInv(s)
    requires s1.th == s.th && s1.condreaders == s.condreaders && s1.condwriters == s.condwriters
    requires s1.readHolds == s.readHolds && s1.writeHolds == s.writeHolds
    requires (s.owner == None && s1.owner == Some(t)) || (s.owner == Some(t) && s1.owner == None)
    ensures forall u :: u != t ==> SameFor(s, s1, u)
  {
  }

  lemma WindowMember(s: State, t: Tid, writer: bool)
    requires CountInv(s) && InWindow(PcOf(s, t), writer)
    ensures if writer then s.nwaitwriters > 0 else s.nwaitreaders > 0
  {
    assert t in Window(s.th, writer);
  }

  lemma TakingInv(s: State, t: Tid, c: Call, s': State)
    requires Inv(s) && PcOf(s, t) == Taking(c) && s' == TakeToken(s, t, c)
    ensures Inv(s')
  {
    assert ThreadInv(s, t);
    var sem := if c.Write? then s.condwriters else s.condreaders;
    var sem' := if sem.value > 0 then sem.(value := sem.value - 1) else sem.(queue := sem.queue + [t]);
    var pc := if sem.value > 0 then Returning(c, true) else Suspended(c);
    var s1 := if c.Write? then s.(condwriters := sem') else s.(condreaders := sem');
    assert forall u :: u in sem.queue + [t] <==> u in sem.queue || u == t;
    GotoThreads(s, s1, t, pc);
    GotoCounts(s, s1, t, pc);
    GotoWakeup(s, s1, t, pc);
  }

  // ----- the test under the mutex -----

  lemma ReadInv(s: State, t: Tid, c: Call)
    requires Inv(s) && PcOf(s, t) == Deciding(c) && (c.Read? || c.TryRead?)
    ensures Inv(Decide(s, t, c))
  {
    assert ThreadInv(s, t);
    var granted := s.(refcount := s.refcount + 1, readHolds := s.readHolds + multiset{t});
    var busy := s.refcount < 0 || s.nwaitwriters > 0;
    var s1 := if !busy then granted else if c.Read? then s.(nwaitreaders := s.nwaitreaders + 1) else s;
    var pc := if !busy then Leaving(c, Success) else if c.Read? then Counted(c) else Leaving(c, EBUSY);
    GotoThreads(s, s1, t, pc);
    GotoCounts(s, s1, t, pc);
    GotoWakeup(s, s1, t, pc);
  }

  lemma WriteInv(s: State, t: Tid, c: Call)
    requires Inv(s) && PcOf(s, t) == Deciding(c) && (c.Write? || c.TryWrite?)
    ensures Inv(Decide(s, t, c))
  {
    assert ThreadInv(s, t);
    var granted := s.(refcount := -1, writeHolds := s.writeHolds + multiset{t});
    var busy := s.refcount != 0;
    var s1 := if !busy then granted else if c.Write? then s.(nwaitwriters := s.nwaitwriters + 1) else s;
    var pc := if !busy then Leaving(c, Success) else if c.Write? then Counted(c) else Leaving(c, EBUSY);
    GotoThreads(s, s1, t, pc);
    GotoCounts(s, s1, t, pc);
    if busy && c.TryWrite? {
      GotoWakeup(s, s1, t, pc);
    }
  }

  // ----- unlocking -----

  /** Notifying wakes suspended threads only, so it does not matter that the caller moves on first. */
  lemma NotifyCommutes(s: State, t: Tid, c: Call)
    requires !PcOf(s, t).Suspended?
    ensures Goto(Notified(s), t, Leaving(c, Success)) == Notified(Goto(s, t, Leaving(c, Success)))
  {
    forall ws ensures Wake(s.th, ws)[t := Leaving(c, Success)] == Wake(s.th[t := Leaving(c, Success)], ws) {
    }
  }

  /** Everything but the wakeup rule survives giving the lock back. */
  lemma ReleasedInv(s: State, t: Tid)
    requires Inv(s) && PcOf(s, t) == Deciding(Unlock)
    ensures var s' := Goto(Released(s, t), t, Leaving(Unlock, Success));
      ThreadsInv(s') && QueuesInv(s') && CountInv(s') && HoldInv(s')
  {
    assert ThreadInv(s, t);
    var s1 := Released(s, t);
    GotoThreads(s, s1, t, Leaving(Unlock, Success));
    GotoCounts(s, s1, t, Leaving(Unlock, Success));
  }

  lemma WakeThreads(s: State, s1: State, ws: seq<Tid>, writer: bool)
    requires ThreadsInv(s)
    requires s1.owner == s.owner && s1.readHolds == s.readHolds && s1.writeHolds == s.writeHolds
    requires s1.th == Wake(s.th, ws)
    requires QueueOf(s1, !writer) == QueueOf(s, !writer)
    requires forall u :: u in QueueOf(s, writer) <==> u in ws || u in QueueOf(s1, writer)
    requires forall u :: u in ws ==> u !in QueueOf(s1, writer)
    ensures ThreadsInv(s1)
  {
    forall u ensures ThreadInv(s1, u) {
      assert ThreadInv(s, u);
      assert PcOf(s1, u) == if u in ws then Woken(PcOf(s, u)) else PcOf(s, u);
    }
  }

  lemma NotifiedInv(s: State)
    requires ThreadsInv(s) && QueuesInv(s) && CountInv(s) && HoldInv(s)
    requires forall t :: t in s.writeHolds ==> s.refcount == -1
    ensures Inv(Notified(s))
  {
    var s' := Notified(s);
    if s.nwaitwriters > 0 {
      if s.refcount == 0 {
        var q := s.condwriters.queue;
        var (sem, ws) := Release(s.condwriters);
        WindowWake(s.th, ws, true);
        WindowWake(s.th, ws, false);
        QueueHead(q);
        WakeThreads(s, s', ws, true);
        if q != [] {
          assert ThreadInv(s, q[0]);
          assert WriterComing(PcOf(s', q[0]));
        }
      }
    } else if s.nwaitreaders > 0 {
      var (sem, ws) := Broadcast(s.condreaders);
      WindowWake(s.th, ws, true);
      WindowWake(s.th, ws, false);
      WakeThreads(s, s', ws, false);
    }
  }

  lemma QueueHead(q: seq<Tid>)
    requires NoRepeats(q)
    ensures q != [] ==> NoRepeats(q[1..]) && q[0] !in q[1..] && forall u :: u in q <==> u == q[0] || u in q[1..]
  {
    if q != [] {
      forall i, j | 0 <= i < j < |q[1..]| ensures q[1..][i] != q[1..][j] {
        assert q[i + 1] != q[j + 1];
      }
    }
  }

  lemma UnlockInv(s: State, t: Tid)
    requires Inv(s) && PcOf(s, t) == Deciding(Unlock)
    ensures Inv(Decide(s, t, Unlock))
  {
    ReleasedInv(s, t);
    NotifyCommutes(Released(s, t), t, Unlock);
    NotifiedInv(Goto(Released(s, t), t, Leaving(Unlock, Success)));
  }

  // ----- every history -----

  lemma NextInv(s: State, e: Event, s': State)
    requires Inv(s) && Next(s, e) == Some(s')
    ensures Inv(s')
  {
    match e
    case Start(t, c) => StartInv(s, t, c, s');
    case Timeout(t) => TimeoutInv(s, t, s');
    case Run(t) =>
      if PcOf(s, t).Deciding? {
        match PcOf(s, t).c {
          case Read(_) => ReadInv(s, t, PcOf(s, t).c);
          case TryRead => ReadInv(s, t, TryRead);
          case Write(_) => WriteInv(s, t, PcOf(s, t).c);
          case TryWrite => WriteInv(s, t, TryWrite);
          case Unlock => UnlockInv(s, t);
        }
      } else {
        PlainRunInv(s, t, s');
      }
  }

  lemma {:induction false} HistoryInv(s: State, history: seq<Event>)
    requires Inv(s) && After(s, history).Some?
    ensures Inv(After(s, history).value)
    decreases |history|
  {
    if history != [] {
      var s1 := Next(s, history[0]).value;
      NextInv(s, history[0], s1);
      HistoryInv(s1, history[1..]);
    }
  }

  /** Exclusion, whatever the threads and the scheduler did: never two writers, never a writer with a
      reader; the reference count says which; and the wait counters are the threads in their windows. */
  lemma Exclusion(history: seq<Event>)
    requires After(INIT, history).Some?
    ensures var s := After(INIT, history).value;
      && |s.writeHolds| <= 1 && (|s.writeHolds| == 1 ==> |s.readHolds| == 0)
      && (s.refcount == -1 <==> |s.writeHolds| == 1)
      && (s.refcount != -1 ==> s.refcount == |s.readHolds|)
      && s.nwaitreaders == |Window(s.th, false)| && s.nwaitwriters == |Window(s.th, true)|
  {
    InitInv();
    HistoryInv(INIT, history);
  }

  /** A reader is admitted only when no writer holds the lock or waits for it; a writer only when
      nobody holds it. */
  lemma Admission(history: seq<Event>, e: Event)
    requires After(INIT, history).Some? && Next(After(INIT, history).value, e).Some?
    ensures var s := After(INIT, history).value;
      var s' := Next(s, e).value;
      && (|s'.readHolds| > |s.readHolds| ==> Window(s.th, true) == {} && |s.writeHolds| == 0)
      && (|s'.writeHolds| > |s.writeHolds| ==> |s.readHolds| == 0 && |s.writeHolds| == 0)
  {
    InitInv();
    HistoryInv(INIT, history);
    hide Inv, Decide;
    var s := After(INIT, history).value;
    if e.Run? && PcOf(s, e.t).Deciding? {
      DecideAdmits(s, e.t, PcOf(s, e.t).c);
    }
  }

  lemma DecideAdmits(s: State, t: Tid, c: Call)
    requires Inv(s)
    ensures var s' := Decide(s, t, c);
      && (|s'.readHolds| > |s.readHolds| ==> Window(s.th, true) == {} && |s.writeHolds| == 0)
      && (|s'.writeHolds| > |s.writeHolds| ==> |s.readHolds| == 0 && |s.writeHolds| == 0)
  {
    hide ThreadsInv, QueuesInv, WakeupInv;
    if c.Unlock? {
      assert |Released(s, t).readHolds| <= |s.readHolds| && |Released(s, t).writeHolds| <= |s.writeHolds|;
    }
  }

  /** A call that is about to return success holds what it asked for. */
  lemma SuccessHolds(history: seq<Event>, t: Tid)
    requires After(INIT, history).Some?
    ensures var s := After(INIT, history).value;
      var pc := PcOf(s, t);
      pc.Leaving? && pc.result == Success ==>
        && (pc.c.Read? || pc.c.TryRead? ==> t in s.readHolds)
        && (pc.c.Write? || pc.c.TryWrite? ==> t in s.writeHolds)
  {
    InitInv();
    HistoryInv(INIT, history);
    assert ThreadInv(After(INIT, history).value, t);
  }

  /** No wakeup of a writer is lost: in every reachable state with the lock free, the mutex unheld
      and a writer in its wait window, a token is pending for writers or a woken writer is on its
      way to the mutex. */
  lemma NoLostWakeup(history: seq<Event>)
    requires After(INIT, history).Some?
    ensures var s := After(INIT, history).value;
      s.refcount == 0 && s.owner == None && Window(s.th, true) != {} ==>
        s.condwriters.value > 0
        || exists t :: PcOf(s, t).Returning? && PcOf(s, t).c.Write? && PcOf(s, t).woken
  {
    InitInv();
    HistoryInv(INIT, history);
    var s := After(INIT, history).value;
    if s.refcount == 0 && s.owner == None && Window(s.th, true) != {} && s.condwriters.value == 0 {
      var t :| WriterComing(PcOf(s, t));
      assert ThreadInv(s, t);
    }
  }

  // ----- who must be admitted, and what each step of a call does -----

  predicate IsReading(c: Call) {
    c.Read? || c.TryRead?
  }

  predicate IsTry(c: Call) {
    c.TryRead? || c.TryWrite?
  }

  predicate IsTimed(c: Call) {
    (c.Read? || c.Write?) && c.timed
  }

  /** Nobody else is touched. */
  ghost predicate OnlyThread(s: State, s': State, t: Tid) {
    && s'.condreaders == s.condreaders && s'.condwriters == s.condwriters
    && forall u :: u != t ==> PcOf(s', u) == PcOf(s, u)
  }

  /** Whoever tests the lock is granted it if and only if it may be: a reader when no writer holds the lock or
      waits for it, a writer when nobody holds it. A grant is a return with success; without one a try returns
      EBUSY, and any other call counts itself as a waiter. */
  lemma AdmittedExactly(history: seq<Event>, t: Tid, c: Call)
    requires After(INIT, history).Some? && PcOf(After(INIT, history).value, t) == Deciding(c) && !c.Unlock?
    ensures var s := After(INIT, history).value;
      var free := if IsReading(c) then |s.writeHolds| == 0 && Window(s.th, true) == {}
                  else |s.readHolds| == 0 && |s.writeHolds| == 0;
      var next := Next(s, Run(t));
      && next.Some? && var s' := next.value;
      && OnlyThread(s, s', t) && s'.owner == s.owner
      && s'.readHolds == s.readHolds + (if free && IsReading(c) then multiset{t} else multiset{})
      && s'.writeHolds == s.writeHolds + (if free && !IsReading(c) then multiset{t} else multiset{})
      && PcOf(s', t) == if free then Leaving(c, Success) else if IsTry(c) then Leaving(c, EBUSY) else Counted(c)
  {
    InitInv();
    HistoryInv(INIT, history);
    hide ThreadsInv, QueuesInv, WakeupInv;
    var s := After(INIT, history).value;
    assert s.nwaitwriters == 0 <==> Window(s.th, true) == {};
  }

  /** A waiter lets go of the mutex, then takes a token or is suspended behind those that wait already. When
      it has the mutex again it tests the lock anew if it was woken, and returns ETIMEDOUT if it was not. */
  lemma WaitingRound(s: State, t: Tid, s': State)
    requires Next(s, Run(t)) == Some(s') && InWindow(PcOf(s, t), PcOf(s, t).c.Write?)
    ensures s'.readHolds == s.readHolds && s'.writeHolds == s.writeHolds && s'.refcount == s.refcount
    ensures forall u :: u != t ==> PcOf(s', u) == PcOf(s, u)
    ensures match PcOf(s, t)
      case Counted(c) => PcOf(s', t) == Taking(c) && s'.owner == None
      case Taking(c) =>
        var sem := if c.Write? then s.condwriters else s.condreaders;
        var sem' := if c.Write? then s'.condwriters else s'.condreaders;
        if sem.value > 0 then
          sem'.value == sem.value - 1 && sem'.queue == sem.queue && PcOf(s', t) == Returning(c, true)
        else sem' == sem.(queue := sem.queue + [t]) && PcOf(s', t) == Suspended(c)
      case Returning(c, woken) =>
        && s.owner == None && s'.owner == Some(t)
        && PcOf(s', t) == if woken then Deciding(c) else Leaving(c, ETIMEDOUT)
      case _ => false
  {
  }

  /** Only a suspended call with a time limit times out. */
  lemma TimeoutExactly(s: State, t: Tid)
    ensures Next(s, Timeout(t)).Some? <==> PcOf(s, t).Suspended? && IsTimed(PcOf(s, t).c)
    ensures Next(s, Timeout(t)).Some? ==>
      var s' := Next(s, Timeout(t)).value;
      && PcOf(s', t) == Returning(PcOf(s, t).c, false) && (forall u :: u != t ==> PcOf(s', u) == PcOf(s, u))
      && s'.readHolds == s.readHolds && s'.writeHolds == s.writeHolds && s'.owner == s.owner
  {
  }

  /** A call begins by waiting for the mutex and ends by giving it back; neither changes who holds the lock. */
  lemma EntryAndExit(s: State, t: Tid)
    ensures PcOf(s, t).Entering? ==>
      var next := Next(s, Run(t));
      && (next.Some? <==> s.owner == None)
      && (next.Some? ==>
            && PcOf(next.value, t) == Deciding(PcOf(s, t).c) && next.value.owner == Some(t)
            && next.value.(th := s.th, owner := None) == s && OnlyThread(s, next.value, t))
    ensures PcOf(s, t).Leaving? ==>
      var next := Next(s, Run(t));
      && next.Some? && PcOf(next.value, t) == Outside && next.value.owner == None
      && next.value.(th := s.th, owner := s.owner) == s && OnlyThread(s, next.value, t)
  {
  }

  // ----- unlocking -----

  /** Every thread of `ws` has been woken and no other. */
  ghost predicate Woke(s: State, s': State, t: Tid, ws: seq<Tid>) {
    forall u :: u != t ==>
      if u in ws then PcOf(s, u).Suspended? && PcOf(s', u) == Returning(PcOf(s, u).c, true)
      else PcOf(s', u) == PcOf(s, u)
  }

  lemma HoldGivenBack(s: State, t: Tid)
    requires Inv(s) && PcOf(s, t) == Deciding(Unlock)
    ensures var r := Released(s, t);
      && r.readHolds == s.readHolds - multiset{t} && r.writeHolds == s.writeHolds - multiset{t}
      && |r.readHolds| + |r.writeHolds| + 1 == |s.readHolds| + |s.writeHolds|
      && (r.refcount == 0 <==> |r.readHolds| + |r.writeHolds| == 0)
      && r.th == s.th && r.condreaders == s.condreaders && r.condwriters == s.condwriters
  {
    hide QueuesInv, WakeupInv, CountInv;
    assert ThreadInv(s, t);
    if s.refcount == -1 {
      assert t in s.writeHolds && s.readHolds == multiset{};
    } else {
      assert s.writeHolds == multiset{} && t in s.readHolds;
    }
  }

  /** `r` is the state with the hold given back. */
  lemma NotifiedExactly(s: State, r: State, t: Tid)
    requires Inv(s) && PcOf(s, t) == Deciding(Unlock)
    requires r.th == s.th && r.condreaders == s.condreaders && r.condwriters == s.condwriters
    requires r.nwaitreaders == s.nwaitreaders && r.nwaitwriters == s.nwaitwriters
    ensures var n := Notified(r);
      && n.readHolds == r.readHolds && n.writeHolds == r.writeHolds && n.owner == r.owner
      && (if Window(s.th, true) == {} then
            && Woke(s, n, t, s.condreaders.queue) && n.condreaders.queue == [] && n.condwriters == s.condwriters
          else if r.refcount != 0 then OnlyThread(s, n, t)
          else if s.condwriters.queue == [] then
            && Woke(s, n, t, []) && n.condreaders == s.condreaders
            && n.condwriters == Sem(s.condwriters.value + 1, [])
          else
            && Woke(s, n, t, s.condwriters.queue[..1]) && n.condreaders == s.condreaders
            && n.condwriters == s.condwriters.(queue := s.condwriters.queue[1..]))
  {
    hide QueuesInv, WakeupInv, HoldInv;
    assert s.nwaitwriters == 0 <==> Window(s.th, true) == {};
    if s.nwaitwriters == 0 {
      ReadersQueued(s);
    } else if r.refcount == 0 && s.condwriters.queue != [] {
      var head := s.condwriters.queue[0];
      assert ThreadInv(s, head) && s.condwriters.queue[..1] == [head];
    }
  }

  lemma ReadersQueued(s: State)
    requires ThreadsInv(s) && CountInv(s)
    ensures forall u :: u in s.condreaders.queue ==> PcOf(s, u).Suspended?
    ensures s.nwaitreaders == 0 ==> s.condreaders.queue == []
  {
    forall u | u in s.condreaders.queue ensures PcOf(s, u).Suspended? && u in Window(s.th, false) {
      assert ThreadInv(s, u);
    }
    if s.condreaders.queue != [] {
      assert s.condreaders.queue[0] in s.condreaders.queue;
    }
  }

  /** A holder that unlocks gives back exactly one hold of its own and returns with success. If a writer waits
      on the lock it leaves free, the writer suspended longest is woken, or a token is left when none is
      suspended yet; if no writer waits, every suspended reader is woken; otherwise nobody. */
  lemma UnlockExactly(history: seq<Event>, t: Tid)
    requires After(INIT, history).Some? && PcOf(After(INIT, history).value, t) == Deciding(Unlock)
    ensures var s := After(INIT, history).value;
      var next := Next(s, Run(t));
      && next.Some? && var s' := next.value;
      && PcOf(s', t) == Leaving(Unlock, Success) && s'.owner == s.owner
      && s'.readHolds == s.readHolds - multiset{t} && s'.writeHolds == s.writeHolds - multiset{t}
      && |s'.readHolds| + |s'.writeHolds| + 1 == |s.readHolds| + |s.writeHolds|
      && (if Window(s.th, true) == {} then
            && Woke(s, s', t, s.condreaders.queue) && s'.condreaders.queue == [] && s'.condwriters == s.condwriters
          else if |s'.readHolds| + |s'.writeHolds| > 0 then
            OnlyThread(s, s', t)
          else if s.condwriters.queue == [] then
            && Woke(s, s', t, []) && s'.condreaders == s.condreaders
            && s'.condwriters == Sem(s.condwriters.value + 1, [])
          else
            && Woke(s, s', t, s.condwriters.queue[..1]) && s'.condreaders == s.condreaders
            && s'.condwriters == s.condwriters.(queue := s.condwriters.queue[1..]))
  {
    InitInv();
    HistoryInv(INIT, history);
    var s := After(INIT, history).value;
    hide Inv, Released, Notified;
    HoldGivenBack(s, t);
    ReleasedSame(s, t);
    NotifiedExactly(s, Released(s, t), t);
  }

  lemma ReleasedSame(s: State, t: Tid)
    ensures var r := Released(s, t);
      r.nwaitreaders == s.nwaitreaders && r.nwaitwriters == s.nwaitwriters && r.owner == s.owner
  {
  }
}
