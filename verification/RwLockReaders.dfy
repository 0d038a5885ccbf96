/** What becomes of waiting readers of the read/write lock (pthread_rwlock.c): when their wakeup is kept, and
    the one way in which it is lost. */
module RwLockReaders {
  import opened Machine
  import opened Condition
  import opened RwLock

  /** A woken reader on its way back to the mutex, or a reader or writer about to test the lock with it. */
  predicate ReaderComing(pc: Pc) {
    (pc.Returning? && pc.c.Read? && pc.woken) || (pc.Deciding? && (pc.c.Read? || pc.c.Write?))
  }

  /** Whenever the lock is free, no writer waits and readers do, a token waits for a reader, or somebody is
      coming who takes the lock. */
  ghost predicate ReadersWakeup(s: State) {
    s.refcount == 0 && Window(s.th, true) == {} && Window(s.th, false) != {} ==>
      s.condreaders.value > 0 || exists t :: ReaderComing(PcOf(s, t))
  }

  /** The last waiting writer gives up on a free lock that nobody else is coming for, and leaves without
      waking the readers that waited behind it. */
  ghost predicate Forsakes(s: State, e: Event) {
    && e.Run? && PcOf(s, e.t).Returning? && PcOf(s, e.t).c.Write? && !PcOf(s, e.t).woken
    && s.refcount == 0 && Window(s.th, true) == {e.t} && Window(s.th, false) != {}
    && s.condreaders.value == 0 && forall t :: !ReaderComing(PcOf(s, t))
  }

  // ----- steps -----

  /** The rule survives a step that frees no lock, adds no waiting reader, takes no waiting writer away
      except to the test of the lock, and uses up no token or comer except for a comer. */
  lemma GotoReaders(s: State, s1: State, t: Tid, pc: Pc)
    requires ReadersWakeup(s) && s1.th == s.th
    requires s1.refcount == 0 ==> s.refcount == 0
    requires InWindow(pc, false) ==> InWindow(PcOf(s, t), false)
    requires InWindow(PcOf(s, t), true) ==> InWindow(pc, true) || ReaderComing(pc)
    requires ReaderComing(PcOf(s, t)) || s1.condreaders.value < s.condreaders.value ==> ReaderComing(pc)
    ensures ReadersWakeup(Goto(s1, t, pc))
  {
    var s' := Goto(s1, t, pc);
    WindowGoto(s.th, t, pc, true);
    WindowGoto(s.th, t, pc, false);
    assert PcOf(s', t) == pc;
    if s.refcount == 0 && Window(s.th, true) == {} && Window(s.th, false) != {} {
      if u :| ReaderComing(PcOf(s, u)) {
        assert ReaderComing(PcOf(s', u)) || (u == t && ReaderComing(PcOf(s', t)));
      }
    }
  }

  lemma DecideReaders(s: State, t: Tid, c: Call)
    requires Inv(s) && ReadersWakeup(s) && PcOf(s, t) == Deciding(c) && !c.Unlock?
    ensures ReadersWakeup(Decide(s, t, c))
  {
    hide ThreadsInv, QueuesInv, WakeupInv;
    var s' := Decide(s, t, c);
    WindowGoto(s.th, t, PcOf(s', t), true);
    if s'.refcount == 0 && s.nwaitwriters == 0 {
      GotoReaders(s, s, t, Leaving(c, EBUSY));
    }
  }

  lemma NotifiedReaders(s: State)
    requires CountInv(s)
    ensures ReadersWakeup(Notified(s))
  {
    if s.nwaitwriters > 0 {
      var ws := if s.refcount == 0 then Release(s.condwriters).1 else [];
      WindowWake(s.th, ws, true);
    } else if s.nwaitreaders == 0 {
      assert Window(s.th, false) == {};
    }
  }

  lemma UnlockReaders(s: State, t: Tid)
    requires Inv(s) && PcOf(s, t) == Deciding(Unlock)
    ensures ReadersWakeup(Decide(s, t, Unlock))
  {
    ReleasedInv(s, t);
    NotifyCommutes(Released(s, t), t, Unlock);
    hide ThreadsInv, QueuesInv, WakeupInv, Inv, CountInv, ReadersWakeup, Notified, Released;
    NotifiedReaders(Goto(Released(s, t), t, Leaving(Unlock, Success)));
  }

  /** Steps other than those of `Decide`. */
  lemma PlainReaders(s: State, t: Tid, s': State)
    requires Inv(s) && ReadersWakeup(s) && Next(s, Run(t)) == Some(s') && !PcOf(s, t).Deciding?
    ensures ReadersWakeup(s') <==> !Forsakes(s, Run(t))
  {
    hide QueuesInv, WakeupInv;
    assert ThreadInv(s, t);
    match PcOf(s, t)
    case Entering(c) => GotoReaders(s, s.(owner := Some(t)), t, Deciding(c));
    case Counted(c) => GotoReaders(s, s.(owner := None), t, Taking(c));
    case Taking(c) => TakingReaders(s, t, c, s');
    case Returning(c, woken) => ReturningReaders(s, t, c, woken, s');
    case Leaving(c, r) => GotoReaders(s, s.(owner := None), t, Outside);
  }

  lemma TakingReaders(s: State, t: Tid, c: Call, s': State)
    requires ReadersWakeup(s) && ThreadInv(s, t) && PcOf(s, t) == Taking(c) && s' == TakeToken(s, t, c)
    ensures ReadersWakeup(s')
  {
    var sem := if c.Write? then s.condwriters else s.condreaders;
    var sem' := if sem.value > 0 then sem.(value := sem.value - 1) else sem.(queue := sem.queue + [t]);
    var s1 := if c.Write? then s.(condwriters := sem') else s.(condreaders := sem');
    GotoReaders(s, s1, t, if sem.value > 0 then Returning(c, true) else Suspended(c));
  }

  lemma OneThread(s: State, t: Tid)
    requires Inv(s)
    ensures ThreadInv(s, t)
  {
  }

  lemma ReturningReaders(s: State, t: Tid, c: Call, woken: bool, s': State)
    requires Inv(s) && ReadersWakeup(s) && Next(s, Run(t)) == Some(s') && PcOf(s, t) == Returning(c, woken)
    ensures ReadersWakeup(s') <==> !Forsakes(s, Run(t))
  {
    hide Inv, ThreadsInv, QueuesInv, WakeupInv, CountInv, HoldInv, ReadersWakeup;
    var s1 := (if c.Write? then s.(nwaitwriters := if s.nwaitwriters > 0 then s.nwaitwriters - 1 else 0)
               else s.(nwaitreaders := if s.nwaitreaders > 0 then s.nwaitreaders - 1 else 0)).(owner := Some(t));
    var pc := if woken then Deciding(c) else Leaving(c, ETIMEDOUT);
    assert s' == Goto(s1, t, pc);
    if woken || !c.Write? {
      OneThread(s, t);
      GotoReaders(s, s1, t, pc);
    } else {
      GivingUp(s, s1, t, c);
    }
  }

  lemma LastOfWindow(th: map<Tid, Pc>, t: Tid, c: Call)
    requires t in th && th[t] == Returning(c, false) && c.Write?
    ensures var th' := th[t := Leaving(c, ETIMEDOUT)];
      Window(th', false) == Window(th, false) && (Window(th', true) == {} <==> Window(th, true) == {t})
  {
    var th' := th[t := Leaving(c, ETIMEDOUT)];
    var w := Window(th, true);
    assert t in w && Window(th', true) == w - {t};
    assert w - {t} == {} <==> w == {t};
    assert Window(th', false) == Window(th, false);
  }

  lemma SameComing(s: State, s1: State, t: Tid, pc: Pc)
    requires s1.th == s.th && !ReaderComing(PcOf(s, t)) && !ReaderComing(pc)
    ensures forall u :: ReaderComing(PcOf(Goto(s1, t, pc), u)) <==> ReaderComing(PcOf(s, u))
  {
    hide ReaderComing;
    forall u ensures ReaderComing(PcOf(Goto(s1, t, pc), u)) <==> ReaderComing(PcOf(s, u)) {
      assert PcOf(Goto(s1, t, pc), u) == if u == t then pc else PcOf(s, u);
    }
  }

  lemma GivingUp(s: State, s1: State, t: Tid, c: Call)
    requires ReadersWakeup(s) && PcOf(s, t) == Returning(c, false) && c.Write?
    requires s1.th == s.th && s1.refcount == s.refcount && s1.condreaders == s.condreaders
    ensures ReadersWakeup(Goto(s1, t, Leaving(c, ETIMEDOUT))) <==> !Forsakes(s, Run(t))
  {
    hide Window;
    LastOfWindow(s.th, t, c);
    SameComing(s, s1, t, Leaving(c, ETIMEDOUT));
  }

  /** Whatever happens, the rule is kept unless the last waiting writer forsakes the readers, and that
      always breaks it. */
  lemma NextReaders(s: State, e: Event, s': State)
    requires Inv(s) && ReadersWakeup(s) && Next(s, e) == Some(s')
    ensures ReadersWakeup(s') <==> !Forsakes(s, e)
  {
    hide Inv, Decide, ThreadsInv, ReadersWakeup;
    match e
    case Start(t, c) => GotoReaders(s, s, t, Entering(c));
    case Timeout(t) =>
      var c := PcOf(s, t).c;
      var s1 := if c.Write? then s.(condwriters := s.condwriters.(queue := Dequeue(s.condwriters.queue, t)))
                else s.(condreaders := s.condreaders.(queue := Dequeue(s.condreaders.queue, t)));
      GotoReaders(s, s1, t, Returning(c, false));
    case Run(t) =>
      if PcOf(s, t) == Deciding(Unlock) {
        UnlockReaders(s, t);
      } else if PcOf(s, t).Deciding? {
        DecideReaders(s, t, PcOf(s, t).c);
      } else {
        PlainReaders(s, t, s');
      }
  }

  // ----- every history -----

  ghost predicate AlwaysWoken(s: State, history: seq<Event>)
    decreases |history|
  {
    ReadersWakeup(s)
    && (history != [] && Next(s, history[0]).Some? ==> AlwaysWoken(Next(s, history[0]).value, history[1..]))
  }

  ghost predicate NeverForsaken(s: State, history: seq<Event>)
    decreases |history|
  {
    history == []
    || (!Forsakes(s, history[0])
        && (Next(s, history[0]).Some? ==> NeverForsaken(Next(s, history[0]).value, history[1..])))
  }

  lemma {:induction false} WokenExactly(s: State, history: seq<Event>)
    requires Inv(s) && ReadersWakeup(s) && After(s, history).Some?
    ensures AlwaysWoken(s, history) <==> NeverForsaken(s, history)
    decreases |history|
  {
    hide Inv, ReadersWakeup, Forsakes, Next;
    if history != [] {
      var s1 := Next(s, history[0]).value;
      NextInv(s, history[0], s1);
      NextReaders(s, history[0], s1);
      if ReadersWakeup(s1) {
        WokenExactly(s1, history[1..]);
      }
    }
  }

  lemma InitReaders()
    ensures ReadersWakeup(INIT)
  {
    assert Window(INIT.th, false) == {};
  }

  /** For every history of any number of threads: waiting readers are never left without a wakeup on a free
      lock if and only if no timed-out writer that was the last to wait leaves a free lock nobody is
      coming for. */
  lemma NoLostReader(history: seq<Event>)
    requires After(INIT, history).Some?
    ensures AlwaysWoken(INIT, history) <==> NeverForsaken(INIT, history)
  {
    hide Inv, ReadersWakeup;
    InitInv();
    InitReaders();
    WokenExactly(INIT, history);
  }

  // ----- a forsaken reader -----

  lemma {:induction false} AfterBoth(s: State, h1: seq<Event>, h2: seq<Event>)
    requires After(s, h1).Some?
    ensures After(s, h1 + h2) == After(After(s, h1).value, h2)
    decreases |h1|
  {
    hide Next;
    if h1 == [] {
      assert h1 + h2 == h2;
    } else {
      assert (h1 + h2)[1..] == h1[1..] + h2;
      AfterBoth(Next(s, h1[0]).value, h1[1..], h2);
    }
  }

  lemma FourSteps(s: State, a: Event, s1: State, b: Event, s2: State, c: Event, s3: State, d: Event, s4: State)
    requires Next(s, a) == Some(s1) && Next(s1, b) == Some(s2) && Next(s2, c) == Some(s3) && Next(s3, d) == Some(s4)
    ensures After(s, [a, b, c, d]) == Some(s4)
  {
    hide Next;
    var h := [a, b, c, d];
    assert h[1..] == [b, c, d] && h[1..][1..] == [c, d] && h[1..][1..][1..] == [d] && h[1..][1..][1..][1..] == [];
    assert After(s3, [d]) == Some(s4);
    assert After(s2, [c, d]) == After(s3, [d]);
    assert After(s1, [b, c, d]) == After(s2, [c, d]);
  }

  /** A call up to the point where it has let go of the mutex. */
  function CallUp(t: Tid, c: Call): seq<Event> {
    [Start(t, c), Run(t), Run(t), Run(t)]
  }

  /** The mutex, the test of the lock, and the mutex back. */
  ghost function Called(s: State, t: Tid, c: Call): State {
    var s1 := Decide(Goto(s.(owner := Some(t)), t, Deciding(c)), t, c);
    Goto(s1.(owner := None), t, if PcOf(s1, t).Leaving? then Outside else Taking(c))
  }

  lemma GotoTwice(s: State, t: Tid, pc: Pc, pc': Pc)
    ensures Goto(Goto(s, t, pc), t, pc') == Goto(s, t, pc')
    ensures Goto(s, t, pc).(owner := Some(t)) == Goto(s.(owner := Some(t)), t, pc)
  {
    assert s.th[t := pc][t := pc'] == s.th[t := pc'];
  }

  lemma CallRuns(s: State, t: Tid, c: Call)
    requires PcOf(s, t) == Outside && s.owner == None && (c.Unlock? ==> t in s.writeHolds)
    ensures After(s, CallUp(t, c)) == Some(Called(s, t, c))
  {
    var s1 := Goto(s, t, Entering(c));
    var s2 := Goto(s.(owner := Some(t)), t, Deciding(c));
    var s3 := Decide(s2, t, c);
    GotoTwice(s, t, Entering(c), Deciding(c));
    GotoTwice(s.(owner := Some(t)), t, Entering(c), Deciding(c));
    assert Next(s1, Run(t)) == Some(s2);
    assert Next(s2, Run(t)) == Some(s3);
    LetGo(s3, t, c) by {
      DecideMoves(s2, t, c);
    }
    hide Decide, Next;
    FourSteps(s, Start(t, c), s1, Run(t), s2, Run(t), s3, Run(t), Called(s, t, c));
  }

  lemma DecideMoves(s: State, t: Tid, c: Call)
    ensures PcOf(Decide(s, t, c), t).Leaving? || PcOf(Decide(s, t, c), t) == Counted(c)
  {
  }

  lemma LetGo(s: State, t: Tid, c: Call)
    requires PcOf(s, t).Leaving? || PcOf(s, t) == Counted(c)
    ensures Next(s, Run(t)) == Some(Goto(s.(owner := None), t, if PcOf(s, t).Leaving? then Outside else Taking(c)))
  {
  }

  /** What matters of the state in the run below. */
  ghost predicate Looks(s: State, refcount: int, writers: Sem, readers: Sem, waitWriters: nat, waitReaders: nat,
                        one: Pc, two: Pc, three: Pc) {
    && s.owner == None && s.refcount == refcount && s.condwriters == writers && s.condreaders == readers
    && s.nwaitwriters == waitWriters && s.nwaitreaders == waitReaders
    && s.th.Keys <= {1, 2, 3} && PcOf(s, 1) == one && PcOf(s, 2) == two && PcOf(s, 3) == three
    && (refcount == -1 ==> 1 in s.writeHolds)
  }

  const NONE := Sem(0, [])
  const LATE: Call := Write(true)

  lemma OneGrabs(s: State) returns (s': State)
    requires Looks(s, 0, NONE, NONE, 0, 0, Outside, Outside, Outside)
    ensures After(s, CallUp(1, Write(false))) == Some(s')
    ensures Looks(s', -1, NONE, NONE, 0, 0, Outside, Outside, Outside)
  {
    hide After, CallUp;
    CallRuns(s, 1, Write(false));
    s' := Called(s, 1, Write(false));
  }

  lemma OneStep(s: State, e: Event)
    ensures After(s, [e]) == Next(s, e)
  {
  }

  lemma TwoWaits(s: State) returns (s': State)
    requires Looks(s, -1, NONE, NONE, 0, 0, Outside, Outside, Outside)
    ensures After(s, CallUp(2, LATE) + [Run(2)]) == Some(s')
    ensures Looks(s', -1, Sem(0, [2]), NONE, 1, 0, Outside, Suspended(LATE), Outside)
  {
    hide After, CallUp;
    CallRuns(s, 2, LATE);
    var s1 := Called(s, 2, LATE);
    AfterBoth(s, CallUp(2, LATE), [Run(2)]);
    OneStep(s1, Run(2));
    s' := TakeToken(s1, 2, LATE);
  }

  lemma ThreeWaits(s: State) returns (s': State)
    requires Looks(s, -1, Sem(0, [2]), NONE, 1, 0, Outside, Suspended(LATE), Outside)
    ensures After(s, CallUp(3, Read(false)) + [Run(3)]) == Some(s')
    ensures Looks(s', -1, Sem(0, [2]), Sem(0, [3]), 1, 1, Outside, Suspended(LATE), Suspended(Read(false)))
  {
    hide After, CallUp;
    CallRuns(s, 3, Read(false));
    var s1 := Called(s, 3, Read(false));
    AfterBoth(s, CallUp(3, Read(false)), [Run(3)]);
    OneStep(s1, Run(3));
    s' := TakeToken(s1, 3, Read(false));
  }

  /** The timeout comes before the lock is given back. */
  lemma TwoTimesOut(s: State) returns (s': State)
    requires Looks(s, -1, Sem(0, [2]), Sem(0, [3]), 1, 1, Outside, Suspended(LATE), Suspended(Read(false)))
    ensures After(s, [Timeout(2)] + CallUp(1, Unlock)) == Some(s')
    ensures Looks(s', 0, Sem(1, []), Sem(0, [3]), 1, 1, Outside, Returning(LATE, false), Suspended(Read(false)))
  {
    hide After, CallUp;
    var s1 := Next(s, Timeout(2)).value;
    OneStep(s, Timeout(2));
    AfterBoth(s, [Timeout(2)], CallUp(1, Unlock));
    CallRuns(s1, 1, Unlock);
    s' := Called(s1, 1, Unlock);
  }

  lemma TwoLeaves(s: State) returns (s': State)
    requires Looks(s, 0, Sem(1, []), Sem(0, [3]), 1, 1, Outside, Returning(LATE, false), Suspended(Read(false)))
    ensures After(s, [Run(2), Run(2)]) == Some(s')
    ensures Looks(s', 0, Sem(1, []), Sem(0, [3]), 0, 1, Outside, Outside, Suspended(Read(false)))
  {
    var s1 := Next(s, Run(2)).value;
    s' := Next(s1, Run(2)).value;
    hide Next;
    assert [Run(2), Run(2)][1..] == [Run(2)];
    OneStep(s1, Run(2));
  }

  /** Thread 1 holds the lock for writing, thread 2 waits to write with a time limit and thread 3 waits to
      read; the limit passes, and the lock is given back before the writer has noticed. */
  const FORSAKEN: seq<Event> :=
    CallUp(1, Write(false)) + (CallUp(2, LATE) + [Run(2)]) + (CallUp(3, Read(false)) + [Run(3)])
    + ([Timeout(2)] + CallUp(1, Unlock)) + [Run(2), Run(2)]

  /** Then the reader stays suspended on a lock nobody holds, with every other thread outside and no
      step left to make. */
  lemma ForsakenReader()
    ensures var s := After(INIT, FORSAKEN);
      && s.Some? && s.value.refcount == 0 && s.value.owner == None
      && PcOf(s.value, 3) == Suspended(Read(false))
      && (forall t :: t != 3 ==> PcOf(s.value, t) == Outside)
      && (forall t :: Next(s.value, Run(t)) == None)
  {
    hide After, CallUp, Next, Looks;
    StartLooks();
    var s1 := OneGrabs(INIT);
    var s2 := TwoWaits(s1);
    var s3 := ThreeWaits(s2);
    var s4 := TwoTimesOut(s3);
    var s5 := TwoLeaves(s4);
    var h1, h2, h3, h4 := CallUp(1, Write(false)), CallUp(2, LATE) + [Run(2)],
                          CallUp(3, Read(false)) + [Run(3)], [Timeout(2)] + CallUp(1, Unlock);
    AfterBoth(INIT, h1, h2);
    AfterBoth(INIT, h1 + h2, h3);
    AfterBoth(INIT, h1 + h2 + h3, h4);
    AfterBoth(INIT, h1 + h2 + h3 + h4, [Run(2), Run(2)]);
    EndLooks(s5);
  }

  lemma StartLooks()
    ensures Looks(INIT, 0, NONE, NONE, 0, 0, Outside, Outside, Outside)
  {
  }

  lemma EndLooks(s: State)
    requires Looks(s, 0, Sem(1, []), Sem(0, [3]), 0, 1, Outside, Outside, Suspended(Read(false)))
    ensures s.refcount == 0 && s.owner == None && PcOf(s, 3) == Suspended(Read(false))
    ensures forall t :: t != 3 ==> PcOf(s, t) == Outside
    ensures forall t :: Next(s, Run(t)) == None
  {
  }
}
