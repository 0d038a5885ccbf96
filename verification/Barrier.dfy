/** The barrier (pthread_barrier.c) with any number of threads, as the steps between which the
    scheduler may switch. The mutex and the semaphore of the condition variable are given by their
    contracts. */
module Barrier {
  import opened Machine
  import opened Condition

  datatype Result = Released | EINVAL

  /** Where a thread is: outside; waiting for the mutex; testing the count with it; in the condition
      wait with the mutex, without it, suspended, or on its way back; about to return. */
  datatype Pc = Outside | Entering | Deciding | Counted | Taking | Suspended | Returning | Leaving(result: Result)

  /** `arrived` counts the calls that were counted down. */
  datatype State = State(count: nat, owner: Option<Tid>, sem: Sem, th: map<Tid, Pc>, arrived: nat)

  datatype Event = Start(t: Tid) | Run(t: Tid)

  function Init(count: nat): State {
    State(count, None, Sem(0, []), map[], 0)
  }

  function PcOf(s: State, t: Tid): Pc {
    if t in s.th then s.th[t] else Outside
  }

  function Goto(s: State, t: Tid, pc: Pc): State {
    s.(th := s.th[t := pc])
  }

  function Wake(th: map<Tid, Pc>, ws: seq<Tid>): map<Tid, Pc> {
    map t | t in th :: if t in ws && th[t] == Suspended then Returning else th[t]
  }

  /** `pthread_barrier_wait` under the mutex. */
  function Decide(s: State, t: Tid): State {
    if s.count == 0 then Goto(s, t, Leaving(EINVAL))
    else
      var s1 := s.(count := s.count - 1, arrived := s.arrived + 1);
      if s1.count == 0 then
        var (sem, ws) := Broadcast(s1.sem);
        Goto(s1.(sem := sem, th := Wake(s1.th, ws)), t, Leaving(Released))
      else Goto(s1, t, Counted)
  }

  function TakeToken(s: State, t: Tid): State {
    if s.sem.value > 0 then Goto(s.(sem := s.sem.(value := s.sem.value - 1)), t, Returning)
    else Goto(s.(sem := s.sem.(queue := s.sem.queue + [t])), t, Suspended)
  }

  /** The step an event makes, if it is possible. */
  function Next(s: State, e: Event): Option<State> {
    match e
    case Start(t) => if PcOf(s, t) == Outside then Some(Goto(s, t, Entering)) else None
    case Run(t) =>
      match PcOf(s, t) {
        case Entering => if s.owner.Some? then None else Some(Goto(s.(owner := Some(t)), t, Deciding))
        case Deciding => Some(Decide(s, t))
        case Counted => Some(Goto(s.(owner := None), t, Taking))
        case Taking => Some(TakeToken(s, t))
        case Returning => if s.owner.Some? then None else Some(Goto(s.(owner := Some(t)), t, Leaving(Released)))
        case Leaving(_) => Some(Goto(s.(owner := None), t, Outside))
        case _ => None
      }
  }

  /** The state after a history, if every event in it is possible in its turn. */
  function After(s: State, history: seq<Event>): Option<State>
    decreases |history|
  {
    if history == [] then Some(s)
    else match Next(s, history[0]) {
      case None => None
      case Some(s1) => After(s1, history[1..])
    }
  }

  // ----- the invariant -----

  predicate HasMutex(pc: Pc) {
    pc == Deciding || pc == Counted || pc.Leaving?
  }

  /** A thread that will return success. */
  predicate IsReleased(pc: Pc) {
    pc == Returning || pc == Leaving(Released)
  }

  ghost predicate ThreadInv(s: State, t: Tid) {
    var pc := PcOf(s, t);
    && (HasMutex(pc) <==> s.owner == Some(t))
    && (t in s.sem.queue <==> pc == Suspended)
    && (IsReleased(pc) ==> s.count == 0)
  }

  ghost predicate ThreadsInv(s: State) {
    forall t :: ThreadInv(s, t)
  }

  ghost predicate Inv(s: State, total: nat) {
    && ThreadsInv(s)
    && s.count + s.arrived == total
    && (s.sem.value > 0 ==> s.count == 0 && s.sem.queue == [])
    && (s.count == 0 ==> s.sem.queue == [] || s.sem.value == 0)
  }

  lemma InitInv(count: nat)
    ensures Inv(Init(count), count)
  {
  }

  /** The other threads stay as they are. */
  lemma GotoThreads(s: State, s1: State, t: Tid, pc: Pc)
    requires ThreadsInv(s) && ThreadInv(Goto(s1, t, pc), t)
    requires s1.th == s.th && (s.count == 0 ==> s1.count == 0)
    requires forall u :: u != t ==>
      (s1.owner == Some(u) <==> s.owner == Some(u)) && (u in s1.sem.queue <==> u in s.sem.queue)
    ensures ThreadsInv(Goto(s1, t, pc))
  {
    forall u ensures ThreadInv(Goto(s1, t, pc), u) {
      assert ThreadInv(s, u);
    }
  }

  lemma DecideInv(s: State, t: Tid, total: nat)
    requires Inv(s, total) && PcOf(s, t) == Deciding
    ensures Inv(Decide(s, t), total)
  {
    assert ThreadInv(s, t);
    var s' := Decide(s, t);
    if s.count == 1 {
      forall u ensures ThreadInv(s', u) {
        assert ThreadInv(s, u);
      }
    } else if s.count == 0 {
      GotoThreads(s, s, t, Leaving(EINVAL));
    } else {
      GotoThreads(s, s.(count := s.count - 1, arrived := s.arrived + 1), t, Counted);
    }
  }

  lemma TakeInv(s: State, t: Tid, total: nat)
    requires Inv(s, total) && PcOf(s, t) == Taking
    ensures Inv(TakeToken(s, t), total)
  {
    assert ThreadInv(s, t);
    var sem := s.sem;
    if sem.value > 0 {
      GotoThreads(s, s.(sem := sem.(value := sem.value - 1)), t, Returning);
    } else {
      GotoThreads(s, s.(sem := sem.(queue := sem.queue + [t])), t, Suspended);
    }
  }

  lemma NextInv(s: State, e: Event, s': State, total: nat)
    requires Inv(s, total) && Next(s, e) == Some(s')
    ensures Inv(s', total)
  {
    hide Decide, TakeToken;
    assert ThreadInv(s, e.t);
    match e
    case Start(t) => GotoThreads(s, s, t, Entering);
    case Run(t) =>
      match PcOf(s, t) {
        case Entering => GotoThreads(s, s.(owner := Some(t)), t, Deciding);
        case Deciding => DecideInv(s, t, total);
        case Counted => GotoThreads(s, s.(owner := None), t, Taking);
        case Taking => TakeInv(s, t, total);
        case Returning => GotoThreads(s, s.(owner := Some(t)), t, Leaving(Released));
        case Leaving(_) => GotoThreads(s, s.(owner := None), t, Outside);
      }
  }

  lemma {:induction false} HistoryInv(s: State, history: seq<Event>, s': State, total: nat)
    requires Inv(s, total) && After(s, history) == Some(s')
    ensures Inv(s', total)
    decreases |history|
  {
    hide Next, Inv;
    if history != [] {
      var s1 := Next(s, history[0]).value;
      NextInv(s, history[0], s1, total);
      HistoryInv(s1, history[1..], s', total);
    }
  }

  /** In every run: as long as fewer than `total` calls have arrived, none is released. */
  lemma NobodyReleasedEarly(total: nat, history: seq<Event>, s: State, t: Tid)
    requires After(Init(total), history) == Some(s) && IsReleased(PcOf(s, t))
    ensures s.arrived == total
  {
    InitInv(total);
    HistoryInv(Init(total), history, s, total);
    assert ThreadInv(s, t);
  }

  // ----- late callers -----

  /** A call that has not been counted. */
  predicate Uncounted(pc: Pc) {
    pc == Outside || pc == Entering || pc == Deciding || pc == Leaving(EINVAL)
  }

  lemma {:induction false} StaysShut(s: State, history: seq<Event>, s': State, t: Tid)
    requires s.count == 0 && t !in s.sem.queue && Uncounted(PcOf(s, t)) && After(s, history) == Some(s')
    ensures s'.count == 0 && Uncounted(PcOf(s', t))
    decreases |history|
  {
    if history != [] {
      StaysShut(Next(s, history[0]).value, history[1..], s', t);
    }
  }

  /** Once everybody has arrived, every later call ends in `EINVAL`: no continuation lets it in. */
  lemma LateCallersRejected(total: nat, before: seq<Event>, s: State, t: Tid, after: seq<Event>, s': State)
    requires After(Init(total), before) == Some(s) && s.arrived == total && PcOf(s, t) == Outside
    requires After(s, after) == Some(s')
    ensures PcOf(s', t).Leaving? ==> PcOf(s', t).result == EINVAL
    ensures PcOf(s', t) !in {Counted, Taking, Suspended, Returning}
  {
    InitInv(total);
    HistoryInv(Init(total), before, s, total);
    assert ThreadInv(s, t);
    StaysShut(s, after, s', t);
  }

  // ----- every call that was counted -----

  /** A call that has been counted and has not returned. */
  predicate InCall(pc: Pc) {
    pc in {Counted, Taking, Suspended, Returning, Leaving(Released)}
  }

  ghost function InFlight(s: State): set<Tid> {
    set t | t in s.th && InCall(s.th[t])
  }

  /** The returns with success in a history. */
  ghost function Successes(s: State, history: seq<Event>): nat
    decreases |history|
  {
    if history == [] || Next(s, history[0]).None? then 0
    else
      (if history[0].Run? && PcOf(s, history[0].t) == Leaving(Released) then 1 else 0)
      + Successes(Next(s, history[0]).value, history[1..])
  }

  lemma FlightGoto(s: State, s': State, t: Tid)
    requires t in s'.th && forall u :: u != t ==> (u in s.th && InCall(s.th[u]) <==> u in s'.th && InCall(s'.th[u]))
    ensures |InFlight(s')| ==
      |InFlight(s)| + (if InCall(PcOf(s', t)) then 1 else 0) - (if InCall(PcOf(s, t)) then 1 else 0)
  {
    var f := InFlight(s);
    assert InFlight(s') == if InCall(PcOf(s', t)) then f + {t} else f - {t};
    if t in f {
      assert |f| == |f - {t}| + 1 && f + {t} == f;
    } else {
      assert f - {t} == f && |f + {t}| == |f| + 1;
    }
  }

  lemma StepAccounts(s: State, e: Event, s': State)
    requires Next(s, e) == Some(s')
    ensures s'.arrived + |InFlight(s)|
         == s.arrived + |InFlight(s')| + if e.Run? && PcOf(s, e.t) == Leaving(Released) then 1 else 0
  {
    FlightGoto(s, s', e.t);
  }

  lemma {:induction false} HistoryAccounts(s: State, history: seq<Event>, s': State)
    requires After(s, history) == Some(s')
    ensures s'.arrived + |InFlight(s)| == s.arrived + |InFlight(s')| + Successes(s, history)
    decreases |history|
  {
    hide Next, InFlight;
    if history != [] {
      var s1 := Next(s, history[0]).value;
      StepAccounts(s, history[0], s1);
      HistoryAccounts(s1, history[1..], s');
    }
  }

  /** A call that was counted is in the barrier until it returns with success: it never leaves with EINVAL. After
      every history the calls counted are those still in it and those that have returned with success. */
  lemma EveryCallAccounted(total: nat, history: seq<Event>, s: State)
    requires After(Init(total), history) == Some(s)
    ensures s.arrived == |InFlight(s)| + Successes(Init(total), history)
  {
    assert InFlight(Init(total)) == {};
    hide After;
    HistoryAccounts(Init(total), history, s);
  }

  /** What a call finds under the mutex: once all have arrived, EINVAL and no other effect; as the last one, success,
      with every suspended thread woken and a token left; otherwise it is counted and waits. */
  lemma DecidesExactly(total: nat, history: seq<Event>, s: State, t: Tid)
    requires After(Init(total), history) == Some(s) && PcOf(s, t) == Deciding
    ensures var next := Next(s, Run(t));
      && next.Some? && var s' := next.value;
      && s'.owner == Some(t)
      && (s.arrived == total ==> PcOf(s', t) == Leaving(EINVAL) && s'.sem == s.sem && s'.arrived == total)
      && (s.arrived + 1 == total ==>
            && PcOf(s', t) == Leaving(Released) && s'.arrived == total && s'.sem.queue == [] && s'.sem.value > 0
            && forall u :: u in s.sem.queue ==> PcOf(s', u) == Returning)
      && (s.arrived + 1 < total ==> PcOf(s', t) == Counted && s'.arrived == s.arrived + 1 && s'.sem == s.sem)
      && forall u :: u != t && (u !in s.sem.queue || s.arrived + 1 != total) ==> PcOf(s', u) == PcOf(s, u)
  {
    InitInv(total);
    HistoryInv(Init(total), history, s, total);
    assert ThreadInv(s, t);
    forall u | u in s.sem.queue ensures PcOf(s, u) == Suspended {
      assert ThreadInv(s, u);
    }
  }

  // ----- who is left behind -----

  /** Threads that have let go of the mutex but have not yet taken from the semaphore. */
  ghost function Between(s: State): set<Tid> {
    set t | t in s.th && s.th[t] in {Counted, Taking}
  }

  /** Suspended threads, and those that will find no token. */
  ghost function Stranded(s: State): nat {
    |s.sem.queue| + if |Between(s)| > s.sem.value then |Between(s)| - s.sem.value else 0
  }

  lemma BetweenGoto(s: State, t: Tid, pc: Pc)
    ensures Between(Goto(s, t, pc)) == if pc in {Counted, Taking} then Between(s) + {t} else Between(s) - {t}
    ensures |Between(Goto(s, t, pc))|
         == |Between(s)| + (if pc in {Counted, Taking} then 1 else 0)
          - (if PcOf(s, t) in {Counted, Taking} then 1 else 0)
  {
    var b := Between(s);
    assert Between(Goto(s, t, pc)) == if pc in {Counted, Taking} then b + {t} else b - {t};
    if t in b {
      assert |b| == |b - {t}| + 1 && b + {t} == b;
    } else {
      assert b - {t} == b && |b + {t}| == |b| + 1;
    }
  }

  lemma TakeKeepsStranded(s: State, t: Tid)
    requires PcOf(s, t) == Taking
    ensures Stranded(TakeToken(s, t)) == Stranded(s)
  {
    hide Between;
    var s' := TakeToken(s, t);
    BetweenGoto(s, t, PcOf(s', t));
    BetweenSame(s', Goto(s, t, PcOf(s', t)));
  }

  lemma QuietStep(s: State, t: Tid, pc: Pc, s': State)
    requires s'.sem == s.sem && s'.th == Goto(s, t, pc).th
    requires pc in {Counted, Taking} <==> PcOf(s, t) in {Counted, Taking}
    ensures Stranded(s') == Stranded(s)
  {
    hide Between;
    BetweenGoto(s, t, pc);
    BetweenSame(s', Goto(s, t, pc));
  }

  lemma StepKeepsStranded(s: State, e: Event, s': State)
    requires s.count == 0 && Next(s, e) == Some(s')
    ensures s'.count == 0 && Stranded(s') == Stranded(s)
  {
    hide Stranded;
    match e
    case Start(t) => QuietStep(s, t, Entering, s');
    case Run(t) =>
      match PcOf(s, t) {
        case Entering => QuietStep(s, t, Deciding, s');
        case Deciding => QuietStep(s, t, Leaving(EINVAL), s');
        case Counted => QuietStep(s, t, Taking, s');
        case Taking => TakeKeepsStranded(s, t);
        case Returning => QuietStep(s, t, Leaving(Released), s');
        case Leaving(_) => QuietStep(s, t, Outside, s');
      }
  }

  lemma BetweenSame(s: State, s1: State)
    requires s.th == s1.th
    ensures Between(s) == Between(s1)
  {
  }

  /** After the broadcast no step changes the number of stranded threads. */
  lemma {:induction false} StrandedForEver(s: State, history: seq<Event>, s': State)
    requires s.count == 0 && After(s, history) == Some(s')
    ensures s'.count == 0 && Stranded(s') == Stranded(s)
    decreases |history|
  {
    hide Next;
    if history != [] {
      var s1 := Next(s, history[0]).value;
      StepKeepsStranded(s, history[0], s1);
      StrandedForEver(s1, history[1..], s');
    }
  }

  lemma BroadcastStrands(s: State, t: Tid, total: nat)
    requires Inv(s, total) && s.count == 1 && PcOf(s, t) == Deciding
    ensures var k := |Between(s)|; Stranded(Decide(s, t)) == if k > 1 then k - 1 else 0
  {
    var s' := Decide(s, t);
    assert Between(s') == Between(s) by {
      forall u ensures u in Between(s') <==> u in Between(s) {
        assert PcOf(s', u) in {Counted, Taking} <==> PcOf(s, u) in {Counted, Taking};
      }
    }
  }

  /** In a run where the last arrival finds `k` threads between letting go of the mutex and taking from
      the semaphore: whenever none of them is left there, exactly `k - 1` threads (none if `k` is 0) are
      suspended, and no continuation frees them. All are released if and only if `k <= 1`. */
  lemma ReleasedExactly(total: nat, before: seq<Event>, s: State, t: Tid, after: seq<Event>, s': State)
    requires After(Init(total), before) == Some(s) && s.count == 1 && PcOf(s, t) == Deciding
    requires After(Decide(s, t), after) == Some(s') && Between(s') == {}
    ensures var k := |Between(s)|;
      && |s'.sem.queue| == (if k > 1 then k - 1 else 0)
      && (s'.sem.queue == [] <==> k <= 1)
  {
    InitInv(total);
    HistoryInv(Init(total), before, s, total);
    BroadcastStrands(s, t, total);
    StrandedForEver(Decide(s, t), after, s');
  }

  function Arrival(t: Tid): seq<Event> {
    [Start(t), Run(t), Run(t), Run(t)]
  }

  const LOST_WAKEUP := Arrival(1) + Arrival(2) + Arrival(3) + [Run(1), Run(1), Run(1), Run(2)]

  /** Three threads: two are between unlocking and taking when the third arrives; one of them stays
      suspended although everybody has arrived. */
  lemma LostWakeup()
    ensures var s := After(Init(3), LOST_WAKEUP);
      && s.Some? && s.value.arrived == 3
      && PcOf(s.value, 1) == Outside && PcOf(s.value, 2) == Suspended && PcOf(s.value, 3) == Outside
  {
    var s0 := Init(3);
    assert s0.owner == None && s0.sem == Sem(0, []) && s0.count == 3 && s0.arrived == 0;
    hide Init, Next, Goto, PcOf, Arrives, ArrivesLast, TakeBoth, After, Arrival;
    NewState();
    var s1 := Arrives(s0, 1);
    ArrivesRuns(s0, 1, 2);
    ArrivesRuns(s0, 1, 3);
    var s2 := Arrives(s1, 2);
    ArrivesRuns(s1, 2, 1);
    ArrivesRuns(s1, 2, 3);
    var s3 := ArrivesLast(s2, 3);
    ArrivesLastRuns(s2, 3, 1);
    ArrivesLastRuns(s2, 3, 2);
    TakeBothRuns(s3, 1, 2, 3);
    AfterBoth(s0, Arrival(1), Arrival(2));
    AfterBoth(s0, Arrival(1) + Arrival(2), Arrival(3));
    AfterBoth(s0, Arrival(1) + Arrival(2) + Arrival(3), [Run(1), Run(1), Run(1), Run(2)]);
  }

  lemma NewState()
    ensures forall n, t :: PcOf(Init(n), t) == Outside
  {
  }

  /** A thread arrives as one of several and lets go of the mutex. */
  ghost function Arrives(s: State, t: Tid): State {
    var s1 := Goto(s, t, Entering);
    var s2 := Goto(s1.(owner := Some(t)), t, Deciding);
    var s3 := Goto(s2.(count := if s.count > 0 then s.count - 1 else 0, arrived := s.arrived + 1), t, Counted);
    Goto(s3.(owner := None), t, Taking)
  }

  lemma ArrivesRuns(s: State, t: Tid, u: Tid)
    requires PcOf(s, t) == Outside && s.owner == None && s.count > 1 && u != t
    ensures var s' := Arrives(s, t);
      && After(s, Arrival(t)) == Some(s')
      && s'.count == s.count - 1 && s'.arrived == s.arrived + 1 && s'.owner == None && s'.sem == s.sem
      && PcOf(s', t) == Taking && PcOf(s', u) == PcOf(s, u)
  {
    var s1 := Goto(s, t, Entering);
    var s2 := Goto(s1.(owner := Some(t)), t, Deciding);
    var s3 := Goto(s2.(count := s.count - 1, arrived := s.arrived + 1), t, Counted);
    FourSteps(s, Start(t), s1, Run(t), s2, Run(t), s3, Run(t), Arrives(s, t));
  }

  /** The last thread arrives, wakes nobody and leaves. */
  ghost function ArrivesLast(s: State, t: Tid): State {
    var s1 := Goto(s, t, Entering);
    var s2 := Goto(s1.(owner := Some(t)), t, Deciding);
    var s3 := Decide(s2, t);
    Goto(s3.(owner := None), t, Outside)
  }

  lemma ArrivesLastRuns(s: State, t: Tid, u: Tid)
    requires PcOf(s, t) == Outside && s.owner == None && s.count == 1 && s.sem == Sem(0, []) && u != t
    ensures var s' := ArrivesLast(s, t);
      && After(s, Arrival(t)) == Some(s')
      && s'.arrived == s.arrived + 1 && s'.owner == None && s'.sem == Sem(1, [])
      && PcOf(s', t) == Outside && PcOf(s', u) == PcOf(s, u)
  {
    var s1 := Goto(s, t, Entering);
    var s2 := Goto(s1.(owner := Some(t)), t, Deciding);
    var s3 := Decide(s2, t);
    FourSteps(s, Start(t), s1, Run(t), s2, Run(t), s3, Run(t), ArrivesLast(s, t));
  }

  /** One thread finds the token and leaves; another finds none. */
  ghost function TakeBoth(s: State, t: Tid, u: Tid): State {
    var s1 := TakeToken(s, t);
    var s2 := Goto(s1.(owner := Some(t)), t, Leaving(Released));
    TakeToken(Goto(s2.(owner := None), t, Outside), u)
  }

  lemma TakeBothRuns(s: State, t: Tid, u: Tid, v: Tid)
    requires PcOf(s, t) == Taking && PcOf(s, u) == Taking && s.owner == None && s.sem == Sem(1, [])
    requires t != u && u != v && v != t
    ensures var s' := TakeBoth(s, t, u);
      && After(s, [Run(t), Run(t), Run(t), Run(u)]) == Some(s')
      && s'.arrived == s.arrived && PcOf(s', t) == Outside && PcOf(s', u) == Suspended && PcOf(s', v) == PcOf(s, v)
  {
    var s1 := TakeToken(s, t);
    var s2 := Goto(s1.(owner := Some(t)), t, Leaving(Released));
    var s3 := Goto(s2.(owner := None), t, Outside);
    FourSteps(s, Run(t), s1, Run(t), s2, Run(t), s3, Run(u), TakeBoth(s, t, u));
  }

  lemma FourSteps(s: State, a: Event, s1: State, b: Event, s2: State, c: Event, s3: State, d: Event, s4: State)
    requires Next(s, a) == Some(s1) && Next(s1, b) == Some(s2) && Next(s2, c) == Some(s3) && Next(s3, d) == Some(s4)
    ensures After(s, [a, b, c, d]) == Some(s4)
  {
    hide Next;
    var h := [a, b, c, d];
    assert h[1..] == [b, c, d] && h[1..][1..] == [c, d] && h[1..][1..][1..] == [d] && h[1..][1..][1..][1..] == [];
    assert After(s3, [d]) == Some(s4);
    assert After(s2, [c, d]) == After(s3, [d]);
    assert After(s1, [b, c, d]) == After(s2, [c, d]);
  }

  lemma {:induction false} AfterBoth(s: State, a: seq<Event>, b: seq<Event>)
    requires After(s, a).Some?
    ensures After(s, a + b) == After(After(s, a).value, b)
    decreases |a|
  {
    hide Next;
    if a == [] {
      assert a + b == b;
    } else {
      assert (a + b)[1..] == a[1..] + b;
      AfterBoth(Next(s, a[0]).value, a[1..], b);
    }
  }
}
