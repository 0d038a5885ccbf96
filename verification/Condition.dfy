/** Condition variables on a counting semaphore (pthread_cond.c). The semaphore is given by its
    kernel contract: a release wakes the thread that has waited longest, or counts up when there is
    none; a take counts down or suspends. */
module Condition {

  type Tid = nat

  datatype Sem = Sem(value: nat, queue: seq<Tid>)

  /** Nobody is suspended on a semaphore that has a token. */
  ghost predicate SemValid(s: Sem) {
    s.value > 0 ==> s.queue == []
  }

  /** `rt_sem_release`; the woken threads come second. */
  function Release(s: Sem): (Sem, seq<Tid>) {
    if s.queue == [] then (s.(value := s.value + 1), [])
    else (s.(queue := s.queue[1..]), [s.queue[0]])
  }

  /** What `pthread_cond_broadcast` does to the semaphore. */
  function Broadcast(s: Sem): (Sem, seq<Tid>) {
    (Sem(if s.value == 0 then 1 else s.value, []), s.queue)
  }

  class ConditionVariable {
    var value: nat
    var queue: seq<Tid>
    var woken: seq<Tid>

    constructor ()
      ensures value == 0 && queue == [] && woken == []
    {
      value, queue, woken := 0, [], [];
    }

    function Abs(): Sem
      reads this
    {
      Sem(value, queue)
    }

    /** `rt_sem_trytake`: false stands for `-RT_ETIMEOUT`. */
    method TryTake() returns (ok: bool)
      modifies this`value
      ensures ok == (old(value) > 0) && value == old(value) - if ok then 1 else 0
    {
      ok := value > 0;
      if ok {
        value := value - 1;
      }
    }

    /** `rt_sem_release`. */
    method SemRelease()
      modifies this
      ensures var (s, ws) := old(Release(Abs())); Abs() == s && woken == old(woken) + ws
    {
      if queue == [] {
        value := value + 1;
      } else {
        woken := woken + [queue[0]];
        queue := queue[1..];
      }
      assert woken == woken + [];
    }

    /** `pthread_cond_signal`: wakes the longest waiting thread, or leaves a token for a later one. */
    method Signal()
      modifies this
      ensures var (s, ws) := old(Release(Abs())); Abs() == s && woken == old(woken) + ws
    {
      SemRelease();
    }

    /** `pthread_cond_broadcast`: terminates, wakes everybody suspended at the call in the order they
        came, and leaves at least one token. */
    method BroadcastAll()
      requires SemValid(Abs())
      modifies this
      ensures var (s, ws) := old(Broadcast(Abs())); Abs() == s && woken == old(woken) + ws
      ensures SemValid(Abs()) && value >= 1
    {
      while true
        invariant SemValid(Abs())
        invariant woken + queue == old(woken + queue)
        invariant value == old(value) || (old(value) == 0 && value == 1 && queue == [])
        decreases |queue|, if value == 0 then 1 else 0
      {
        var ok := TryTake();
        if !ok {
          SemRelease();
        } else {
          SemRelease();
          break;
        }
      }
    }
  }
}
