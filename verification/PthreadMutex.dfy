/** The mutexes of a process (model/dce-pthread-mutex.cc).

    A thread that finds a mutex taken enters itself at the end of the waiting list and
    gives up the processor; when it runs again it leaves the list and looks again.  In
    between anybody else may have taken the mutex, and it may have been woken for another
    reason.  Between two such points a thread runs undisturbed, so an execution is a
    sequence of the steps below. */
module PthreadMutex {
  import opened Options
  import opened WaitingList

  datatype Kind = NORMAL | RECURSIVE

  /** `ready` are the suspended threads that have been woken. */
  datatype Mutex = Mutex(kind: Kind, count: nat, waiting: seq<Thread>, current: Option<Thread>, ready: set<Thread>)

  datatype Event =
    | Lock(t: Thread)
    | Resume(t: Thread)
    | TryLock(t: Thread)
    | Unlock(t: Thread)
    | Wakeup(t: Thread)

  datatype Outcome = Ok | Deadlk | Busy | Perm | Suspended | Nothing

  /** A suspended thread does nothing but wake up; a thread runs only when it is ready. */
  predicate Enabled(m: Mutex, e: Event) {
    match e
    case Resume(t) => t in m.ready
    case Wakeup(t) => t in m.waiting
    case _ => e.t !in m.waiting
  }

  function Take(m: Mutex, t: Thread): (Mutex, Outcome) {
    (m.(current := Some(t), count := m.count + 1), Ok)
  }

  function TakeOrWait(m: Mutex, t: Thread): (Mutex, Outcome) {
    if m.current.Some? then (m.(waiting := m.waiting + [t], ready := m.ready - {t}), Suspended) else Take(m, t)
  }

  function Released(m: Mutex): Mutex {
    if m.count != 1 then m.(count := if m.count > 0 then m.count - 1 else 0)
    else m.(count := 0, current := None, ready := if m.waiting == [] then m.ready else m.ready + {m.waiting[0]})
  }

  function Step(m: Mutex, e: Event): (Mutex, Outcome) {
    match e
    case Lock(t) =>
      if m.current == Some(t) then (if m.kind == RECURSIVE then Take(m, t) else (m, Deadlk)) else TakeOrWait(m, t)
    case Resume(t) => TakeOrWait(m.(waiting := Remove(m.waiting, t), ready := m.ready - {t}), t)
    case TryLock(t) =>
      if m.current.None? || (m.kind == RECURSIVE && m.current == Some(t)) then Take(m, t) else (m, Busy)
    case Unlock(t) => if m.current != Some(t) then (m, Perm) else (Released(m), Ok)
    case Wakeup(t) => (m.(ready := m.ready + {t}), Nothing)
  }

  // ---------- what every step keeps ----------

  ghost predicate Inv(m: Mutex) {
    && (m.current.Some? <==> m.count > 0)
    && (m.kind == NORMAL ==> m.count <= 1)
    && NoDuplicates(m.waiting)
    && (forall t | t in m.ready :: t in m.waiting)
    && (m.current.Some? ==> m.current.value !in m.waiting)
    && (m.current.None? && m.waiting != [] ==> m.waiting[0] in m.ready)
  }

  lemma StepKeepsInv(m: Mutex, e: Event)
    requires Inv(m) && Enabled(m, e)
    ensures Inv(Step(m, e).0)
  {
    RemoveKeepsOrder(m.waiting, e.t);
    QueueAtEnd(Remove(m.waiting, e.t), e.t);
  }

  // ---------- what each operation does ----------

  /** A thread that is not suspended may do anything. */
  lemma RunningMayAct(m: Mutex, t: Thread)
    requires t !in m.waiting
    ensures Enabled(m, Lock(t)) && Enabled(m, TryLock(t)) && Enabled(m, Unlock(t))
  {
  }

  /** A free mutex is taken; its owner goes deeper or is refused, by kind; anybody else goes
      to the end of the list. */
  lemma LockDecides(m: Mutex, t: Thread)
    requires Inv(m) && Enabled(m, Lock(t))
    ensures var (m', r) := Step(m, Lock(t));
            && m'.kind == m.kind
            && (m.current.None? ==>
                  r == Ok && m'.current == Some(t) && m'.count == 1 && m'.waiting == m.waiting && m'.ready == m.ready)
            && (m.current == Some(t) && m.kind == RECURSIVE ==> r == Ok && m' == m.(count := m.count + 1))
            && (m.current == Some(t) && m.kind == NORMAL ==> r == Deadlk && m' == m)
            && (m.current.Some? && m.current != Some(t) ==>
                  && r == Suspended && m'.current == m.current && m'.count == m.count
                  && m'.waiting == m.waiting + [t] && t !in m'.ready
                  && forall u | u != t :: u in m'.ready <==> u in m.ready)
  {
  }

  /** The same without waiting: refused if and only if somebody else holds it, or the caller
      does and the kind is not recursive. */
  lemma TryLockDecides(m: Mutex, t: Thread)
    requires Inv(m) && Enabled(m, TryLock(t))
    ensures var (m', r) := Step(m, TryLock(t));
            && (r == Busy <==> m.current.Some? && (m.current != Some(t) || m.kind == NORMAL))
            && (r == Busy ==> m' == m)
            && (r != Busy ==> r == Ok && m' == m.(current := Some(t), count := m.count + 1))
  {
  }

  /** The owner, and nobody else, gives back one.  With the last one the mutex is free, and
      the thread that has waited longest may run. */
  lemma UnlockDecides(m: Mutex, t: Thread)
    requires Inv(m) && Enabled(m, Unlock(t))
    ensures var (m', r) := Step(m, Unlock(t));
            && (r == Ok <==> m.current == Some(t)) && (r != Ok ==> r == Perm && m' == m)
            && (r == Ok ==>
                  && m'.count == m.count - 1 && m'.waiting == m.waiting && m'.kind == m.kind
                  && (m'.current.None? <==> m.count == 1)
                  && (m.count > 1 ==> m'.current == Some(t) && m'.ready == m.ready)
                  && (m.count == 1 && m.waiting != [] ==> m'.ready == m.ready + {m.waiting[0]})
                  && (m.waiting == [] ==> m'.ready == m.ready))
  {
  }

  /** A thread that was woken takes the mutex if it is free, and queues again if not. */
  lemma ResumeDecides(m: Mutex, before: seq<Thread>, t: Thread, after: seq<Thread>)
    requires Inv(m) && Enabled(m, Resume(t)) && m.waiting == before + [t] + after
    ensures var (m', r) := Step(m, Resume(t));
            && t !in m'.ready && (forall u | u != t :: u in m'.ready <==> u in m.ready) && m'.kind == m.kind
            && (m.current.None? ==> r == Ok && m'.current == Some(t) && m'.count == 1 && m'.waiting == before + after)
            && (m.current.Some? ==>
                  && r == Suspended && m'.current == m.current && m'.count == m.count
                  && m'.waiting == before + after + [t])
  {
    assert m.waiting[|before|] == t;
    forall i | 0 <= i < |before|
      ensures before[i] != t
    {
      assert m.waiting[i] == before[i];
    }
    forall i | 0 <= i < |after|
      ensures after[i] != t
    {
      assert m.waiting[|before| + 1 + i] == after[i];
    }
    RemoveAt(before, t, after);
  }

  // ---------- whole runs ----------

  function Initial(kind: Kind): Mutex {
    Mutex(kind, 0, [], None, {})
  }

  function After(kind: Kind, events: seq<Event>): Mutex {
    if events == [] then Initial(kind) else Step(After(kind, events[..|events| - 1]), events[|events| - 1]).0
  }

  ghost predicate IsRun(kind: Kind, events: seq<Event>) {
    events == [] ||
    (IsRun(kind, events[..|events| - 1]) && Enabled(After(kind, events[..|events| - 1]), events[|events| - 1]))
  }

  /** How often thread t has taken the mutex and not given it back. */
  function Held(kind: Kind, events: seq<Event>, t: Thread): int {
    if events == [] then 0
    else
      var init, e := events[..|events| - 1], events[|events| - 1];
      var ok := Step(After(kind, init), e).1 == Ok;
      Held(kind, init, t) + (if ok && e.t == t then (if e.Unlock? then -1 else 1) else 0)
  }

  /** In every reachable state the invariant holds, and the count is what its owner has
      taken and not given back; nobody else has taken anything. */
  lemma {:induction false} RunsAreSound(kind: Kind, events: seq<Event>, t: Thread)
    requires IsRun(kind, events)
    ensures Inv(After(kind, events))
    ensures After(kind, events).kind == kind
    ensures Held(kind, events, t) == if After(kind, events).current == Some(t) then After(kind, events).count else 0
  {
    if events != [] {
      var init, e := events[..|events| - 1], events[|events| - 1];
      RunsAreSound(kind, init, t);
      StepKeepsInv(After(kind, init), e);
    }
  }

  function Unlocks(t: Thread, n: nat): (events: seq<Event>)
    ensures |events| == n && forall i | 0 <= i < n :: events[i] == Unlock(t)
  {
    seq(n, i => Unlock(t))
  }

  lemma OneMore(kind: Kind, events: seq<Event>, e: Event)
    requires IsRun(kind, events) && Enabled(After(kind, events), e)
    ensures IsRun(kind, events + [e]) && After(kind, events + [e]) == Step(After(kind, events), e).0
    ensures Held(kind, events + [e], e.t) ==
            Held(kind, events, e.t)
            + (if Step(After(kind, events), e).1 == Ok then (if e.Unlock? then -1 else 1) else 0)
  {
    assert (events + [e])[..|events|] == events;
  }

  /** Over every run: a thread that holds the mutex n times can give it back n times, each
      time with success, and then and not before the mutex is free. */
  lemma {:induction false} GivenBack(kind: Kind, events: seq<Event>, t: Thread, n: nat)
    requires IsRun(kind, events) && n <= Held(kind, events, t)
    ensures IsRun(kind, events + Unlocks(t, n))
    ensures Held(kind, events + Unlocks(t, n), t) == Held(kind, events, t) - n
    ensures 0 < n == Held(kind, events, t) ==>
              After(kind, events + Unlocks(t, n)).current.None? && After(kind, events + Unlocks(t, n)).count == 0
    ensures n < Held(kind, events, t) ==> After(kind, events + Unlocks(t, n)).current == Some(t)
  {
    hide IsRun, After, Held, Step, Enabled, Inv;
    if n == 0 {
      assert events + Unlocks(t, 0) == events;
      RunsAreSound(kind, events, t);
    } else {
      GivenBack(kind, events, t, n - 1);
      var init := events + Unlocks(t, n - 1);
      RunsAreSound(kind, init, t);
      OwnerRuns(After(kind, init), t);
      UnlockDecides(After(kind, init), t);
      OneMore(kind, init, Unlock(t));
      assert init + [Unlock(t)] == events + Unlocks(t, n);
      RunsAreSound(kind, events + Unlocks(t, n), t);
    }
  }

  lemma OwnerRuns(m: Mutex, t: Thread)
    requires Inv(m) && m.current == Some(t)
    ensures Enabled(m, Unlock(t)) && m.count > 0
  {
  }

  /** Two threads: the second waits, and takes the mutex once the first has given it back. */
  lemma TakenInTurn()
    ensures var events := [Lock(1), Lock(2), Unlock(1), Resume(2)];
            && IsRun(NORMAL, events[..2]) && After(NORMAL, events[..2]) == Mutex(NORMAL, 1, [2], Some(1), {})
            && IsRun(NORMAL, events) && After(NORMAL, events) == Mutex(NORMAL, 1, [], Some(2), {})
  {
    var e1, e2, e3 := [Lock(1)], [Lock(1), Lock(2)], [Lock(1), Lock(2), Unlock(1)];
    var none: set<Thread> := {};
    assert none - {2} == none && none + {2} == {2} && {2} - {2} == none;
    assert [2][1..] == [] && Remove([2], 2) == [];
    assert [] + [Lock(1)] == e1;
    hide Remove;
    OneMore(NORMAL, [], Lock(1));
    OneMore(NORMAL, e1, Lock(2));
    assert e1 + [Lock(2)] == e2;
    OneMore(NORMAL, e2, Unlock(1));
    assert e2 + [Unlock(1)] == e3;
    OneMore(NORMAL, e3, Resume(2));
    var events := [Lock(1), Lock(2), Unlock(1), Resume(2)];
    assert e3 + [Resume(2)] == events && events[..2] == e2;
  }

  /** The threads inside lock that gave up the processor and have not come back. */
  function InLock(kind: Kind, events: seq<Event>): set<Thread> {
    if events == [] then {}
    else
      var init, e := events[..|events| - 1], events[|events| - 1];
      var r := Step(After(kind, init), e).1;
      if r == Suspended then InLock(kind, init) + {e.t}
      else if e.Resume? then InLock(kind, init) - {e.t}
      else InLock(kind, init)
  }

  lemma {:induction false} WaitingAreSuspended(kind: Kind, events: seq<Event>, t: Thread)
    requires IsRun(kind, events)
    ensures t in After(kind, events).waiting <==> t in InLock(kind, events)
  {
    if events != [] {
      WaitingAreSuspended(kind, events[..|events| - 1], t);
    }
  }

  /** Mutual exclusion: at most one thread has anything to give back. */
  lemma OneHolder(kind: Kind, events: seq<Event>, t: Thread, u: Thread)
    requires IsRun(kind, events) && Held(kind, events, t) > 0 && Held(kind, events, u) > 0
    ensures t == u
  {
    RunsAreSound(kind, events, t);
    RunsAreSound(kind, events, u);
  }

  lemma OthersLeaveItAlone(m: Mutex, e: Event, t: Thread)
    requires Inv(m) && Enabled(m, e) && m.current == Some(t) && e.t != t
    ensures Step(m, e).1 != Ok && Step(m, e).0.current == Some(t) && Step(m, e).0.count == m.count
  {
  }

  /** From the moment a thread has taken a mutex, and as long as it does not touch it
      again, it stays the owner and nobody else succeeds in taking it or giving it back,
      whoever locks, tries, unlocks or is woken meanwhile. */
  lemma {:induction false} HeldUntilGivenBack(kind: Kind, events: seq<Event>, t: Thread, n: nat)
    requires IsRun(kind, events) && n <= |events| && Held(kind, events[..n], t) > 0
    requires forall k | n <= k < |events| :: events[k].t != t
    ensures After(kind, events).current == Some(t) && After(kind, events).count == After(kind, events[..n]).count
    ensures forall k | n <= k < |events| :: Step(After(kind, events[..k]), events[k]).1 != Ok
  {
    hide Step, Inv, Enabled;
    if n < |events| {
      var init := events[..|events| - 1];
      assert init[..n] == events[..n];
      HeldUntilGivenBack(kind, init, t, n);
      RunsAreSound(kind, init, t);
      OthersLeaveItAlone(After(kind, init), events[|init|], t);
      forall k | n <= k < |events|
        ensures Step(After(kind, events[..k]), events[k]).1 != Ok
      {
        if k < |init| {
          assert init[..k] == events[..k] && init[k] == events[k];
        } else {
          assert events[..k] == init;
        }
      }
    } else {
      assert events[..n] == events;
      RunsAreSound(kind, events, t);
    }
  }

  /** Nobody waits in vain: when a mutex with waiting threads is free, the one that came
      first is ready to run and will take it if it runs next. */
  lemma {:induction false} FreeMutexHasATaker(kind: Kind, events: seq<Event>)
    requires IsRun(kind, events)
    requires After(kind, events).current.None? && After(kind, events).waiting != []
    ensures var m := After(kind, events);
            var t := m.waiting[0];
            Enabled(m, Resume(t)) && Step(m, Resume(t)).1 == Ok && Step(m, Resume(t)).0.current == Some(t)
  {
    RunsAreSound(kind, events, 0);
  }

  // ---------- the operations ----------

  class PthreadMutex {
    const kind: Kind
    var count: nat
    var waiting: seq<Thread>
    var current: Option<Thread>
    // tasks that are ready, among those of the waiting threads
    var ready: set<Thread>

    function State(): Mutex
      reads this
    {
      Mutex(kind, count, waiting, current, ready)
    }

    constructor (kind: Kind)
      ensures State() == Initial(kind) && Inv(State())
    {
      this.kind, count, waiting, current, ready := kind, 0, [], None, {};
    }

    /** The head of the loop of lock: either the mutex is free and taken, or the thread
        goes to the end of the list and is suspended. */
    method TakeOrSuspend(t: Thread) returns (r: Outcome)
      modifies this
      ensures (State(), r) == TakeOrWait(old(State()), t)
    {
      if current.Some? {
        waiting, ready := waiting + [t], ready - {t};
        return Suspended;
      }
      current, count := Some(t), count + 1;
      return Ok;
    }

    method Lock(t: Thread) returns (r: Outcome)
      requires Inv(State()) && Enabled(State(), Event.Lock(t))
      modifies this
      ensures (State(), r) == Step(old(State()), Event.Lock(t)) && Inv(State())
    {
      StepKeepsInv(State(), Event.Lock(t));
      if current == Some(t) {
        if kind == RECURSIVE {
          count := count + 1;
          return Ok;
        }
        return Deadlk;
      }
      r := TakeOrSuspend(t);
    }

    /** A thread suspended in lock runs again. */
    method Resume(t: Thread) returns (r: Outcome)
      requires Inv(State()) && Enabled(State(), Event.Resume(t))
      modifies this
      ensures (State(), r) == Step(old(State()), Event.Resume(t)) && Inv(State())
    {
      StepKeepsInv(State(), Event.Resume(t));
      ready := ready - {t};
      waiting := RemoveAll(waiting, t);
      r := TakeOrSuspend(t);
    }

    method TryLock(t: Thread) returns (r: Outcome)
      requires Inv(State()) && Enabled(State(), Event.TryLock(t))
      modifies this
      ensures (State(), r) == Step(old(State()), Event.TryLock(t)) && Inv(State())
    {
      StepKeepsInv(State(), Event.TryLock(t));
      match kind
      case RECURSIVE =>
        if current.None? {
          current, count := Some(t), count + 1;
          return Ok;
        } else if current == Some(t) {
          count := count + 1;
          return Ok;
        } else {
          return Busy;
        }
      case NORMAL =>
        if current.None? {
          current, count := Some(t), count + 1;
          return Ok;
        } else {
          return Busy;
        }
    }

    method Unlock(t: Thread) returns (r: Outcome)
      requires Inv(State()) && Enabled(State(), Event.Unlock(t))
      modifies this
      ensures (State(), r) == Step(old(State()), Event.Unlock(t)) && Inv(State())
    {
      StepKeepsInv(State(), Event.Unlock(t));
      if current.None? || current != Some(t) {
        return Perm;
      }
      count := count - 1;
      if count == 0 {
        current := None;
        if waiting != [] {
          ready := ready + {waiting[0]};
        }
      }
      return Ok;
    }

    /** A waiting thread is woken, by a signal say. */
    method Wakeup(t: Thread)
      requires Inv(State()) && Enabled(State(), Event.Wakeup(t))
      modifies this`ready
      ensures State() == Step(old(State()), Event.Wakeup(t)).0 && Inv(State())
    {
      StepKeepsInv(State(), Event.Wakeup(t));
      ready := ready + {t};
    }

    /** A mutex can be destroyed just when nobody holds it and nobody waits for it, and
        then its count is zero. */
    method Destroyable() returns (ok: bool)
      requires Inv(State())
      ensures ok <==> current.None? && waiting == []
      ensures ok ==> count == 0
    {
      if current.Some? || waiting != [] {
        return false;
      }
      return true;
    }
  }
}
