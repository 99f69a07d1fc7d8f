/** The semaphores of a process (model/dce-semaphore.cc), as steps between the points
    where a thread gives up the processor. */
module Semaphore {
  import opened WaitingList

  /** `ready` are the suspended threads that may run again. */
  datatype Sem = Sem(count: nat, waiting: seq<Thread>, ready: set<Thread>)

  datatype Event =
    | Post(t: Thread)
    | Wait(t: Thread)
    | TryWait(t: Thread)
    | TimedWait(t: Thread, late: bool)
    | Resume(t: Thread)
    | Expire(t: Thread)
    | Wakeup(t: Thread)

  datatype Outcome = Posted | Acquired | Again | TimedOut | Suspended | Nothing

  predicate Enabled(s: Sem, e: Event) {
    match e
    case Resume(t) => t in s.ready
    case Expire(t) => t in s.waiting
    case Wakeup(t) => t in s.waiting
    case _ => e.t !in s.waiting
  }

  function TakeOrWait(s: Sem, t: Thread): (Sem, Outcome) {
    if s.count == 0 then (s.(waiting := s.waiting + [t], ready := s.ready - {t}), Suspended)
    else (s.(count := s.count - 1), Acquired)
  }

  function Left(s: Sem, t: Thread): Sem {
    s.(waiting := Remove(s.waiting, t), ready := s.ready - {t})
  }

  function Step(s: Sem, e: Event): (Sem, Outcome) {
    match e
    case Post(_) =>
      (Sem(s.count + 1, s.waiting, if s.waiting == [] then s.ready else s.ready + {s.waiting[0]}), Posted)
    case Wait(t) => TakeOrWait(s, t)
    case TryWait(_) => if s.count == 0 then (s, Again) else (s.(count := s.count - 1), Acquired)
    case TimedWait(t, late) =>
      if s.count > 0 then (s.(count := s.count - 1), Acquired)
      else if late then (s, TimedOut)
      else TakeOrWait(s, t)
    case Resume(t) => TakeOrWait(Left(s, t), t)
    case Expire(t) => (Left(s, t), TimedOut)
    case Wakeup(t) => (s.(ready := s.ready + {t}), Nothing)
  }

  // ---------- what every step keeps ----------

  ghost predicate Inv(s: Sem) {
    NoDuplicates(s.waiting) && forall t | t in s.ready :: t in s.waiting
  }

  lemma StepKeepsInv(s: Sem, e: Event)
    requires Inv(s) && Enabled(s, e)
    ensures Inv(Step(s, e).0)
  {
    RemoveKeepsOrder(s.waiting, e.t);
    QueueAtEnd(Remove(s.waiting, e.t), e.t);
  }

  // ---------- what each operation does ----------

  /** A thread that is not suspended may do anything. */
  lemma RunningMayAct(s: Sem, t: Thread, late: bool)
    requires t !in s.waiting
    ensures Enabled(s, Post(t)) && Enabled(s, Wait(t)) && Enabled(s, TryWait(t)) && Enabled(s, TimedWait(t, late))
  {
  }

  /** One more, and the thread that has waited longest may run. */
  lemma PostDecides(s: Sem, t: Thread)
    ensures var (s', r) := Step(s, Post(t));
            && r == Posted && s'.count == s.count + 1 && s'.waiting == s.waiting
            && (s.waiting == [] ==> s'.ready == s.ready)
            && (s.waiting != [] ==> s'.ready == s.ready + {s.waiting[0]})
  {
  }

  /** All three take one exactly if there is one; without one the first queues, the second
      fails, and the third fails if its time is over and queues if it is not. */
  lemma WaitsDecide(s: Sem, t: Thread, late: bool)
    ensures var w, y, d := Step(s, Wait(t)), Step(s, TryWait(t)), Step(s, TimedWait(t, late));
            && (w.1 == Acquired <==> s.count > 0) && (y.1 == Acquired <==> s.count > 0)
            && (d.1 == Acquired <==> s.count > 0)
            && (s.count > 0 ==> w.0 == y.0 == d.0 == s.(count := s.count - 1))
            && (s.count == 0 ==> y == (s, Again) && (late ==> d == (s, TimedOut)) && (!late ==> d == w))
            && (s.count == 0 ==> w.1 == Suspended && w.0 == Sem(0, s.waiting + [t], s.ready - {t}))
  {
  }

  /** A thread that was woken takes one if there is one, and queues again if not; one whose
      time is over leaves without a look. */
  lemma ResumeDecides(s: Sem, before: seq<Thread>, t: Thread, after: seq<Thread>)
    requires Inv(s) && s.waiting == before + [t] + after
    ensures t in s.ready ==>
              var (s', r) := Step(s, Resume(t));
              if s.count > 0 then r == Acquired && s' == Sem(s.count - 1, before + after, s.ready - {t})
              else r == Suspended && s' == Sem(0, before + after + [t], s.ready - {t})
    ensures Step(s, Expire(t)) == (Sem(s.count, before + after, s.ready - {t}), TimedOut)
  {
    assert s.waiting[|before|] == t;
    forall i | 0 <= i < |before|
      ensures before[i] != t
    {
      assert s.waiting[i] == before[i];
    }
    forall i | 0 <= i < |after|
      ensures after[i] != t
    {
      assert s.waiting[|before| + 1 + i] == after[i];
    }
    RemoveAt(before, t, after);
    assert s.ready - {t} - {t} == s.ready - {t};
  }

  /** If there is something to take, the thread that has waited longest may run. */
  ghost predicate Prompt(s: Sem) {
    s.count > 0 && s.waiting != [] ==> s.waiting[0] in s.ready
  }

  /** The first waiting thread leaves the list while something is left to take, and the
      next one has not been woken. */
  ghost predicate Strands(s: Sem, e: Event) {
    && (e.Resume? || e.Expire?) && s.waiting != [] && e.t == s.waiting[0]
    && (if e.Resume? then s.count > 1 else s.count > 0)
    && |s.waiting| > 1 && s.waiting[1] !in s.ready
  }

  /** Promptness is lost in that one way and no other. */
  lemma PromptnessLost(s: Sem, e: Event)
    requires Inv(s) && Enabled(s, e) && Prompt(s)
    ensures Prompt(Step(s, e).0) <==> !Strands(s, e)
  {
    RemoveKeepsOrder(s.waiting, e.t);
    if s.waiting != [] && s.waiting[0] == e.t {
      var rest := s.waiting[1..];
      assert e.t !in rest && NoDuplicates(rest);
      RemoveKeepsOrder(rest, e.t);
      assert Remove(s.waiting, e.t) == rest;
    }
  }

  // ---------- whole runs ----------

  function Initial(value: nat): Sem {
    Sem(value, [], {})
  }

  function After(value: nat, events: seq<Event>): Sem {
    if events == [] then Initial(value) else Step(After(value, events[..|events| - 1]), events[|events| - 1]).0
  }

  ghost predicate IsRun(value: nat, events: seq<Event>) {
    events == [] ||
    (IsRun(value, events[..|events| - 1]) && Enabled(After(value, events[..|events| - 1]), events[|events| - 1]))
  }

  function Count(value: nat, events: seq<Event>, o: Outcome): nat {
    if events == [] then 0
    else
      var init, e := events[..|events| - 1], events[|events| - 1];
      Count(value, init, o) + (if Step(After(value, init), e).1 == o then 1 else 0)
  }

  /** Nothing is lost or made up: the initial value and the posts are what is left and
      what was acquired. */
  lemma {:induction false} Conservation(value: nat, events: seq<Event>)
    requires IsRun(value, events)
    ensures value + Count(value, events, Posted) == After(value, events).count + Count(value, events, Acquired)
    ensures Inv(After(value, events))
  {
    if events != [] {
      var init, e := events[..|events| - 1], events[|events| - 1];
      Conservation(value, init);
      StepKeepsInv(After(value, init), e);
    }
  }

  /** The threads that entered the list and have not left it: those that were suspended. */
  function InList(value: nat, events: seq<Event>): set<Thread> {
    if events == [] then {}
    else
      var init, e := events[..|events| - 1], events[|events| - 1];
      var r := Step(After(value, init), e).1;
      if r == Suspended then InList(value, init) + {e.t}
      else if e.Resume? || e.Expire? then InList(value, init) - {e.t}
      else InList(value, init)
  }

  lemma {:induction false} WaitingAreSuspended(value: nat, events: seq<Event>, t: Thread)
    requires IsRun(value, events)
    ensures t in After(value, events).waiting <==> t in InList(value, events)
  {
    if events != [] {
      WaitingAreSuspended(value, events[..|events| - 1], t);
    }
  }

  ghost predicate StrandsAt(value: nat, events: seq<Event>, k: nat)
    requires k < |events|
  {
    Strands(After(value, events[..k]), events[k])
  }

  ghost predicate PromptAt(value: nat, events: seq<Event>, k: nat)
    requires k <= |events|
  {
    Prompt(After(value, events[..k]))
  }

  lemma {:induction false} RunPrefix(value: nat, events: seq<Event>, n: nat)
    requires IsRun(value, events) && n <= |events|
    ensures IsRun(value, events[..n])
    decreases |events|
  {
    if n == |events| {
      assert events[..n] == events;
    } else {
      RunUnfolds(value, events);
      hide IsRun;
      RunPrefix(value, events[..|events| - 1], n);
      assert events[..|events| - 1][..n] == events[..n];
    }
  }

  lemma RunUnfolds(value: nat, events: seq<Event>)
    requires IsRun(value, events) && events != []
    ensures var n := |events| - 1;
            IsRun(value, events[..n]) && Enabled(After(value, events[..n]), events[n])
    ensures var n := |events| - 1;
            After(value, events) == Step(After(value, events[..n]), events[n]).0
  {
  }

  lemma RunStep(value: nat, events: seq<Event>, n: nat)
    requires IsRun(value, events) && n < |events|
    ensures IsRun(value, events[..n]) && Enabled(After(value, events[..n]), events[n])
    ensures After(value, events[..n + 1]) == Step(After(value, events[..n]), events[n]).0
  {
    hide IsRun, After, Step, Enabled;
    RunPrefix(value, events, n + 1);
    RunUnfolds(value, events[..n + 1]);
    assert events[..n + 1][..n] == events[..n] && events[..n + 1][n] == events[n];
  }

  /** Over a whole run: the first waiting thread is never left asleep beside something to
      take if and only if no step strands the next one. */
  lemma {:induction false} PromptAllAlong(value: nat, events: seq<Event>, n: nat)
    requires IsRun(value, events) && n <= |events|
    ensures (forall k: nat {:trigger PromptAt(value, events, k)} | k <= n :: PromptAt(value, events, k)) <==>
            (forall k: nat {:trigger StrandsAt(value, events, k)} | k < n :: !StrandsAt(value, events, k))
  {
    hide IsRun, After, Prompt, Strands, Step, Enabled, Inv;
    if n == 0 {
      assert events[..0] == [];
      StartsPrompt(value);
    } else {
      PromptAllAlong(value, events, n - 1);
      RunStep(value, events, n - 1);
      Conservation(value, events[..n - 1]);
      if PromptAt(value, events, n - 1) {
        PromptnessLost(After(value, events[..n - 1]), events[n - 1]);
        assert PromptAt(value, events, n) <==> !StrandsAt(value, events, n - 1);
      }
    }
  }

  lemma StartsPrompt(value: nat)
    ensures Prompt(After(value, []))
  {
  }

  /** The count never exceeds one. */
  ghost predicate Binary(value: nat, events: seq<Event>) {
    forall k | 0 <= k <= |events| :: After(value, events[..k]).count <= 1
  }

  /** A semaphore used in this way never leaves its first waiting thread asleep while there
      is something to take, unless a timer expires on a thread that was woken already. */
  lemma BinaryIsPrompt(value: nat, events: seq<Event>)
    requires IsRun(value, events) && Binary(value, events)
    ensures (forall k: nat {:trigger PromptAt(value, events, k)} | k <= |events| :: PromptAt(value, events, k)) <==>
            (forall k: nat {:trigger StrandsAt(value, events, k)} | k < |events| && events[k].Expire? ::
               !StrandsAt(value, events, k))
  {
    PromptAllAlong(value, events, |events|);
    forall k: nat | k < |events| && !events[k].Expire?
      ensures !StrandsAt(value, events, k)
    {
      assert After(value, events[..k]).count <= 1;
    }
  }

  lemma OneMore(value: nat, events: seq<Event>, s: Sem, e: Event, events': seq<Event>, s': Sem)
    requires IsRun(value, events) && After(value, events) == s && Enabled(s, e)
    requires events' == events + [e] && s' == Step(s, e).0
    ensures IsRun(value, events') && After(value, events') == s'
  {
    assert events'[..|events|] == events;
  }

  lemma FirstOfTwoLeaves()
    ensures Remove([1, 2], 1) == [2]
  {
    assert [1, 2][1..] == [2] && [2][1..] == [];
  }

  lemma EmptyRun(value: nat)
    ensures IsRun(value, []) && After(value, []) == Sem(value, [], {})
  {
  }

  lemma OneWaits(first: Event)
    requires first == Wait(1) || first == TimedWait(1, false)
    ensures IsRun(0, [first]) && After(0, [first]) == Sem(0, [1], {})
  {
    EmptyRun(0);
    hide IsRun, After;
    assert [] + [1] == [1];
    OneMore(0, [], Sem(0, [], {}), first, [first], Sem(0, [1], {}));
  }

  lemma TwoWait(first: Event)
    requires first == Wait(1) || first == TimedWait(1, false)
    ensures IsRun(0, [first, Wait(2)]) && After(0, [first, Wait(2)]) == Sem(0, [1, 2], {})
  {
    OneWaits(first);
    hide IsRun, After;
    assert [1] + [2] == [1, 2];
    OneMore(0, [first], Sem(0, [1], {}), Wait(2), [first, Wait(2)], Sem(0, [1, 2], {}));
  }

  lemma TwoWaitAndAPost(first: Event)
    requires first == Wait(1) || first == TimedWait(1, false)
    ensures IsRun(0, [first, Wait(2), Post(3)]) && After(0, [first, Wait(2), Post(3)]) == Sem(1, [1, 2], {1})
  {
    TwoWait(first);
    hide IsRun, After;
    OneMore(0, [first, Wait(2)], Sem(0, [1, 2], {}), Post(3), [first, Wait(2), Post(3)], Sem(1, [1, 2], {1}));
  }

  /** What the first of two waiting threads leaves behind. */
  lemma FirstLeaves(count: nat)
    requires count > 0
    ensures Step(Sem(count, [1, 2], {1}), Resume(1)).0 == Sem(count - 1, [2], {})
    ensures Step(Sem(count, [1, 2], {1}), Expire(1)).0 == Sem(count, [2], {})
  {
    FirstOfTwoLeaves();
    hide Remove;
    var one: set<Thread> := {1};
    assert one - {1} == {};
  }

  /** Two posts in a row wake the same thread: the second waiting thread sleeps on beside
      a count of one. */
  lemma TwoPostsStrandAWaiter()
    ensures var events := [Wait(1), Wait(2), Post(3), Post(3), Resume(1)];
            IsRun(0, events) && After(0, events) == Sem(1, [2], {}) && !Prompt(After(0, events))
  {
    hide IsRun, After;
    var e3 := [Wait(1), Wait(2), Post(3)];
    TwoWaitAndAPost(Wait(1));
    OneMore(0, e3, Sem(1, [1, 2], {1}), Post(3), e3 + [Post(3)], Sem(2, [1, 2], {1}));
    hide Step;
    FirstLeaves(2);
    assert e3 + [Post(3)] + [Resume(1)] == [Wait(1), Wait(2), Post(3), Post(3), Resume(1)];
    OneMore(0, e3 + [Post(3)], Sem(2, [1, 2], {1}), Resume(1), e3 + [Post(3)] + [Resume(1)], Sem(1, [2], {}));
  }

  /** A timer that expires on a thread already woken by a post has the same effect. */
  lemma ExpiryStrandsAWaiter()
    ensures var events := [TimedWait(1, false), Wait(2), Post(3), Expire(1)];
            IsRun(0, events) && After(0, events) == Sem(1, [2], {}) && !Prompt(After(0, events))
  {
    hide IsRun, After, Step;
    var e3 := [TimedWait(1, false), Wait(2), Post(3)];
    TwoWaitAndAPost(TimedWait(1, false));
    FirstLeaves(1);
    assert e3 + [Expire(1)] == [TimedWait(1, false), Wait(2), Post(3), Expire(1)];
    OneMore(0, e3, Sem(1, [1, 2], {1}), Expire(1), e3 + [Expire(1)], Sem(1, [2], {}));
  }

  // ---------- the operations ----------

  class PosixSemaphore {
    var count: nat
    var waiting: seq<Thread>
    // tasks that are ready, among those of the waiting threads
    var ready: set<Thread>

    function State(): Sem
      reads this
    {
      Sem(count, waiting, ready)
    }

    constructor (value: nat)
      ensures State() == Initial(value) && Inv(State())
    {
      count, waiting, ready := value, [], {};
    }

    /** A suspended thread runs again and leaves the list. */
    method Leave(t: Thread)
      modifies this`waiting, this`ready
      ensures State() == Left(old(State()), t)
    {
      ready := ready - {t};
      waiting := RemoveAll(waiting, t);
    }

    method TakeOrSuspend(t: Thread) returns (r: Outcome)
      modifies this
      ensures (State(), r) == TakeOrWait(old(State()), t)
    {
      if count == 0 {
        waiting, ready := waiting + [t], ready - {t};
        return Suspended;
      }
      count := count - 1;
      return Acquired;
    }

    method Post(t: Thread) returns (r: Outcome)
      requires Inv(State()) && Enabled(State(), Event.Post(t))
      modifies this
      ensures (State(), r) == Step(old(State()), Event.Post(t)) && Inv(State()) && Prompt(State())
    {
      StepKeepsInv(State(), Event.Post(t));
      count := count + 1;
      if waiting != [] {
        ready := ready + {waiting[0]};
      }
      return Posted;
    }

    method Wait(t: Thread) returns (r: Outcome)
      requires Inv(State()) && Enabled(State(), Event.Wait(t))
      modifies this
      ensures (State(), r) == Step(old(State()), Event.Wait(t)) && Inv(State())
    {
      StepKeepsInv(State(), Event.Wait(t));
      r := TakeOrSuspend(t);
    }

    method TryWait(t: Thread) returns (r: Outcome)
      requires Inv(State()) && Enabled(State(), Event.TryWait(t))
      modifies this
      ensures (State(), r) == Step(old(State()), Event.TryWait(t)) && Inv(State())
    {
      StepKeepsInv(State(), Event.TryWait(t));
      if count == 0 {
        return Again;
      }
      count := count - 1;
      return Acquired;
    }

    /** `late` if the time given has passed already. */
    method TimedWait(t: Thread, late: bool) returns (r: Outcome)
      requires Inv(State()) && Enabled(State(), Event.TimedWait(t, late))
      modifies this
      ensures (State(), r) == Step(old(State()), Event.TimedWait(t, late)) && Inv(State())
    {
      StepKeepsInv(State(), Event.TimedWait(t, late));
      if count > 0 {
        count := count - 1;
        return Acquired;
      }
      if late {
        return TimedOut;
      }
      r := TakeOrSuspend(t);
    }

    /** A thread suspended in wait or timedwait runs again, with time left. */
    method Resume(t: Thread) returns (r: Outcome)
      requires Inv(State()) && Enabled(State(), Event.Resume(t))
      modifies this
      ensures (State(), r) == Step(old(State()), Event.Resume(t)) && Inv(State())
    {
      StepKeepsInv(State(), Event.Resume(t));
      Leave(t);
      r := TakeOrSuspend(t);
    }

    /** A thread suspended in timedwait runs again, with no time left: it gives up without
        a look at the count. */
    method Expire(t: Thread) returns (r: Outcome)
      requires Inv(State()) && Enabled(State(), Event.Expire(t))
      modifies this
      ensures (State(), r) == Step(old(State()), Event.Expire(t)) && Inv(State())
    {
      StepKeepsInv(State(), Event.Expire(t));
      Leave(t);
      return TimedOut;
    }
  }
}
