/** The threads of a process: identifiers, creation, exit, join and detach
    (model/dce-manager.cc, model/dce-pthread.cc).

    A joining thread holds a pointer to the record of the thread it waits for across the
    time it is suspended, so records are named by pointers here, which are never used
    twice; thread ids are.  Everything between two points where a thread gives up the
    processor is one step. */
module Threads {
  import opened Options
  import opened WaitingList

  // ---------- identifiers ----------

  const WORD := 0x1_0000

  /** The thread id in the upper half of a handle, the process id in the lower one. */
  function PidTidToPthread(pid: nat, tid: nat): nat {
    tid * WORD % (WORD * WORD) + pid
  }

  function PthreadToTid(handle: nat): nat {
    handle / WORD % WORD
  }

  function PthreadToPid(handle: nat): nat {
    handle % WORD
  }

  /** Handles and pairs of 16-bit ids stand for each other. */
  lemma HandlesAreFaithful(pid: nat, tid: nat, handle: nat)
    requires pid < WORD && tid < WORD && handle < WORD * WORD
    ensures PidTidToPthread(pid, tid) == tid * 0x1_0000 + pid < WORD * WORD
    ensures PthreadToPid(PidTidToPthread(pid, tid)) == pid && PthreadToTid(PidTidToPthread(pid, tid)) == tid
    ensures PidTidToPthread(PthreadToPid(handle), PthreadToTid(handle)) == handle
  {
    assert tid * WORD % (WORD * WORD) == tid * WORD;
    assert (tid * WORD + pid) / WORD == tid;
    assert handle / WORD < WORD;
  }

  // ---------- records ----------

  type Rec = Thread

  datatype ThreadRec = ThreadRec(tid: nat, isDetached: bool, hasExitValue: bool, exitValue: int,
                                 joinWaiter: Option<Rec>, joining: Option<Rec>, ready: bool)

  /** `joining` is the thread that a suspended thread waits for; `ready` tells whether it
      has been woken since. */
  datatype State = ProcessThreads(recs: map<Rec, ThreadRec>, threads: seq<Rec>, next: Rec)

  datatype Event =
    | Create(c: Rec)
    | Exit(c: Rec, arg: int)
    | Join(c: Rec, tid: nat)
    | Resume(c: Rec)
    | Detach(c: Rec, tid: nat)
    | Wakeup(c: Rec)

  datatype Outcome =
    | Created(r: Rec)
    | TooMany
    | Exited
    | ProcessEnds
    | Deadlk
    | Srch
    | Inval
    | Suspended
    | Joined(r: Rec, value: int)
    | Detached
    | Nothing

  /** The thread with an id: the first on the list. */
  function Find(s: State, tid: nat): (r: Option<Rec>) {
    FindIn(s.recs, s.threads, tid)
  }

  function FindIn(recs: map<Rec, ThreadRec>, threads: seq<Rec>, tid: nat): (r: Option<Rec>)
    ensures r.Some? ==> r.value in threads && r.value in recs && recs[r.value].tid == tid
    ensures r.None? ==> forall k | k in threads && k in recs :: recs[k].tid != tid
  {
    if threads == [] then None
    else if threads[0] in recs && recs[threads[0]].tid == tid then Some(threads[0])
    else FindIn(recs, threads[1..], tid)
  }

  const LIMIT := 0xffff

  /** The least thread id at or above n that is not in use. */
  function LeastFree(s: State, n: nat): (r: Option<nat>)
    requires n <= LIMIT
    ensures r.Some? ==> n <= r.value < LIMIT && Find(s, r.value).None?
    ensures r.Some? ==> forall k | n <= k < r.value :: Find(s, k).Some?
    ensures r.None? ==> forall k | n <= k < LIMIT :: Find(s, k).Some?
    decreases LIMIT - n
  {
    if n == LIMIT then None
    else if Find(s, n).None? then Some(n)
    else LeastFree(s, n + 1)
  }

  /** Takes a thread off the list and frees its record. */
  function Deleted(s: State, r: Rec): State {
    s.(recs := s.recs - {r}, threads := Remove(s.threads, r))
  }

  /** A new record at the end of the list, under an id. */
  function Born(s: State, tid: nat): State {
    var t := ThreadRec(tid, false, false, 0, None, None, false);
    ProcessThreads(s.recs[s.next := t], s.threads + [s.next], s.next + 1)
  }

  function Update(s: State, r: Rec, v: ThreadRec): State {
    s.(recs := s.recs[r := v])
  }

  /** The head of the loop of join. */
  function JoinLoop(s: State, c: Rec, g: Rec): (State, Outcome)
    requires c in s.recs && g in s.recs
  {
    if !s.recs[g].hasExitValue then
      var s1 := Update(s, g, s.recs[g].(joinWaiter := Some(c)));
      (Update(s1, c, s1.recs[c].(joining := Some(g), ready := false)), Suspended)
    else (Deleted(s, g), Joined(g, s.recs[g].exitValue))
  }

  /** Whoever acts is running: it has not exited and is not suspended. */
  predicate Enabled(s: State, e: Event) {
    e.c in s.recs &&
    match e
    case Resume(c) => s.recs[c].joining.Some? && s.recs[c].ready && s.recs[c].joining.value in s.recs
    case Wakeup(c) => s.recs[c].joining.Some?
    case Exit(c, _) =>
      && !s.recs[c].hasExitValue && s.recs[c].joining.None?
      && (s.recs[c].joinWaiter.Some? ==> s.recs[c].joinWaiter.value in s.recs)
    case _ => !s.recs[e.c].hasExitValue && s.recs[e.c].joining.None?
  }

  function Step(s: State, e: Event): (State, Outcome)
    requires Enabled(s, e)
  {
    match e
    case Create(_) =>
      var tid := LeastFree(s, 0);
      if tid.None? then (s, TooMany)
      else (Born(s, tid.value), Created(s.next))
    case Exit(c, arg) =>
      if |s.threads| == 1 then (ProcessThreads(map[], [], s.next), ProcessEnds)
      else if s.recs[c].isDetached then (Deleted(s, c), Exited)
      else
        var s1 := Update(s, c, s.recs[c].(hasExitValue := true, exitValue := arg));
        var w := s.recs[c].joinWaiter;
        (if w.Some? then Update(s1, w.value, s1.recs[w.value].(ready := true)) else s1, Exited)
    case Join(c, tid) =>
      if s.recs[c].tid == tid then (s, Deadlk)
      else if Find(s, tid).None? then (s, Srch)
      else
        var g := Find(s, tid).value;
        if s.recs[g].isDetached || s.recs[g].joinWaiter.Some? then (s, Inval) else JoinLoop(s, c, g)
    case Resume(c) =>
      var g := s.recs[c].joining.value;
      var s1 := Update(s, g, s.recs[g].(joinWaiter := None));
      JoinLoop(Update(s1, c, s1.recs[c].(joining := None)), c, g)
    case Detach(_, tid) =>
      if Find(s, tid).None? then (s, Srch)
      else
        var g := Find(s, tid).value;
        if s.recs[g].isDetached then (s, Inval)
        else if s.recs[g].joinWaiter.Some? then (s, Nothing)
        else (Update(s, g, s.recs[g].(isDetached := true)), Detached)
    case Wakeup(c) => (Update(s, c, s.recs[c].(ready := true)), Nothing)
  }

  lemma CreateStep(s: State, c: Rec)
    requires Enabled(s, Create(c))
    ensures var tid := LeastFree(s, 0);
            Step(s, Create(c)) == if tid.None? then (s, TooMany) else (Born(s, tid.value), Created(s.next))
  {
  }

  // ---------- what every step keeps ----------

  /** Who waits for r, and whom r waits for: the two sides agree, a thread that is waited
      for is not detached, and its waiter has been woken once it has exited. */
  ghost predicate RecOk(s: State, r: Rec)
    requires r in s.recs
  {
    var t := s.recs[r];
    && r < s.next && r in s.threads && t.tid < LIMIT
    && (t.joinWaiter.Some? ==>
          var w := t.joinWaiter.value;
          && w in s.recs && w != r && s.recs[w].joining == Some(r) && !t.isDetached
          && (t.hasExitValue ==> s.recs[w].ready))
    && (t.joining.Some? ==>
          var g := t.joining.value;
          && g in s.recs && g != r && s.recs[g].joinWaiter == Some(r) && !t.hasExitValue)
  }

  ghost predicate ListOk(s: State) {
    && NoDuplicates(s.threads) && (forall r | r in s.threads :: r in s.recs)
    && forall q, r | q in s.recs && r in s.recs && q != r :: s.recs[q].tid != s.recs[r].tid
  }

  ghost predicate Inv(s: State) {
    ListOk(s) && forall r {:trigger RecOk(s, r)} | r in s.recs :: RecOk(s, r)
  }

  lemma DeletedKeepsInv(s: State, g: Rec)
    requires Inv(s) && g in s.recs && s.recs[g].joinWaiter.None? && s.recs[g].joining.None?
    ensures Inv(Deleted(s, g))
  {
    var s' := Deleted(s, g);
    RemoveKeepsOrder(s.threads, g);
    forall r | r in s'.recs
      ensures RecOk(s', r)
    {
      assert RecOk(s, r);
      if s.recs[r].joinWaiter.Some? {
        assert RecOk(s, s.recs[r].joinWaiter.value);
      }
      if s.recs[r].joining.Some? {
        assert RecOk(s, s.recs[r].joining.value);
      }
    }
  }

  lemma CreateKeepsInv(s: State, tid: nat)
    requires Inv(s) && tid < LIMIT && Find(s, tid).None?
    ensures Inv(Born(s, tid))
  {
    var s' := Born(s, tid);
    forall r | r in s.recs
      ensures r != s.next
    {
      assert RecOk(s, r);
    }
    QueueAtEnd(s.threads, s.next);
    forall r | r in s'.recs
      ensures RecOk(s', r)
    {
      assert r in s.recs ==> RecOk(s, r);
    }
    forall q | q in s.recs
      ensures s.recs[q].tid != tid
    {
      assert RecOk(s, q);
    }
  }

  /** A record changes in what its partners do not depend on. */
  lemma UpdateKeepsInv(s: State, g: Rec, v: ThreadRec)
    requires Inv(s) && g in s.recs
    requires v.tid == s.recs[g].tid && v.joinWaiter == s.recs[g].joinWaiter && v.joining == s.recs[g].joining
    requires v.isDetached != s.recs[g].isDetached ==> v.joinWaiter.None?
    requires v.hasExitValue ==>
               && v.joining.None?
               && (v.joinWaiter.Some? ==> v.joinWaiter.value in s.recs && s.recs[v.joinWaiter.value].ready)
    requires s.recs[g].ready ==> v.ready
    ensures Inv(Update(s, g, v))
  {
    var s' := Update(s, g, v);
    forall r | r in s'.recs
      ensures RecOk(s', r)
    {
      assert RecOk(s, r) && RecOk(s, g);
    }
  }

  ghost predicate CanWait(s: State, c: Rec, g: Rec) {
    && c in s.recs && g in s.recs && c != g
    && !s.recs[c].hasExitValue && s.recs[c].joining.None?
    && s.recs[g].joinWaiter.None? && !s.recs[g].isDetached
  }

  lemma SuspendKeepsRec(s: State, c: Rec, g: Rec, r: Rec)
    requires Inv(s) && CanWait(s, c, g) && !s.recs[g].hasExitValue && r in s.recs
    ensures RecOk(JoinLoop(s, c, g).0, r)
  {
    hide ListOk;
    assert RecOk(s, r) && RecOk(s, c) && RecOk(s, g);
  }

  lemma SuspendKeepsInv(s: State, c: Rec, g: Rec)
    requires Inv(s) && CanWait(s, c, g) && !s.recs[g].hasExitValue
    ensures Inv(JoinLoop(s, c, g).0)
  {
    var s' := JoinLoop(s, c, g).0;
    assert s'.recs.Keys == s.recs.Keys;
    hide RecOk;
    forall r | r in s'.recs
      ensures RecOk(s', r)
    {
      SuspendKeepsRec(s, c, g, r);
    }
  }

  /** The assertions behind the loop of join hold, and what it frees nobody waits for. */
  lemma JoinLoopKeepsInv(s: State, c: Rec, g: Rec)
    requires Inv(s) && CanWait(s, c, g)
    ensures Inv(JoinLoop(s, c, g).0)
  {
    if s.recs[g].hasExitValue {
      assert RecOk(s, g);
      DeletedKeepsInv(s, g);
    } else {
      SuspendKeepsInv(s, c, g);
    }
  }

  lemma UnjoinKeepsInv(s: State, c: Rec, g: Rec)
    requires Inv(s) && c in s.recs && s.recs[c].joining == Some(g)
    ensures g in s.recs && g != c
    ensures var s1 := Update(s, g, s.recs[g].(joinWaiter := None));
            var s2 := Update(s1, c, s1.recs[c].(joining := None));
            Inv(s2) && CanWait(s2, c, g)
  {
    assert RecOk(s, c) && RecOk(s, g);
    var s1 := Update(s, g, s.recs[g].(joinWaiter := None));
    var s2 := Update(s1, c, s1.recs[c].(joining := None));
    assert s2.recs.Keys == s.recs.Keys;
    forall r | r in s2.recs
      ensures RecOk(s2, r)
    {
      assert RecOk(s, r);
    }
  }

  lemma ExitKeepsInv(s: State, c: Rec, arg: int)
    requires Inv(s) && Enabled(s, Exit(c, arg)) && |s.threads| != 1
    ensures Inv(Step(s, Exit(c, arg)).0)
  {
    assert RecOk(s, c);
    if s.recs[c].isDetached {
      DeletedKeepsInv(s, c);
    } else {
      var w := s.recs[c].joinWaiter;
      if w.Some? {
        UpdateKeepsInv(s, w.value, s.recs[w.value].(ready := true)) by { assert RecOk(s, w.value); }
        var s1 := Update(s, w.value, s.recs[w.value].(ready := true));
        UpdateKeepsInv(s1, c, s.recs[c].(hasExitValue := true, exitValue := arg));
        assert Update(s1, c, s.recs[c].(hasExitValue := true, exitValue := arg)).recs == Step(s, Exit(c, arg)).0.recs;
      } else {
        UpdateKeepsInv(s, c, s.recs[c].(hasExitValue := true, exitValue := arg));
      }
    }
  }

  lemma JoinKeepsInv(s: State, c: Rec, tid: nat)
    requires Inv(s) && Enabled(s, Join(c, tid))
    ensures Inv(Step(s, Join(c, tid)).0)
  {
    var g := Find(s, tid);
    if s.recs[c].tid != tid && g.Some? && !s.recs[g.value].isDetached && s.recs[g.value].joinWaiter.None? {
      JoinLoopKeepsInv(s, c, g.value);
    }
  }

  lemma ResumeKeepsInv(s: State, c: Rec)
    requires Inv(s) && Enabled(s, Resume(c))
    ensures Inv(Step(s, Resume(c)).0)
  {
    var g := s.recs[c].joining.value;
    UnjoinKeepsInv(s, c, g);
    var s1 := Update(s, g, s.recs[g].(joinWaiter := None));
    JoinLoopKeepsInv(Update(s1, c, s1.recs[c].(joining := None)), c, g);
  }

  lemma DetachKeepsInv(s: State, c: Rec, tid: nat)
    requires Inv(s) && Enabled(s, Detach(c, tid))
    ensures Inv(Step(s, Detach(c, tid)).0)
  {
    var g := Find(s, tid);
    if g.Some? && !s.recs[g.value].isDetached && s.recs[g.value].joinWaiter.None? {
      assert RecOk(s, g.value);
      UpdateKeepsInv(s, g.value, s.recs[g.value].(isDetached := true));
    }
  }

  lemma WakeupKeepsInv(s: State, c: Rec)
    requires Inv(s) && Enabled(s, Wakeup(c))
    ensures Inv(Step(s, Wakeup(c)).0)
  {
    assert RecOk(s, c);
    UpdateKeepsInv(s, c, s.recs[c].(ready := true));
  }

  lemma NobodyLeft(next: Rec)
    ensures Inv(ProcessThreads(map[], [], next))
  {
  }

  lemma StepKeepsInv(s: State, e: Event)
    requires Inv(s) && Enabled(s, e)
    ensures Inv(Step(s, e).0)
  {
    hide RecOk, FindIn, Remove, JoinLoop, ListOk;
    match e
    case Create(_) =>
      var tid := LeastFree(s, 0);
      if tid.Some? {
        CreateKeepsInv(s, tid.value);
      }
    case Exit(c, arg) =>
      if |s.threads| == 1 {
        NobodyLeft(s.next);
      } else {
        ExitKeepsInv(s, c, arg);
      }
    case Join(c, tid) => JoinKeepsInv(s, c, tid);
    case Resume(c) => ResumeKeepsInv(s, c);
    case Detach(c, tid) => DetachKeepsInv(s, c, tid);
    case Wakeup(c) => WakeupKeepsInv(s, c);
  }

  // ---------- what each operation does ----------

  /** A thread that has not exited and does not wait may do anything. */
  lemma RunningMayAct(s: State, e: Event)
    requires Inv(s) && e.c in s.recs && !s.recs[e.c].hasExitValue && s.recs[e.c].joining.None?
    requires !e.Resume? && !e.Wakeup?
    ensures Enabled(s, e)
  {
    assert RecOk(s, e.c);
  }

  lemma FoundByTid(s: State, tid: nat)
    requires Inv(s)
    ensures Find(s, tid).None? <==> forall r | r in s.recs :: s.recs[r].tid != tid
    ensures forall r | r in s.recs && s.recs[r].tid == tid :: Find(s, tid) == Some(r)
  {
    forall r | r in s.recs
      ensures r in s.threads
    {
      assert RecOk(s, r);
    }
  }

  /** The others' records are as they were. */
  ghost predicate OnlyThese(s: State, s': State, touched: set<Rec>) {
    && s'.next == s.next && (forall r | r in s'.recs :: r in s.recs)
    && forall r | r in s.recs && r !in touched :: r in s'.recs && s'.recs[r] == s.recs[r]
  }

  /** A join is refused for the caller's own id, for an id nobody has, and for a thread that
      is detached or that somebody joins already; otherwise it succeeds at once if the thread
      has exited, and suspends the caller if not. */
  lemma JoinDecides(s: State, c: Rec, tid: nat)
    requires Inv(s) && Enabled(s, Join(c, tid))
    ensures var (s', o) := Step(s, Join(c, tid));
            && (o == Deadlk <==> s.recs[c].tid == tid)
            && (o == Srch <==> forall r | r in s.recs :: s.recs[r].tid != tid)
            && (o == Deadlk || o == Srch ==> s' == s)
    ensures forall g | g in s.recs && g != c && s.recs[g].tid == tid ::
              var (s', o), t := Step(s, Join(c, tid)), s.recs[g];
              && (o == Inval <==> t.isDetached || t.joinWaiter.Some?) && (o == Inval ==> s' == s)
              && (o != Inval && t.hasExitValue ==>
                    && o == Joined(g, t.exitValue) && g !in s'.recs && g !in s'.threads && OnlyThese(s, s', {g}))
              && (o != Inval && !t.hasExitValue ==>
                    && o == Suspended && g in s'.recs && c in s'.recs && s'.threads == s.threads
                    && s'.recs[g] == t.(joinWaiter := Some(c))
                    && s'.recs[c] == s.recs[c].(joining := Some(g), ready := false) && OnlyThese(s, s', {c, g}))
  {
    FoundByTid(s, tid);
    hide FindIn, Inv;
  }

  /** Whoever comes back from a join has the value if the thread has exited meanwhile, and
      else waits on. */
  lemma ResumeDecides(s: State, c: Rec)
    requires Inv(s) && Enabled(s, Resume(c))
    ensures var (s', o), g := Step(s, Resume(c)), s.recs[c].joining.value;
            && g in s.recs && g != c && c in s'.recs
            && (if s.recs[g].hasExitValue then
                  && o == Joined(g, s.recs[g].exitValue) && g !in s'.recs && g !in s'.threads
                  && s'.recs[c] == s.recs[c].(joining := None)
                else
                  && o == Suspended && g in s'.recs && s'.recs[g] == s.recs[g] && s'.threads == s.threads
                  && s'.recs[c] == s.recs[c].(ready := false))
            && OnlyThese(s, s', {c, g})
  {
    var g := s.recs[c].joining.value;
    assert RecOk(s, c) && RecOk(s, g);
  }

  /** A detach is refused for an id nobody has and for a detached thread, and ignored while
      somebody joins. */
  lemma DetachDecides(s: State, c: Rec, tid: nat)
    requires Inv(s) && Enabled(s, Detach(c, tid))
    ensures var (s', o) := Step(s, Detach(c, tid));
            && (o == Srch <==> forall r | r in s.recs :: s.recs[r].tid != tid)
            && (o != Detached ==> s' == s)
    ensures forall g | g in s.recs && s.recs[g].tid == tid ::
              var (s', o), t := Step(s, Detach(c, tid)), s.recs[g];
              && (o == Inval <==> t.isDetached) && (o == Nothing <==> !t.isDetached && t.joinWaiter.Some?)
              && (o == Detached <==> !t.isDetached && t.joinWaiter.None?)
              && (o == Detached ==>
                    && g in s'.recs && s'.recs[g] == t.(isDetached := true) && s'.threads == s.threads
                    && OnlyThese(s, s', {g}))
  {
    FoundByTid(s, tid);
    hide FindIn, Inv;
  }

  /** The last thread takes the process with it; another one's record goes if it is detached,
      and is left with the value, and its joiner woken, if not. */
  lemma ExitDecides(s: State, c: Rec, arg: int)
    requires Inv(s) && Enabled(s, Exit(c, arg))
    ensures var (s', o), t := Step(s, Exit(c, arg)), s.recs[c];
            if s.recs.Keys == {c} then o == ProcessEnds && s'.recs == map[] && s'.threads == []
            else if t.isDetached then o == Exited && c !in s'.recs && c !in s'.threads && OnlyThese(s, s', {c})
            else
              && o == Exited && c in s'.recs && s'.recs[c] == t.(hasExitValue := true, exitValue := arg)
              && s'.threads == s.threads
              && match t.joinWaiter
                 case None => OnlyThese(s, s', {c})
                 case Some(w) =>
                   && w in s.recs && w in s'.recs && s'.recs[w] == s.recs[w].(ready := true)
                   && OnlyThese(s, s', {c, w})
  {
    assert RecOk(s, c);
    OneRecord(s, c);
  }

  lemma OneRecord(s: State, c: Rec)
    requires Inv(s) && c in s.recs
    ensures |s.threads| == 1 <==> s.recs.Keys == {c}
  {
    assert RecOk(s, c);
    forall r | r in s.recs
      ensures r in s.threads
    {
      assert RecOk(s, r);
    }
    if |s.threads| > 1 {
      var r := if s.threads[0] == c then s.threads[1] else s.threads[0];
      assert r in s.threads && r != c;
    }
  }

  ghost predicate InUse(s: State, n: nat) {
    exists r :: r in s.recs && s.recs[r].tid == n
  }

  /** A new thread is refused only when all ids are in use; it gets the least free one. */
  lemma CreateDecides(s: State, c: Rec)
    requires Inv(s) && Enabled(s, Create(c))
    ensures var (s', o) := Step(s, Create(c));
            && (o == TooMany <==> forall n: nat | n < 0xffff :: InUse(s, n))
            && (o == TooMany ==> s' == s)
            && (o != TooMany ==>
                  && o == Created(s.next) && s.next !in s.recs && s'.recs.Keys == s.recs.Keys + {s.next}
                  && s'.threads == s.threads + [s.next] && s'.next == s.next + 1
                  && (forall r | r in s.recs :: s'.recs[r] == s.recs[r])
                  && var t := s'.recs[s.next];
                     && t == ThreadRec(t.tid, false, false, 0, None, None, false) && t.tid < 0xffff
                     && (forall r | r in s.recs :: s.recs[r].tid != t.tid)
                     && forall n: nat | n < t.tid :: InUse(s, n))
  {
    var o := LeastFree(s, 0);
    assert s.next in s.recs ==> RecOk(s, s.next);
    hide FindIn, LeastFree, RecOk;
    forall n: nat
      ensures Find(s, n).Some? <==> InUse(s, n)
    {
      FoundByTid(s, n);
    }
    CreateStep(s, c);
  }

  // ---------- whole runs ----------

  /** A process starts with one thread. */
  function Initial(): State {
    ProcessThreads(map[0 := ThreadRec(0, false, false, 0, None, None, false)], [0], 1)
  }

  lemma InitialOk()
    ensures Inv(Initial())
  {
  }

  ghost predicate IsRun(events: seq<Event>, states: seq<State>) {
    && |states| == |events| + 1 && states[0] == Initial()
    && forall i {:trigger events[i]} | 0 <= i < |events| ::
         Enabled(states[i], events[i]) && states[i + 1] == Step(states[i], events[i]).0
  }

  function OutcomeAt(events: seq<Event>, states: seq<State>, i: nat): Outcome
    requires i < |events| && i < |states| && Enabled(states[i], events[i])
  {
    Step(states[i], events[i]).1
  }

  lemma RunStep(events: seq<Event>, states: seq<State>, i: nat)
    requires IsRun(events, states) && i < |events|
    ensures i + 1 < |states| && Enabled(states[i], events[i]) && states[i + 1] == Step(states[i], events[i]).0
  {
    var e := events[i];
  }

  lemma {:induction false} RunKeepsInv(events: seq<Event>, states: seq<State>, i: nat)
    requires IsRun(events, states) && i < |states|
    ensures Inv(states[i])
  {
    if i == 0 {
      InitialOk();
    } else {
      RunKeepsInv(events, states, i - 1);
      assert states[i] == Step(states[i - 1], events[i - 1]).0;
      StepKeepsInv(states[i - 1], events[i - 1]);
    }
  }

  /** Records are not named twice: one that was freed does not come back. */
  lemma GoneIsGone(s: State, e: Event, r: Rec)
    requires Inv(s) && Enabled(s, e) && r < s.next && r !in s.recs
    ensures r < Step(s, e).0.next && r !in Step(s, e).0.recs
  {
    if e.Exit? && s.recs[e.c].joinWaiter.Some? {
      assert RecOk(s, e.c);
    }
  }

  lemma {:induction false} StaysGone(events: seq<Event>, states: seq<State>, r: Rec, i: nat, j: nat)
    requires IsRun(events, states) && i <= j < |states|
    requires r < states[i].next && r !in states[i].recs
    ensures r !in states[j].recs && r < states[j].next
  {
    if i < j {
      StaysGone(events, states, r, i, j - 1);
      RunKeepsInv(events, states, j - 1);
      assert states[j] == Step(states[j - 1], events[j - 1]).0;
      GoneIsGone(states[j - 1], events[j - 1], r);
    }
  }

  lemma JoinedFrees(s: State, e: Event)
    requires Inv(s) && Enabled(s, e) && Step(s, e).1.Joined?
    ensures var r := Step(s, e).1.r;
            && r in s.recs && s.recs[r].hasExitValue && !s.recs[r].isDetached && s.recs[r].joining.None?
            && Step(s, e).1.value == s.recs[r].exitValue && r < s.next && r !in Step(s, e).0.recs
            && (e.Join? || (e.Resume? && s.recs[r].joinWaiter == Some(e.c)))
  {
    assert RecOk(s, e.c);
    match e
    case Join(c, tid) =>
      assert RecOk(s, Find(s, tid).value);
    case Resume(c) =>
      UnjoinKeepsInv(s, c, s.recs[c].joining.value);
      assert RecOk(s, s.recs[c].joining.value);
  }

  /** At most one join of a thread succeeds. */
  lemma JoinedOnce(events: seq<Event>, states: seq<State>, i: nat, j: nat)
    requires IsRun(events, states) && i < j < |events|
    requires OutcomeAt(events, states, i).Joined? && OutcomeAt(events, states, j).Joined?
    ensures OutcomeAt(events, states, i).r != OutcomeAt(events, states, j).r
  {
    RunKeepsInv(events, states, i);
    RunKeepsInv(events, states, j);
    JoinedFrees(states[i], events[i]);
    JoinedFrees(states[j], events[j]);
    assert states[i + 1] == Step(states[i], events[i]).0;
    RunKeepsInv(events, states, i + 1);
    var r := OutcomeAt(events, states, i).r;
    NextGrows(states[i], events[i]);
    StaysGone(events, states, r, i + 1, j);
  }

  lemma NextGrows(s: State, e: Event)
    requires Enabled(s, e)
    ensures s.next <= Step(s, e).0.next
  {
  }

  /** An exit value comes from the thread's own call of exit. */
  lemma ExitValueFrom(s: State, e: Event, r: Rec)
    requires Inv(s) && Enabled(s, e) && r in Step(s, e).0.recs && Step(s, e).0.recs[r].hasExitValue
    ensures (r in s.recs && s.recs[r].hasExitValue && s.recs[r].exitValue == Step(s, e).0.recs[r].exitValue)
         || e == Exit(r, Step(s, e).0.recs[r].exitValue)
  {
    assert RecOk(s, e.c);
    if e.Resume? {
      UnjoinKeepsInv(s, e.c, s.recs[e.c].joining.value);
    }
  }

  lemma {:induction false} ExitValueWasGiven(events: seq<Event>, states: seq<State>, r: Rec, i: nat)
    requires IsRun(events, states) && i < |states| && r in states[i].recs && states[i].recs[r].hasExitValue
    ensures exists k :: 0 <= k < i && events[k] == Exit(r, states[i].recs[r].exitValue)
  {
    if i > 0 {
      RunKeepsInv(events, states, i - 1);
      assert states[i] == Step(states[i - 1], events[i - 1]).0;
      ExitValueFrom(states[i - 1], events[i - 1], r);
      if events[i - 1] != Exit(r, states[i].recs[r].exitValue) {
        ExitValueWasGiven(events, states, r, i - 1);
      }
    }
  }

  /** A join that succeeds returns what the thread passed to exit. */
  lemma JoinReturnsExitValue(events: seq<Event>, states: seq<State>, i: nat)
    requires IsRun(events, states) && i < |events| && OutcomeAt(events, states, i).Joined?
    ensures var o := OutcomeAt(events, states, i);
            exists k :: 0 <= k < i && events[k] == Exit(o.r, o.value)
  {
    RunKeepsInv(events, states, i);
    JoinedFrees(states[i], events[i]);
    ExitValueWasGiven(events, states, OutcomeAt(events, states, i).r, i);
  }

  /** A record is freed by its own thread, or by the one thread that joins it, and never
      while somebody else waits for it. */
  lemma FreedBy(s: State, e: Event, r: Rec)
    requires Inv(s) && Enabled(s, e) && r in s.recs && r !in Step(s, e).0.recs && Step(s, e).1 != ProcessEnds
    ensures (e.Exit? && e.c == r && s.recs[r].isDetached && s.recs[r].joinWaiter.None?)
         || (Step(s, e).1 == Joined(r, s.recs[r].exitValue)
             && (s.recs[r].joinWaiter.None? || s.recs[r].joinWaiter == Some(e.c)))
  {
    assert RecOk(s, e.c) && RecOk(s, r);
    if e.Resume? {
      UnjoinKeepsInv(s, e.c, s.recs[e.c].joining.value);
    }
  }

  /** A joining thread is not forgotten: if the thread it waits for has exited, it may run,
      and the join succeeds when it does. */
  lemma JoinerIsWoken(s: State, c: Rec)
    requires Inv(s) && c in s.recs && s.recs[c].joining.Some?
    requires s.recs[c].joining.value in s.recs && s.recs[s.recs[c].joining.value].hasExitValue
    ensures Enabled(s, Resume(c))
            && Step(s, Resume(c)).1 == Joined(s.recs[c].joining.value, s.recs[s.recs[c].joining.value].exitValue)
  {
    assert RecOk(s, c) && RecOk(s, s.recs[c].joining.value);
    UnjoinKeepsInv(s, c, s.recs[c].joining.value);
  }

  /** Detached after it exited: only a join or the thread's own exit frees a record, and
      neither will come. */
  predicate Leaked(s: State, r: Rec) {
    r in s.recs && s.recs[r].hasExitValue && s.recs[r].isDetached
  }

  /** A detach that reaches a thread which has exited and nobody joins. */
  predicate Abandons(s: State, e: Event, r: Rec) {
    && e.Detach? && Find(s, e.tid) == Some(r) && s.recs[r].hasExitValue && !s.recs[r].isDetached
    && s.recs[r].joinWaiter.None?
  }

  predicate SameLeak(s: State, s': State, r: Rec) {
    && (Leaked(s', r) <==> Leaked(s, r))
    && (Leaked(s, r) ==> s'.recs[r].tid == s.recs[r].tid)
  }

  lemma JoinLoopLeaks(s: State, c: Rec, g: Rec, r: Rec)
    requires CanWait(s, c, g)
    ensures SameLeak(s, JoinLoop(s, c, g).0, r)
  {
  }

  lemma ResumeLeaks(s: State, c: Rec, r: Rec)
    requires Inv(s) && Enabled(s, Resume(c))
    ensures SameLeak(s, Step(s, Resume(c)).0, r)
  {
    var g := s.recs[c].joining.value;
    UnjoinKeepsInv(s, c, g);
    var s1 := Update(s, g, s.recs[g].(joinWaiter := None));
    var s2 := Update(s1, c, s1.recs[c].(joining := None));
    assert SameLeak(s, s2, r);
    hide Inv, JoinLoop;
    JoinLoopLeaks(s2, c, g, r);
  }

  lemma JoinLeaks(s: State, c: Rec, tid: nat, r: Rec)
    requires Inv(s) && Enabled(s, Join(c, tid))
    ensures SameLeak(s, Step(s, Join(c, tid)).0, r)
    ensures Leaked(s, r) && c != r && tid == s.recs[r].tid ==> Step(s, Join(c, tid)).1 == Inval
  {
    hide JoinLoop, FindIn;
    var g := Find(s, tid);
    if s.recs[c].tid != tid && g.Some? && !s.recs[g.value].isDetached && s.recs[g.value].joinWaiter.None? {
      JoinLoopLeaks(s, c, g.value, r);
    }
    assert r in s.recs ==> RecOk(s, r);
  }

  /** While the process lives, a record is leaked after a step if and only if it was
      before, or the step abandons it; and every join of a leaked one is refused. */
  lemma DetachAfterExitLeaks(s: State, r: Rec, e: Event)
    requires Inv(s) && Enabled(s, e) && Step(s, e).1 != ProcessEnds
    ensures Leaked(Step(s, e).0, r) <==> Leaked(s, r) || Abandons(s, e, r)
    ensures Leaked(s, r) ==> Step(s, e).0.recs[r].tid == s.recs[r].tid
    ensures Leaked(s, r) && e.Join? && e.c != r && e.tid == s.recs[r].tid ==> Step(s, e).1 == Inval
  {
    hide FindIn, LeastFree, JoinLoop;
    match e {
      case Join(c, tid) => JoinLeaks(s, c, tid, r);
      case Resume(c) => ResumeLeaks(s, c, r);
      case _ => assert RecOk(s, e.c) && (r in s.recs ==> RecOk(s, r));
    }
  }

  /** Once the process has ended nothing happens any more. */
  lemma EndIsEnd(s: State, e: Event)
    requires Inv(s) && Enabled(s, e)
    ensures Step(s, e).1 == ProcessEnds <==> Step(s, e).0.threads == []
    ensures s.threads != [] && (Step(s, e).1 == ProcessEnds ==> e.Exit?)
  {
    assert RecOk(s, e.c);
    if e.Exit? && |s.threads| != 1 && s.recs[e.c].isDetached {
      RemoveKeepsOrder(s.threads, e.c);
      var other := if s.threads[0] == e.c then s.threads[1] else s.threads[0];
      assert other in Remove(s.threads, e.c);
    } else if Step(s, e).1.Joined? {
      JoinedFrees(s, e);
      var r := Step(s, e).1.r;
      RemoveKeepsOrder(s.threads, r);
      if e.Resume? {
        UnjoinKeepsInv(s, e.c, r);
      }
      assert e.c in Remove(s.threads, r);
    }
  }

  ghost predicate AbandonedAt(events: seq<Event>, states: seq<State>, r: Rec, k: nat)
    requires k < |events| && k < |states|
  {
    Abandons(states[k], events[k], r)
  }

  /** Over every run: while the process lives, a record is leaked if and only if some
      earlier step abandoned it. */
  lemma {:induction false} LeakedIffAbandoned(events: seq<Event>, states: seq<State>, r: Rec, j: nat)
    requires IsRun(events, states) && j < |states| && states[j].threads != []
    ensures Leaked(states[j], r) <==>
            exists k: nat {:trigger AbandonedAt(events, states, r, k)} :: k < j && AbandonedAt(events, states, r, k)
  {
    hide Inv, Leaked, Step, Enabled, Abandons;
    if j > 0 {
      RunKeepsInv(events, states, j - 1);
      RunStep(events, states, j - 1);
      EndIsEnd(states[j - 1], events[j - 1]);
      LeakedIffAbandoned(events, states, r, j - 1);
      DetachAfterExitLeaks(states[j - 1], r, events[j - 1]);
      assert AbandonedAt(events, states, r, j - 1) <==> Abandons(states[j - 1], events[j - 1], r);
    } else {
      NobodyLeakedAtFirst(events, states, r);
    }
  }

  lemma NobodyLeakedAtFirst(events: seq<Event>, states: seq<State>, r: Rec)
    requires IsRun(events, states)
    ensures !Leaked(states[0], r)
  {
  }

  /** From there on the record and its thread id stay in use until the process ends, and
      whoever joins it is refused. */
  lemma {:induction false} LeakedForever(events: seq<Event>, states: seq<State>, r: Rec, i: nat, j: nat)
    requires IsRun(events, states) && i <= j < |states| && states[j].threads != []
    requires Leaked(states[i], r)
    ensures Leaked(states[j], r) && states[j].recs[r].tid == states[i].recs[r].tid
    ensures j < |events| && events[j].Join? && events[j].c != r && events[j].tid == states[i].recs[r].tid ==>
              OutcomeAt(events, states, j) == Inval
  {
    hide Inv, Leaked, Step, Enabled;
    RunKeepsInv(events, states, j);
    if i < j {
      RunKeepsInv(events, states, j - 1);
      RunStep(events, states, j - 1);
      EndIsEnd(states[j - 1], events[j - 1]);
      LeakedForever(events, states, r, i, j - 1);
      DetachAfterExitLeaks(states[j - 1], r, events[j - 1]);
    }
    if j < |events| && events[j].Join? {
      EndIsEnd(states[j], events[j]);
      DetachAfterExitLeaks(states[j], r, events[j]);
    }
  }

  /** A thread is created, exits, and is detached: that is all it takes. */
  lemma LeakReached() returns (events: seq<Event>, states: seq<State>)
    ensures events == [Create(0), Exit(1, 7), Detach(0, 1)]
    ensures IsRun(events, states) && Leaked(states[3], 1)
  {
    events := [Create(0), Exit(1, 7), Detach(0, 1)];
    var main := ThreadRec(0, false, false, 0, None, None, false);
    var child := ThreadRec(1, false, false, 0, None, None, false);
    var dead := child.(hasExitValue := true, exitValue := 7);
    var s1 := ProcessThreads(map[0 := main, 1 := child], [0, 1], 2);
    var s2 := ProcessThreads(map[0 := main, 1 := dead], [0, 1], 2);
    var s3 := ProcessThreads(map[0 := main, 1 := dead.(isDetached := true)], [0, 1], 2);
    states := [Initial(), s1, s2, s3];
    assert s2.threads[1..] == [1] && FindIn(s2.recs, [1], 1) == Some(1);
    assert Find(Initial(), 0) == Some(0) && Find(Initial(), 1).None? && Find(s2, 1) == Some(1);
    assert LeastFree(Initial(), 0) == Some(1);
    assert Step(Initial(), events[0]).0 == s1 && Step(s1, events[1]).0 == s2 && Step(s2, events[2]).0 == s3;
  }

  // ---------- joins and detaches that succeed ----------

  const MAIN := ThreadRec(0, false, false, 0, None, None, false)
  const CHILD := ThreadRec(1, false, false, 0, None, None, false)

  /** After one more thread has been created. */
  const TWO := ProcessThreads(map[0 := MAIN, 1 := CHILD], [0, 1], 2)

  lemma TwoCreated()
    ensures Enabled(Initial(), Create(0)) && Step(Initial(), Create(0)) == (TWO, Created(1))
    ensures Find(TWO, 1) == Some(1)
  {
    assert Find(Initial(), 0) == Some(0) && Find(Initial(), 1).None?;
    assert LeastFree(Initial(), 0) == Some(1);
    assert Born(Initial(), 1).recs == TWO.recs && Born(Initial(), 1).threads == TWO.threads;
    assert [0, 1][1..] == [1] && FindIn(TWO.recs, [1], 1) == Some(1);
  }

  lemma ChildGone()
    ensures Remove([0, 1], 1) == [0]
  {
    assert [0, 1][1..] == [1] && [1][1..] == [];
  }

  /** The thread exits first, and the join returns its value. */
  lemma JoinAfterExit() returns (events: seq<Event>, states: seq<State>)
    ensures events == [Create(0), Exit(1, 7), Join(0, 1)] && IsRun(events, states)
    ensures OutcomeAt(events, states, 2) == Joined(1, 7) && states[3] == ProcessThreads(map[0 := MAIN], [0], 2)
  {
    events := [Create(0), Exit(1, 7), Join(0, 1)];
    TwoCreated();
    ChildGone();
    hide FindIn, LeastFree, Remove;
    var s2 := ProcessThreads(map[0 := MAIN, 1 := CHILD.(hasExitValue := true, exitValue := 7)], [0, 1], 2);
    var s3 := ProcessThreads(map[0 := MAIN], [0], 2);
    states := [Initial(), TWO, s2, s3];
    FindAgain(s2);
    assert s2.recs - {1} == s3.recs;
    assert Step(TWO, events[1]).0 == s2 && Step(s2, events[2]) == (s3, Joined(1, 7));
  }

  lemma FindAgain(s: State)
    requires s.threads == [0, 1] && 0 in s.recs && 1 in s.recs && s.recs[0].tid == 0 && s.recs[1].tid == 1
    ensures Find(s, 1) == Some(1)
  {
    assert s.threads[1..] == [1] && FindIn(s.recs, [1], 1) == Some(1);
  }

  /** The join comes first and waits; the exit wakes it, and it returns the value. */
  lemma JoinBeforeExit() returns (events: seq<Event>, states: seq<State>)
    ensures events == [Create(0), Join(0, 1), Exit(1, 7), Resume(0)] && IsRun(events, states)
    ensures OutcomeAt(events, states, 1) == Suspended && OutcomeAt(events, states, 3) == Joined(1, 7)
    ensures states[4] == ProcessThreads(map[0 := MAIN.(ready := true)], [0], 2)
  {
    events := [Create(0), Join(0, 1), Exit(1, 7), Resume(0)];
    TwoCreated();
    ChildGone();
    hide FindIn, LeastFree, Remove;
    var waiting := MAIN.(joining := Some(1));
    var joined := CHILD.(joinWaiter := Some(0));
    var exited := joined.(hasExitValue := true, exitValue := 7);
    var s2 := ProcessThreads(map[0 := waiting, 1 := joined], [0, 1], 2);
    var s3 := ProcessThreads(map[0 := waiting.(ready := true), 1 := exited], [0, 1], 2);
    var s4 := ProcessThreads(map[0 := MAIN.(ready := true)], [0], 2);
    states := [Initial(), TWO, s2, s3, s4];
    JoinSuspends();
    assert Step(s2, events[2]).0 == s3;
    JoinReturns();
  }

  lemma JoinSuspends()
    ensures Step(TWO, Join(0, 1)) ==
            (ProcessThreads(map[0 := MAIN.(joining := Some(1)), 1 := CHILD.(joinWaiter := Some(0))], [0, 1], 2),
             Suspended)
  {
    TwoCreated();
    hide FindIn;
    var recs := map[0 := MAIN.(joining := Some(1)), 1 := CHILD.(joinWaiter := Some(0))];
    assert Step(TWO, Join(0, 1)).0.recs == recs;
  }

  lemma JoinReturns()
    ensures var s := ProcessThreads(map[0 := MAIN.(joining := Some(1), ready := true),
                                        1 := CHILD.(joinWaiter := Some(0), hasExitValue := true, exitValue := 7)],
                                    [0, 1], 2);
            && Enabled(s, Resume(0))
            && Step(s, Resume(0)) == (ProcessThreads(map[0 := MAIN.(ready := true)], [0], 2), Joined(1, 7))
  {
    ChildGone();
    hide Remove;
    var s := ProcessThreads(map[0 := MAIN.(joining := Some(1), ready := true),
                                1 := CHILD.(joinWaiter := Some(0), hasExitValue := true, exitValue := 7)],
                            [0, 1], 2);
    assert Step(s, Resume(0)).0.recs == map[0 := MAIN.(ready := true)];
  }

  /** A running thread is detached, and its record goes when it exits. */
  lemma DetachBeforeExit() returns (events: seq<Event>, states: seq<State>)
    ensures events == [Create(0), Detach(0, 1), Exit(1, 7)] && IsRun(events, states)
    ensures OutcomeAt(events, states, 1) == Detached && states[3] == ProcessThreads(map[0 := MAIN], [0], 2)
  {
    events := [Create(0), Detach(0, 1), Exit(1, 7)];
    TwoCreated();
    ChildGone();
    hide FindIn, LeastFree, Remove;
    var s2 := ProcessThreads(map[0 := MAIN, 1 := CHILD.(isDetached := true)], [0, 1], 2);
    var s3 := ProcessThreads(map[0 := MAIN], [0], 2);
    states := [Initial(), TWO, s2, s3];
    assert s2.recs - {1} == s3.recs;
    assert Step(TWO, events[1]).0.recs == s2.recs;
    assert Step(TWO, events[1]) == (s2, Detached) && Step(s2, events[2]).0 == s3;
  }

  // ---------- the end of a process ----------

  ghost predicate AllExited(s: State) {
    forall r | r in s.recs :: s.recs[r].hasExitValue
  }

  /** Nobody runs, or will ever run, and yet the process has not ended. */
  ghost predicate Hung(s: State) {
    s.recs != map[] && forall e :: !Enabled(s, e)
  }

  lemma HungWhenAllExited(s: State)
    requires Inv(s)
    ensures Hung(s) <==> s.recs != map[] && AllExited(s)
  {
    if AllExited(s) {
      forall e
        ensures !Enabled(s, e)
      {
        assert e.c in s.recs ==> RecOk(s, e.c);
      }
    } else {
      var r :| r in s.recs && !s.recs[r].hasExitValue;
      assert Enabled(s, Create(r)) || Enabled(s, Wakeup(r));
    }
  }

  /** The last thread to exit leaves records of others behind, which nobody joined. */
  ghost predicate ExitsLastOfMany(s: State, e: Event) {
    e.Exit? && (exists r :: r in s.recs && r != e.c) && forall r | r in s.recs && r != e.c :: s.recs[r].hasExitValue
  }

  /** An exit that leaves no running thread ends the process if and only if no record of an
      exited thread is left; otherwise the process hangs. */
  lemma LastExit(s: State, c: Rec, arg: int)
    requires Inv(s) && Enabled(s, Exit(c, arg)) && forall r | r in s.recs && r != c :: s.recs[r].hasExitValue
    ensures Step(s, Exit(c, arg)).1 == ProcessEnds <==> s.recs.Keys == {c}
    ensures Step(s, Exit(c, arg)).1 == ProcessEnds || Hung(Step(s, Exit(c, arg)).0)
  {
    assert RecOk(s, c);
    OneRecord(s, c);
    var s' := Step(s, Exit(c, arg)).0;
    StepKeepsInv(s, Exit(c, arg));
    HungWhenAllExited(s');
    if s.recs.Keys != {c} {
      var r :| r in s.recs && r != c;
      assert r in s'.recs;
      var w := s.recs[c].joinWaiter;
      assert w.Some? ==> RecOk(s, w.value);
    }
  }

  lemma HangsBy(s: State, e: Event)
    requires Inv(s) && Enabled(s, e) && Hung(Step(s, e).0)
    ensures ExitsLastOfMany(s, e)
  {
    hide FindIn, LeastFree;
    var s' := Step(s, e).0;
    StepKeepsInv(s, e);
    HungWhenAllExited(s');
    assert RecOk(s, e.c);
    if e.Exit? {
      OneRecord(s, e.c);
      assert s.recs.Keys != {e.c};
      assert exists q :: q in s.recs && q != e.c;
      forall r | r in s.recs && r != e.c
        ensures s.recs[r].hasExitValue
      {
        assert r in s'.recs && s'.recs[r].hasExitValue == s.recs[r].hasExitValue;
      }
    } else {
      StillThere(s, e);
    }
  }

  /** Whoever does anything but exit has not exited afterwards. */
  lemma StillThere(s: State, e: Event)
    requires Inv(s) && Enabled(s, e) && !e.Exit?
    ensures e.c in Step(s, e).0.recs && !Step(s, e).0.recs[e.c].hasExitValue
  {
    hide FindIn, LeastFree;
    assert RecOk(s, e.c);
    if e.Resume? {
      UnjoinKeepsInv(s, e.c, s.recs[e.c].joining.value);
    }
  }

  /** Over every run: a process hangs if and only if its last step was such an exit. */
  lemma HungIffExitsLast(events: seq<Event>, states: seq<State>, j: nat)
    requires IsRun(events, states) && j < |states|
    ensures Hung(states[j]) <==> j > 0 && ExitsLastOfMany(states[j - 1], events[j - 1])
    ensures Hung(states[j]) ==> j == |events|
  {
    hide Inv, Hung, Step, Enabled, ExitsLastOfMany;
    if Hung(states[j]) && j < |events| {
      RunStep(events, states, j);
      HungStays(states[j], events[j]);
    }
    if j > 0 {
      RunKeepsInv(events, states, j - 1);
      RunStep(events, states, j - 1);
      if Hung(states[j]) {
        HangsBy(states[j - 1], events[j - 1]);
      } else if ExitsLastOfMany(states[j - 1], events[j - 1]) {
        ManyAreLeft(states[j - 1], events[j - 1]);
      }
    } else {
      FirstRuns(events, states);
    }
  }

  lemma HungStays(s: State, e: Event)
    requires Hung(s)
    ensures !Enabled(s, e)
  {
  }

  lemma ManyAreLeft(s: State, e: Event)
    requires Inv(s) && Enabled(s, e) && ExitsLastOfMany(s, e)
    ensures Hung(Step(s, e).0)
  {
    LastExit(s, e.c, e.arg);
  }

  lemma FirstRuns(events: seq<Event>, states: seq<State>)
    requires IsRun(events, states)
    ensures !Hung(states[0])
  {
    assert Enabled(states[0], Create(0));
  }

  /** A thread is created and exits, and the first one exits too: two records are left, and
      nobody to free them. */
  lemma HangReached() returns (events: seq<Event>, states: seq<State>)
    ensures events == [Create(0), Exit(1, 7), Exit(0, 8)]
    ensures IsRun(events, states) && Hung(states[3]) && states[3].recs.Keys == {0, 1}
  {
    events := [Create(0), Exit(1, 7), Exit(0, 8)];
    var main := ThreadRec(0, false, false, 0, None, None, false);
    var child := ThreadRec(1, false, false, 0, None, None, false);
    var dead := child.(hasExitValue := true, exitValue := 7);
    var s1 := ProcessThreads(map[0 := main, 1 := child], [0, 1], 2);
    var s2 := ProcessThreads(map[0 := main, 1 := dead], [0, 1], 2);
    var s3 := ProcessThreads(map[0 := main.(hasExitValue := true, exitValue := 8), 1 := dead], [0, 1], 2);
    states := [Initial(), s1, s2, s3];
    assert Find(Initial(), 0) == Some(0) && Find(Initial(), 1).None?;
    assert LeastFree(Initial(), 0) == Some(1);
    assert Step(Initial(), events[0]).0 == s1 && Step(s1, events[1]).0 == s2 && Step(s2, events[2]).0 == s3;
    RunKeepsInv(events, states, 3);
    HungWhenAllExited(s3);
  }

  // ---------- thread ids ----------

  lemma {:induction false} TidsOf(recs: map<Rec, ThreadRec>, threads: seq<Rec>, n: nat) returns (used: set<nat>)
    requires forall k: nat | k < n :: FindIn(recs, threads, k).Some?
    requires forall r | r in threads :: r in recs
    ensures (forall k: nat | k < n :: k in used) && |used| <= |threads|
  {
    used := TidSet(recs, threads);
    forall k: nat | k < n
      ensures k in used
    {
      InTidSet(recs, threads, k);
    }
  }

  ghost function TidSet(recs: map<Rec, ThreadRec>, threads: seq<Rec>): (used: set<nat>)
    requires forall r | r in threads :: r in recs
    ensures |used| <= |threads|
  {
    if threads == [] then {} else {recs[threads[0]].tid} + TidSet(recs, threads[1..])
  }

  lemma {:induction false} InTidSet(recs: map<Rec, ThreadRec>, threads: seq<Rec>, k: nat)
    requires forall r | r in threads :: r in recs
    requires FindIn(recs, threads, k).Some?
    ensures k in TidSet(recs, threads)
  {
    if recs[threads[0]].tid != k {
      InTidSet(recs, threads[1..], k);
    }
  }

  lemma {:induction false} FirstNumbers(used: set<nat>, n: nat)
    requires forall k: nat | k < n :: k in used
    ensures |used| >= n
  {
    if n > 0 {
      FirstNumbers(used - {n - 1}, n - 1);
    }
  }

  /** A thread id is found whenever fewer than 65535 threads exist. */
  lemma TidAvailable(s: State)
    requires Inv(s) && |s.threads| < LIMIT
    ensures LeastFree(s, 0).Some?
  {
    hide FindIn, RecOk, LeastFree;
    if LeastFree(s, 0).None? {
      forall k: nat | k < LIMIT
        ensures FindIn(s.recs, s.threads, k).Some?
      {
        assert Find(s, k).Some?;
      }
      var used := TidsOf(s.recs, s.threads, LIMIT);
      FirstNumbers(used, LIMIT);
    }
  }

  /** Live threads have different handles. */
  lemma HandlesDiffer(s: State, pid: nat, q: Rec, r: Rec)
    requires Inv(s) && pid < WORD && q in s.recs && r in s.recs && q != r
    ensures PidTidToPthread(pid, s.recs[q].tid) != PidTidToPthread(pid, s.recs[r].tid)
  {
    assert RecOk(s, q) && RecOk(s, r);
    HandlesAreFaithful(pid, s.recs[q].tid, 0);
    HandlesAreFaithful(pid, s.recs[r].tid, 0);
  }

  // ---------- the operations ----------

  class ThreadTable {
    var recs: map<Rec, ThreadRec>
    var threads: seq<Rec>
    var next: Rec

    function State(): State
      reads this
    {
      ProcessThreads(recs, threads, next)
    }

    constructor ()
      ensures State() == Initial() && Inv(State())
    {
      recs, threads, next := map[0 := ThreadRec(0, false, false, 0, None, None, false)], [0], 1;
    }

    /** Looks for the thread with an id, from the front of the list. */
    method SearchThread(tid: nat) returns (r: Option<Rec>)
      ensures r == Find(State(), tid)
    {
      for j := 0 to |threads|
        invariant FindIn(recs, threads[j..], tid) == Find(State(), tid)
      {
        if threads[j] in recs && recs[threads[j]].tid == tid {
          return Some(threads[j]);
        }
      }
      return None;
    }

    /** The least thread id that is not in use. */
    method AllocateTid() returns (r: Option<nat>)
      ensures r == LeastFree(State(), 0)
    {
      for tid := 0 to LIMIT
        invariant LeastFree(State(), tid) == LeastFree(State(), 0)
      {
        var found := SearchThread(tid);
        if found.None? {
          return Some(tid);
        }
      }
      return None;
    }

    method DeleteThread(r: Rec)
      modifies this
      ensures State() == Deleted(old(State()), r)
    {
      threads := RemoveAll(threads, r);
      recs := recs - {r};
    }

    method Create(c: Rec) returns (o: Outcome)
      requires Inv(State()) && Enabled(State(), Event.Create(c))
      modifies this
      ensures (State(), o) == Step(old(State()), Event.Create(c)) && Inv(State())
      ensures |old(threads)| < LIMIT ==> o.Created?
    {
      StepKeepsInv(State(), Event.Create(c));
      hide Inv, LeastFree, Step, Enabled;
      CreateStep(State(), c);
      if |threads| < LIMIT {
        TidAvailable(State());
      }
      var tid := AllocateTid();
      if tid.None? {
        return TooMany;
      }
      var r := next;
      var t := ThreadRec(tid.value, false, false, 0, None, None, false);
      recs, threads, next := recs[r := t], threads + [r], next + 1;
      return Created(r);
    }

    /** The end of a thread, and of the process if it is the only one on the list. */
    method Exit(c: Rec, arg: int) returns (o: Outcome)
      requires Inv(State()) && Enabled(State(), Event.Exit(c, arg))
      modifies this
      ensures (State(), o) == Step(old(State()), Event.Exit(c, arg)) && Inv(State())
    {
      StepKeepsInv(State(), Event.Exit(c, arg));
      if |threads| == 1 {
        recs, threads := map[], [];
        return ProcessEnds;
      }
      var current := recs[c];
      if !current.isDetached {
        recs := recs[c := current.(hasExitValue := true, exitValue := arg)];
        if current.joinWaiter.Some? {
          var w := current.joinWaiter.value;
          recs := recs[w := recs[w].(ready := true)];
        }
      } else {
        DeleteThread(c);
      }
      return Exited;
    }

    /** One round of the loop of join: the thread suspends itself, or frees the record. */
    method AwaitExit(c: Rec, g: Rec) returns (o: Outcome)
      requires c in recs && g in recs
      modifies this
      ensures (State(), o) == JoinLoop(old(State()), c, g)
    {
      if !recs[g].hasExitValue {
        recs := recs[g := recs[g].(joinWaiter := Some(c))];
        recs := recs[c := recs[c].(joining := Some(g), ready := false)];
        return Suspended;
      }
      var value := recs[g].exitValue;
      DeleteThread(g);
      return Joined(g, value);
    }

    method Join(c: Rec, tid: nat) returns (o: Outcome)
      requires Inv(State()) && Enabled(State(), Event.Join(c, tid))
      modifies this
      ensures (State(), o) == Step(old(State()), Event.Join(c, tid)) && Inv(State())
    {
      StepKeepsInv(State(), Event.Join(c, tid));
      if recs[c].tid == tid {
        return Deadlk;
      }
      var thread := SearchThread(tid);
      if thread.None? {
        return Srch;
      }
      if recs[thread.value].isDetached || recs[thread.value].joinWaiter.Some? {
        return Inval;
      }
      o := AwaitExit(c, thread.value);
    }

    /** A thread suspended in join runs again. */
    method Resume(c: Rec) returns (o: Outcome)
      requires Inv(State()) && Enabled(State(), Event.Resume(c))
      modifies this
      ensures (State(), o) == Step(old(State()), Event.Resume(c)) && Inv(State())
    {
      StepKeepsInv(State(), Event.Resume(c));
      var thread := recs[c].joining.value;
      recs := recs[thread := recs[thread].(joinWaiter := None)];
      recs := recs[c := recs[c].(joining := None)];
      o := AwaitExit(c, thread);
    }

    method Detach(c: Rec, tid: nat) returns (o: Outcome)
      requires Inv(State()) && Enabled(State(), Event.Detach(c, tid))
      modifies this
      ensures (State(), o) == Step(old(State()), Event.Detach(c, tid)) && Inv(State())
    {
      StepKeepsInv(State(), Event.Detach(c, tid));
      var thread := SearchThread(tid);
      if thread.None? {
        return Srch;
      }
      var t := recs[thread.value];
      if t.isDetached {
        return Inval;
      }
      if t.joinWaiter.Some? {
        return Nothing;
      }
      recs := recs[thread.value := t.(isDetached := true)];
      return Detached;
    }

    /** A suspended thread is woken, by a signal say. */
    method Wakeup(c: Rec)
      requires Inv(State()) && Enabled(State(), Event.Wakeup(c))
      modifies this`recs
      ensures State() == Step(old(State()), Event.Wakeup(c)).0 && Inv(State())
    {
      StepKeepsInv(State(), Event.Wakeup(c));
      recs := recs[c := recs[c].(ready := true)];
    }
  }
}
