/** The processes of a simulation and the waits of parents for their children
    (model/dce-manager.cc, model/dce-wait.cc).  Between two calls that give up the
    processor nothing else runs, so every method below is one atomic step. */
module ProcessTable {
  import opened Options

  type Pid = nat
  type Tid = nat

  /** A thread inside waitpid; `woken` if it is ready to run again. */
  datatype Waiting = Waiting(target: int, woken: bool)

  /** `alive` stands for the loader and the heap, which are given up together: a process
      without them is a zombie. */
  datatype Process = Process(ppid: Pid, children: set<Pid>, alive: bool, exitValue: int, waiters: map<Tid, Waiting>)

  type Table = map<Pid, Process>

  const PIDS := 0x1_0000

  predicate Matches(target: int, c: Pid) {
    target == -1 || target == c
  }

  // ---------- the invariant ----------

  /** A parent that can be waited on is there, alive, and knows its child. */
  ghost predicate ParentKnows(t: Table, p: Pid)
    requires p in t
  {
    t[p].ppid > 1 ==> t[p].ppid in t && t[t[p].ppid].alive && p in t[t[p].ppid].children
  }

  ghost predicate ChildrenKnown(t: Table, p: Pid)
    requires p in t
  {
    forall c | c in t[p].children :: c in t && c != p && t[c].ppid == p
  }

  /** A thread that nobody has woken has something to wait for, and nothing to collect. */
  ghost predicate WaitersWait(t: Table, p: Pid)
    requires p in t
  {
    forall k | k in t[p].waiters && !t[p].waiters[k].woken ::
      && (exists c :: c in t[p].children && Matches(t[p].waiters[k].target, c))
      && (forall c | c in t[p].children && Matches(t[p].waiters[k].target, c) :: c in t && t[c].alive)
  }

  ghost predicate ProcessOk(t: Table, p: Pid)
    requires p in t
  {
    && 1 < p < PIDS && ParentKnows(t, p) && ChildrenKnown(t, p) && WaitersWait(t, p)
    && (!t[p].alive ==> t[p].children == {} && t[p].ppid > 1 && t[p].waiters == map[])
  }

  ghost predicate TableOk(t: Table) {
    forall p {:trigger ProcessOk(t, p)} | p in t :: ProcessOk(t, p)
  }

  // ---------- pids ----------

  function Candidate(next: nat, i: nat): nat {
    (next + i) % PIDS
  }

  predicate Usable(t: Table, pid: nat) {
    1 < pid < PIDS && pid !in t
  }

  lemma EveryPidIsACandidate(next: nat, pid: nat)
    requires next < PIDS && pid < PIDS
    ensures exists i: nat :: i < PIDS && Candidate(next, i) == pid
  {
    var i := if pid >= next then pid - next else pid + PIDS - next;
    assert Candidate(next, i) == pid;
  }

  lemma CandidatesDiffer(next: nat, i: nat, j: nat)
    requires next < PIDS && i < j < PIDS
    ensures Candidate(next, i) != Candidate(next, j)
  {
  }

  /** The first usable candidate is the least usable pid from the next one on, or else the
      least of all. */
  lemma FirstInTurn(t: Table, next: nat, i: nat)
    requires next < PIDS && i < PIDS && Usable(t, Candidate(next, i))
    requires forall j: nat | j < i :: !Usable(t, Candidate(next, j))
    ensures forall pid: nat | Usable(t, pid) ::
              if Candidate(next, i) >= next then pid < next || Candidate(next, i) <= pid
              else Candidate(next, i) <= pid < next
  {
    forall pid: nat | Usable(t, pid)
      ensures if Candidate(next, i) >= next then pid < next || Candidate(next, i) <= pid
              else Candidate(next, i) <= pid < next
    {
      EveryPidIsACandidate(next, pid);
      var j: nat :| j < PIDS && Candidate(next, j) == pid;
      assert i <= j;
    }
  }

  // ---------- changes to the table ----------

  ghost predicate AllWoken(w: map<Tid, Waiting>, w': map<Tid, Waiting>) {
    w'.Keys == w.Keys && forall k | k in w :: w'[k] == w[k].(woken := true)
  }

  /** What becomes of process q when p ends: p itself leaves a zombie if it has a parent to
      collect it; zombie children go, the others are handed to process 1; the threads of
      the parent that wait for children are woken; nothing else changes. */
  ghost predicate ExitedAt(t: Table, t': Table, p: Pid, q: Pid)
    requires p in t && q in t
  {
    if q == p then
      if t[p].ppid > 1 then q in t' && t'[q] == Process(t[p].ppid, {}, false, t[p].exitValue, map[]) else q !in t'
    else if q in t[p].children && !t[q].alive then q !in t'
    else
      && q in t' && t'[q].ppid == (if q in t[p].children then 1 else t[q].ppid)
      && t'[q].children == t[q].children && t'[q].alive == t[q].alive && t'[q].exitValue == t[q].exitValue
      && (if q == t[p].ppid then AllWoken(t[q].waiters, t'[q].waiters) else t'[q].waiters == t[q].waiters)
  }

  /** Halfway: the children in `done` have been handed over. */
  ghost predicate ReparentedAt(t: Table, t': Table, done: set<Pid>, q: Pid)
    requires q in t
  {
    if q in done then
      if t[q].alive then q in t' && t'[q] == t[q].(ppid := 1) else q !in t'
    else q in t' && t'[q] == t[q]
  }

  ghost predicate Reparented(t: Table, t': Table, p: Pid, done: set<Pid>) {
    && (forall q | q in t' :: q in t)
    && forall q {:trigger ReparentedAt(t, t', done, q)} | q in t && q != p :: ReparentedAt(t, t', done, q)
  }

  lemma ReparentNext(t: Table, t1: Table, t2: Table, p: Pid, done: set<Pid>, it: Pid)
    requires Reparented(t, t1, p, done) && it in t && it != p && it in t1 && t1[it] == t[it]
    requires t2 == if t[it].alive then t1[it := t1[it].(ppid := 1)] else t1[it := t1[it].(ppid := 1)] - {it}
    ensures Reparented(t, t2, p, done + {it})
  {
    forall q | q in t && q != p
      ensures ReparentedAt(t, t2, done + {it}, q)
    {
      assert ReparentedAt(t, t1, done, q);
    }
  }

  lemma ReparentedElsewhere(t: Table, t1: Table, p: Pid, done: set<Pid>, v: Process)
    requires Reparented(t, t1, p, done) && p in t
    ensures Reparented(t, t1[p := v], p, done)
  {
    forall q | q in t && q != p
      ensures ReparentedAt(t, t1[p := v], done, q)
    {
      assert ReparentedAt(t, t1, done, q);
    }
  }

  lemma ReparentThenEnd(t: Table, t1: Table, t2: Table, p: Pid)
    requires TableOk(t) && p in t && Reparented(t, t1, p, t[p].children)
    requires p in t1 && t1[p] == Process(t[p].ppid, {}, false, t[p].exitValue, map[])
    requires if t[p].ppid > 1 then
               var pp := t[p].ppid;
               && t2.Keys == t1.Keys && pp in t1 && (forall q | q in t1 && q != pp :: t2[q] == t1[q])
               && t2[pp] == t1[pp].(waiters := t2[pp].waiters) && AllWoken(t1[pp].waiters, t2[pp].waiters)
             else t2 == t1 - {p}
    ensures Exited(t, t2, p)
  {
    assert ProcessOk(t, p);
    forall q | q in t
      ensures ExitedAt(t, t2, p, q)
    {
      assert q != p ==> ReparentedAt(t, t1, t[p].children, q);
      assert ProcessOk(t, q);
    }
  }

  lemma ExitShrinks(t: Table, t': Table, p: Pid)
    requires Exited(t, t', p)
    ensures t'.Keys <= t.Keys
  {
  }

  /** The parent of a process is still there when its children have been handed over. */
  lemma ParentStays(t: Table, t1: Table, p: Pid)
    requires TableOk(t) && p in t && t[p].ppid > 1 && p in t1
    requires Reparented(t, t1, p, t[p].children)
    ensures t[p].ppid in t1
  {
    assert ProcessOk(t, p) && ProcessOk(t, t[p].ppid);
    assert t[p].ppid != p ==> ReparentedAt(t, t1, t[p].children, t[p].ppid);
  }

  ghost predicate Exited(t: Table, t': Table, p: Pid) {
    && p in t && t'.Keys <= t.Keys
    && forall q {:trigger ExitedAt(t, t', p, q)} | q in t :: ExitedAt(t, t', p, q)
  }

  lemma ExitKeepsTableOk(t: Table, t': Table, p: Pid)
    requires TableOk(t) && Exited(t, t', p)
    ensures TableOk(t')
  {
    forall q | q in t'
      ensures ProcessOk(t', q)
    {
      ExitKeepsProcessOk(t, t', p, q);
    }
  }

  lemma ExitKeepsProcessOk(t: Table, t': Table, p: Pid, q: Pid)
    requires TableOk(t) && Exited(t, t', p) && q in t'
    ensures ProcessOk(t', q)
  {
    assert ProcessOk(t, p) && ProcessOk(t, q);
    assert ExitedAt(t, t', p, p) && ExitedAt(t, t', p, q);
    if t'[q].ppid > 1 {
      var pp := t'[q].ppid;
      assert pp in t && ExitedAt(t, t', p, pp) && ProcessOk(t, pp);
    }
    forall c | c in t'[q].children
      ensures c in t' && c != q && t'[c].ppid == q
    {
      assert ExitedAt(t, t', p, c) && ProcessOk(t, c);
    }
    if t'[q].alive {
      WaitersAfterExit(t, t', p, q);
    }
  }

  lemma WaitersAfterExit(t: Table, t': Table, p: Pid, q: Pid)
    requires TableOk(t) && Exited(t, t', p) && q in t' && t'[q].alive
    ensures WaitersWait(t', q)
  {
    assert ProcessOk(t, p) && ProcessOk(t, q);
    assert ExitedAt(t, t', p, q);
    forall k | k in t'[q].waiters && !t'[q].waiters[k].woken
      ensures exists c :: c in t'[q].children && Matches(t'[q].waiters[k].target, c)
      ensures forall c | c in t'[q].children && Matches(t'[q].waiters[k].target, c) :: c in t' && t'[c].alive
    {
      assert k in t[q].waiters && t[q].waiters[k] == t'[q].waiters[k];
      forall c | c in t'[q].children && Matches(t'[q].waiters[k].target, c)
        ensures c in t' && t'[c].alive
      {
        assert q != p && t'[q].children == t[q].children;
        assert c in t && t[c].ppid == q && t[c].alive;
        assert ExitedAt(t, t', p, c) && ProcessOk(t, c);
      }
    }
  }

  /** The table with one more process, entered among the children of its parent. */
  function Forked(t: Table, parent: Pid, pid: Pid): Table
    requires parent in t
  {
    t[parent := t[parent].(children := t[parent].children + {pid})][pid := Process(parent, {}, true, 0, map[])]
  }

  lemma ForkedMeans(t: Table, parent: Pid, pid: Pid)
    requires parent in t && pid !in t
    ensures var t' := Forked(t, parent, pid);
            && t'.Keys == t.Keys + {pid} && t'[pid] == Process(parent, {}, true, 0, map[])
            && t'[parent] == t[parent].(children := t[parent].children + {pid})
            && forall q | q in t && q != parent :: t'[q] == t[q]
  {
  }

  lemma ForkKeepsTableOk(t: Table, parent: Pid, pid: Pid)
    requires TableOk(t) && parent in t && t[parent].alive && Usable(t, pid)
    ensures TableOk(Forked(t, parent, pid))
  {
    var t' := Forked(t, parent, pid);
    forall q | q in t'
      ensures ProcessOk(t', q)
    {
      assert q in t ==> ProcessOk(t, q);
      assert ProcessOk(t, parent);
      if q in t {
        forall k | k in t'[q].waiters && !t'[q].waiters[k].woken
          ensures exists c :: c in t'[q].children && Matches(t'[q].waiters[k].target, c)
        {
          var c :| c in t[q].children && Matches(t[q].waiters[k].target, c);
          assert c in t'[q].children;
        }
      }
    }
  }

  lemma CreateKeepsTableOk(t: Table, pid: Pid)
    requires TableOk(t) && Usable(t, pid)
    ensures TableOk(t[pid := Process(0, {}, true, 0, map[])])
  {
    var t' := t[pid := Process(0, {}, true, 0, map[])];
    forall q | q in t'
      ensures ProcessOk(t', q)
    {
      assert q in t ==> ProcessOk(t, q);
    }
  }

  /** The end of a process, process by process. */
  lemma ExitMeans(t: Table, t': Table, p: Pid)
    requires TableOk(t) && Exited(t, t', p)
    ensures t[p].ppid > 1 ==>
              && p in t' && !t'[p].alive && t'[p].exitValue == t[p].exitValue && t'[p].ppid == t[p].ppid
              && t'[p].children == {} && t'[p].waiters == map[]
    ensures t[p].ppid <= 1 ==> p !in t'
    ensures forall c | c in t[p].children ::
              c in t && if t[c].alive then c in t' && t'[c].alive && t'[c].ppid == 1 else c !in t'
    ensures forall q | q in t && q != p && q !in t[p].children ::
              && q in t' && t'[q] == t[q].(waiters := t'[q].waiters)
              && (q != t[p].ppid ==> t'[q].waiters == t[q].waiters)
    ensures t[p].ppid > 1 ==>
              && t[p].ppid in t && t[p].ppid in t' && t'[t[p].ppid].waiters.Keys == t[t[p].ppid].waiters.Keys
              && forall k | k in t'[t[p].ppid].waiters ::
                   t'[t[p].ppid].waiters[k] == Waiting(t[t[p].ppid].waiters[k].target, true)
    ensures forall q | q in t' :: q in t
  {
    assert ProcessOk(t, p) && ExitedAt(t, t', p, p);
    forall q | q in t
      ensures q in t[p].children ==> if t[q].alive then q in t' && t'[q].alive && t'[q].ppid == 1 else q !in t'
      ensures q != p && q !in t[p].children ==>
                && q in t' && t'[q] == t[q].(waiters := t'[q].waiters)
                && (q != t[p].ppid ==> t'[q].waiters == t[q].waiters)
    {
      assert ExitedAt(t, t', p, q);
    }
    if t[p].ppid > 1 {
      assert ProcessOk(t, t[p].ppid) && ExitedAt(t, t', p, t[p].ppid);
    }
  }

  ghost predicate IsReaped(t: Table, t': Table, p: Pid, id: Pid) {
    && p in t && t'.Keys == t.Keys - {id} && p in t'
    && t'[p] == t[p].(children := t[p].children - {id})
    && forall q | q in t' && q != p :: t'[q] == t[q]
  }

  lemma ReapKeepsTableOk(t: Table, t': Table, p: Pid, id: Pid)
    requires TableOk(t) && IsReaped(t, t', p, id)
    requires id in t && id in t[p].children && !t[id].alive
    ensures TableOk(t')
  {
    forall q | q in t'
      ensures ProcessOk(t', q)
    {
      assert ProcessOk(t, q) && ProcessOk(t, p) && ProcessOk(t, id);
      forall c | c in t'[q].children
        ensures c in t' && c != q && t'[c].ppid == q
      {
      }
      forall k | k in t'[q].waiters && !t'[q].waiters[k].woken
        ensures exists c :: c in t'[q].children && Matches(t'[q].waiters[k].target, c)
      {
        var c :| c in t[q].children && Matches(t[q].waiters[k].target, c);
        assert c in t'[q].children;
      }
    }
  }

  lemma WaitersChange(t: Table, p: Pid, waiters: map<Tid, Waiting>)
    requires TableOk(t) && p in t && t[p].alive
    requires WaitersWait(t[p := t[p].(waiters := waiters)], p)
    ensures TableOk(t[p := t[p].(waiters := waiters)])
  {
    var t' := t[p := t[p].(waiters := waiters)];
    forall q | q in t'
      ensures ProcessOk(t', q)
    {
      assert ProcessOk(t, q);
    }
  }

  // ---------- the operations ----------

  datatype WaitResult =
    | Invalid
    | Reaped(id: Pid, status: int)
    | NothingYet
    | Blocked
    | NoChild
    | Interrupted

  ghost predicate ZombieFor(t: Table, p: Pid, target: int, c: Pid)
    requires p in t
  {
    c in t[p].children && Matches(target, c) && c in t && !t[c].alive
  }

  /** Serial numbers tell the successive owners of a pid apart. */
  ghost predicate Serials(keys: set<Pid>, serial: map<Pid, nat>, born: nat, reaped: set<nat>) {
    && serial.Keys == keys
    && (forall p | p in serial :: serial[p] < born && serial[p] !in reaped)
    && (forall p, q | p in serial && q in serial && p != q :: serial[p] != serial[q])
    && forall n | n in reaped :: n < born
  }

  ghost predicate NoneToWaitFor(t: Table, p: Pid, target: int)
    requires p in t
  {
    forall c | c in t[p].children :: !Matches(target, c)
  }

  /** What one round of waitpid may do, and when. */
  ghost predicate Attempted(t: Table, t': Table, p: Pid, k: Tid, target: int, nohang: bool, r: WaitResult) {
    p in t &&
    match r
    case Reaped(id, status) =>
      && ZombieFor(t, p, target, id) && (forall c | ZombieFor(t, p, target, c) :: id <= c)
      && status == t[id].exitValue && IsReaped(t, t', p, id)
    case NothingYet => nohang && !NoneToWaitFor(t, p, target) && (forall c :: !ZombieFor(t, p, target, c)) && t' == t
    case Blocked =>
      && !nohang && !NoneToWaitFor(t, p, target) && (forall c :: !ZombieFor(t, p, target, c))
      && t' == t[p := t[p].(waiters := t[p].waiters[k := Waiting(target, false)])]
    case NoChild => NoneToWaitFor(t, p, target) && t' == t
    case _ => false
  }

  /** The error for lack of children means just that, and a collected child was a zombie
      that is gone for good. */
  lemma AttemptMeans(t: Table, t': Table, p: Pid, k: Tid, target: int, nohang: bool, r: WaitResult)
    requires TableOk(t) && Attempted(t, t', p, k, target, nohang, r)
    ensures r == NoChild <==> NoneToWaitFor(t, p, target)
    ensures r.Reaped? <==> exists c :: ZombieFor(t, p, target, c)
    ensures r.Reaped? ==> r.id !in t' && p in t' && r.id !in t'[p].children
  {
    assert ProcessOk(t, p);
    if c :| ZombieFor(t, p, target, c) {
      assert c in t[p].children && Matches(target, c);
    }
  }

  lemma MatchesMeans(t: Table, p: Pid, target: int)
    requires p in t
    ensures target > 0 ==>
              && (forall c :: ZombieFor(t, p, target, c) <==>
                   c == target && c in t[p].children && c in t && !t[c].alive)
              && (NoneToWaitFor(t, p, target) <==> target !in t[p].children)
    ensures target == -1 ==>
              && (forall c :: ZombieFor(t, p, target, c) <==> c in t[p].children && c in t && !t[c].alive)
              && (NoneToWaitFor(t, p, target) <==> t[p].children == {})
  {
    if target == -1 && t[p].children != {} {
      var c :| c in t[p].children;
      assert Matches(target, c);
    }
  }

  /** Waiting for one child is about that child, and waiting for any about the one with the
      least pid. */
  lemma WaitDecides(t: Table, t': Table, p: Pid, k: Tid, target: int, nohang: bool, r: WaitResult)
    requires TableOk(t) && Attempted(t, t', p, k, target, nohang, r)
    ensures target > 0 ==>
              && (r == NoChild <==> target !in t[p].children)
              && (r.Reaped? <==> target in t[p].children && target in t && !t[target].alive)
              && (r.Reaped? ==> r == Reaped(target, t[target].exitValue))
    ensures target == -1 ==>
              && (r == NoChild <==> t[p].children == {})
              && (r.Reaped? <==> exists c :: c in t[p].children && c in t && !t[c].alive)
              && (r.Reaped? ==>
                    && r.id in t[p].children && r.id in t && !t[r.id].alive && r.status == t[r.id].exitValue
                    && forall c | c in t[p].children && c in t && !t[c].alive :: r.id <= c)
    ensures r.Reaped? ==> t' == t[p := t[p].(children := t[p].children - {r.id})] - {r.id}
    ensures r == Blocked ==> !nohang && t' == t[p := t[p].(waiters := t[p].waiters[k := Waiting(target, false)])]
    ensures r == NothingYet ==> nohang && t' == t
    ensures r == NoChild ==> t' == t
    ensures r.Reaped? || r == Blocked || r == NothingYet || r == NoChild
  {
    AttemptMeans(t, t', p, k, target, nohang, r);
    assert ProcessOk(t, p);
    MatchesMeans(t, p, target);
  }

  function Unblocked(t: Table, p: Pid, k: Tid): Table
    requires p in t
  {
    t[p := t[p].(waiters := t[p].waiters - {k})]
  }

  /** The same for a thread that comes back: its own entry makes no difference. */
  lemma ResumeDecides(t: Table, t': Table, p: Pid, k: Tid, target: int, r: WaitResult)
    requires p in t && TableOk(Unblocked(t, p, k)) && Attempted(Unblocked(t, p, k), t', p, k, target, false, r)
    ensures target > 0 ==>
              && (r == NoChild <==> target !in t[p].children)
              && (r.Reaped? <==> target in t[p].children && target in t && !t[target].alive)
              && (r.Reaped? ==> r == Reaped(target, t[target].exitValue))
    ensures target == -1 ==>
              && (r == NoChild <==> t[p].children == {})
              && (r.Reaped? <==> exists c :: c in t[p].children && c in t && !t[c].alive)
              && (r.Reaped? ==>
                    && r.id in t[p].children && r.id in t && !t[r.id].alive && r.status == t[r.id].exitValue
                    && forall c | c in t[p].children && c in t && !t[c].alive :: r.id <= c)
    ensures r.Reaped? ==>
              t' == t[p := t[p].(children := t[p].children - {r.id}, waiters := t[p].waiters - {k})] - {r.id}
  {
    var u := Unblocked(t, p, k);
    WaitDecides(u, t', p, k, target, false, r);
    hide TableOk, Attempted;
    assert forall c :: c in u <==> c in t;
    assert forall c | c in t :: u[c].alive == t[c].alive && u[c].exitValue == t[c].exitValue;
  }

  /** A thread that waits, and has not been woken, has a living child to wait for. */
  lemma BlockedMeans(t: Table, p: Pid, k: Tid)
    requires TableOk(t) && p in t && k in t[p].waiters && !t[p].waiters[k].woken
    ensures var target := t[p].waiters[k].target;
            && (target > 0 ==> target in t[p].children && target in t && t[target].alive)
            && (target == -1 ==> t[p].children != {} && forall c | c in t[p].children :: c in t && t[c].alive)
  {
    assert ProcessOk(t, p);
  }

  predicate IsLeastPid(s: set<nat>, m: nat) {
    m in s && forall c | c in s :: m <= c
  }

  lemma {:induction false} LeastPidExists(s: set<nat>)
    requires s != {}
    ensures exists m :: IsLeastPid(s, m)
  {
    var x :| x in s;
    if s == {x} {
      assert IsLeastPid(s, x);
    } else {
      LeastPidExists(s - {x});
      var y :| IsLeastPid(s - {x}, y);
      var m := if x < y then x else y;
      forall c | c in s
        ensures m <= c
      {
        assert c != x ==> c in s - {x};
      }
      assert IsLeastPid(s, m);
    }
  }

  lemma BlockKeepsTableOk(t: Table, p: Pid, k: Tid, target: int)
    requires TableOk(t) && p in t && t[p].alive
    requires !NoneToWaitFor(t, p, target) && forall c :: !ZombieFor(t, p, target, c)
    ensures TableOk(t[p := t[p].(waiters := t[p].waiters[k := Waiting(target, false)])])
  {
    assert ProcessOk(t, p);
    var waiters := t[p].waiters[k := Waiting(target, false)];
    var t' := t[p := t[p].(waiters := waiters)];
    forall c | c in t[p].children && Matches(target, c)
      ensures t[c].alive
    {
      assert !ZombieFor(t, p, target, c);
    }
    WaitersChange(t, p, waiters);
  }

  lemma UnblockKeepsTableOk(t: Table, p: Pid, k: Tid)
    requires TableOk(t) && p in t && k in t[p].waiters
    ensures t[p].alive && TableOk(t[p := t[p].(waiters := t[p].waiters - {k})])
  {
    assert ProcessOk(t, p);
    WaitersChange(t, p, t[p].waiters - {k});
  }

  lemma StatusKeepsTableOk(t: Table, p: Pid, status: int)
    requires TableOk(t) && p in t
    ensures TableOk(t[p := t[p].(exitValue := status)])
  {
    forall q | q in t
      ensures ProcessOk(t[p := t[p].(exitValue := status)], q)
    {
      assert ProcessOk(t, q);
    }
  }

  /** Serial numbers tell the successive owners of a pid apart; `reaped` are those that were
      collected, and `ended` remembers the exit value of each one that has ended. */
  ghost predicate History(t: Table, serial: map<Pid, nat>, born: nat, reaped: set<nat>, ended: map<nat, int>) {
    && Serials(t.Keys, serial, born, reaped)
    && (forall p | p in t && p in serial :: if t[p].alive then serial[p] !in ended
                                            else serial[p] in ended && ended[serial[p]] == t[p].exitValue)
    && forall n | n in ended :: n < born
  }

  /** What is known about ended incarnations stays known. */
  ghost predicate OnlyAdds(ended: map<nat, int>, ended': map<nat, int>) {
    forall n | n in ended :: n in ended' && ended'[n] == ended[n]
  }

  lemma SerialOf(t: Table, serial: map<Pid, nat>, born: nat, reaped: set<nat>, ended: map<nat, int>, p: Pid)
    requires History(t, serial, born, reaped, ended) && p in t
    ensures p in serial && serial[p] !in reaped
            && (!t[p].alive ==> serial[p] in ended && ended[serial[p]] == t[p].exitValue)
  {
  }

  ghost predicate SameEnds(t: Table, t': Table) {
    && t'.Keys == t.Keys
    && forall p | p in t :: t'[p].alive == t[p].alive && (!t[p].alive ==> t'[p].exitValue == t[p].exitValue)
  }

  lemma HistorySame(t: Table, t': Table, serial: map<Pid, nat>, born: nat, reaped: set<nat>, ended: map<nat, int>)
    requires History(t, serial, born, reaped, ended) && SameEnds(t, t')
    ensures History(t', serial, born, reaped, ended)
  {
  }

  lemma HistoryOfBirth(t: Table, t': Table, serial: map<Pid, nat>, born: nat, reaped: set<nat>, ended: map<nat, int>,
                       pid: Pid)
    requires History(t, serial, born, reaped, ended) && pid !in t && pid in t' && t'[pid].alive
             && SameEnds(t, t' - {pid})
    ensures History(t', serial[pid := born], born + 1, reaped, ended)
  {
    var t0 := t' - {pid};
    forall p | p in t' && p != pid
      ensures p in t0 && t'[p] == t0[p]
    {
    }
    assert t'.Keys == t.Keys + {pid};
  }

  lemma ForkSameEnds(t: Table, parent: Pid, pid: Pid)
    requires parent in t && Usable(t, pid)
    ensures pid !in t && pid in Forked(t, parent, pid) && Forked(t, parent, pid)[pid].alive
    ensures SameEnds(t, Forked(t, parent, pid) - {pid})
  {
  }

  lemma HistoryOfReaping(t: Table, t': Table, serial: map<Pid, nat>, born: nat, reaped: set<nat>,
                         ended: map<nat, int>, p: Pid, id: Pid)
    requires History(t, serial, born, reaped, ended) && IsReaped(t, t', p, id) && id in t
    ensures id in serial && History(t', serial - {id}, born, reaped + {serial[id]}, ended)
  {
  }

  lemma HistoryOfExit(t: Table, t': Table, serial: map<Pid, nat>, born: nat, reaped: set<nat>, ended: map<nat, int>,
                      p: Pid) returns (ended': map<nat, int>)
    requires TableOk(t) && Exited(t, t', p) && History(t, serial, born, reaped, ended)
    ensures History(t', serial - (serial.Keys - t'.Keys), born, reaped, ended') && OnlyAdds(ended, ended')
    ensures p in serial && serial[p] in ended' && ended'[serial[p]] == t[p].exitValue
  {
    SerialOf(t, serial, born, reaped, ended, p);
    ended' := ended[serial[p] := t[p].exitValue];
    ExitShrinks(t, t', p);
    forall q | q in t'
      ensures if t'[q].alive then serial[q] !in ended' else serial[q] in ended' && ended'[serial[q]] == t'[q].exitValue
    {
      assert ExitedAt(t, t', p, q);
      SerialOf(t, serial, born, reaped, ended, q);
    }
  }

  lemma CollectReaps(t: Table, p: Pid, id: Pid)
    requires TableOk(t) && p in t && id in t && id in t[p].children
    ensures IsReaped(t, t[p := t[p].(children := t[p].children - {id})] - {id}, p, id)
  {
    assert ProcessOk(t, p);
  }

  lemma CollectKeeps(t: Table, serial: map<Pid, nat>, born: nat, reaped: set<nat>, ended: map<nat, int>, p: Pid,
                     id: Pid)
    requires TableOk(t) && History(t, serial, born, reaped, ended)
    requires p in t && id in t && id in t[p].children && !t[id].alive
    ensures id in serial && serial[id] !in reaped
    ensures var t' := t[p := t[p].(children := t[p].children - {id})] - {id};
            && IsReaped(t, t', p, id) && TableOk(t')
            && History(t', serial - {id}, born, reaped + {serial[id]}, ended)
  {
    var t' := t[p := t[p].(children := t[p].children - {id})] - {id};
    CollectReaps(t, p, id);
    SerialOf(t, serial, born, reaped, ended, id);
    hide TableOk, History, IsReaped;
    ReapKeepsTableOk(t, t', p, id);
    HistoryOfReaping(t, t', serial, born, reaped, ended, p, id);
  }

  class DceManager {
    var processes: Table
    var nextPid: nat
    ghost var serial: map<Pid, nat>
    ghost var born: nat
    ghost var reaped: set<nat>
    // The exit values of the incarnations that have ended.
    ghost var ended: map<nat, int>

    ghost predicate Valid()
      reads this
    {
      TableOk(processes) && nextPid < PIDS && History(processes, serial, born, reaped, ended)
    }

    constructor (firstPid: nat)
      requires firstPid < PIDS
      ensures Valid() && processes == map[]
    {
      processes, nextPid := map[], firstPid;
      serial, born, reaped, ended := map[], 0, {}, map[];
    }

    /** A pid that no process has, zombies included.  One pid is never tried: the one just
        before the next to be tried; the search fails if no other one is left. */
    method AllocatePid() returns (r: Option<Pid>)
      requires nextPid < PIDS
      modifies this`nextPid
      ensures r.Some? ==> Usable(processes, r.value) && nextPid == (r.value + 1) % PIDS
      ensures r.Some? ==> exists i: nat :: i < PIDS && r.value == Candidate(old(nextPid), i) &&
                            forall j: nat | j < i :: !Usable(processes, Candidate(old(nextPid), j))
      ensures r.None? <==> forall pid | Usable(processes, pid) :: pid == Candidate(old(nextPid), PIDS - 1)
      ensures r.Some? ==> 1 < r.value < 0x1_0000 && r.value !in processes
      ensures r.Some? ==> forall pid: nat | 1 < pid < 0x1_0000 && pid !in processes ::
                if r.value >= old(nextPid) then pid < old(nextPid) || r.value <= pid
                else r.value <= pid < old(nextPid)
      ensures r.None? <==>
                forall pid: nat | 1 < pid < 0x1_0000 && pid !in processes :: pid == (old(nextPid) + 0xffff) % 0x1_0000
      ensures r.None? ==> nextPid == old(nextPid)
    {
      for i: nat := 0 to PIDS - 1
        invariant nextPid == old(nextPid)
        invariant forall j: nat | j < i :: !Usable(processes, Candidate(nextPid, j))
      {
        var candidatePid := (nextPid + i) % PIDS;
        if candidatePid > 1 && candidatePid !in processes {
          assert candidatePid == Candidate(old(nextPid), i) && Usable(processes, candidatePid);
          CandidatesDiffer(old(nextPid), i, PIDS - 1);
          FirstInTurn(processes, old(nextPid), i);
          forall pid: nat | 1 < pid < 0x1_0000 && pid !in processes
            ensures if candidatePid >= nextPid then pid < nextPid || candidatePid <= pid
                    else candidatePid <= pid < nextPid
          {
            assert Usable(processes, pid);
          }
          nextPid := (candidatePid + 1) % PIDS;
          return Some(candidatePid);
        }
      }
      forall pid | Usable(processes, pid)
        ensures pid == Candidate(nextPid, PIDS - 1)
      {
        EveryPidIsACandidate(nextPid, pid);
      }
      forall pid: nat | 1 < pid < 0x1_0000 && pid !in processes
        ensures pid == (nextPid + 0xffff) % 0x1_0000
      {
        assert Usable(processes, pid);
      }
      return None;
    }

    /** A first process, started from outside; it has no parent. */
    method CreateProcess() returns (r: Option<Pid>)
      requires Valid()
      modifies this
      ensures Valid()
      ensures r.Some? ==>
                && Usable(old(processes), r.value)
                && processes == old(processes)[r.value := Process(0, {}, true, 0, map[])]
      ensures r.Some? ==> serial == old(serial)[r.value := old(born)] && born == old(born) + 1
      ensures r.None? ==> processes == old(processes) && serial == old(serial) && born == old(born)
      ensures r.None? <==> forall pid | Usable(old(processes), pid) :: pid == Candidate(old(nextPid), PIDS - 1)
      ensures nextPid == if r.Some? then (r.value + 1) % PIDS else old(nextPid)
      ensures reaped == old(reaped)
    {
      hide Candidate, TableOk, History;
      r := AllocatePid();
      if r.Some? {
        CreateKeepsTableOk(processes, r.value);
        processes := processes[r.value := Process(0, {}, true, 0, map[])];
        HistoryOfBirth(old(processes), processes, serial, born, reaped, ended, r.value);
        serial, born := serial[r.value := born], born + 1;
      }
    }

    /** A fork: the child is entered among the children of its parent and in the table. */
    method Clone(parent: Pid) returns (r: Option<Pid>)
      requires Valid() && parent in processes && processes[parent].alive
      modifies this
      ensures Valid()
      ensures r.Some? ==> Usable(old(processes), r.value) && r.value != parent
      ensures r.Some? ==> processes == Forked(old(processes), parent, r.value)
      ensures r.Some? ==>
                var t := old(processes);
                && processes.Keys == t.Keys + {r.value} && processes[r.value] == Process(parent, {}, true, 0, map[])
                && processes[parent] == t[parent].(children := t[parent].children + {r.value})
                && forall q | q in t && q != parent :: processes[q] == t[q]
      ensures r.Some? ==> serial == old(serial)[r.value := old(born)] && born == old(born) + 1
      ensures r.None? ==> processes == old(processes) && serial == old(serial) && born == old(born)
      ensures r.None? <==> forall pid | Usable(old(processes), pid) :: pid == Candidate(old(nextPid), PIDS - 1)
      ensures nextPid == if r.Some? then (r.value + 1) % PIDS else old(nextPid)
      ensures reaped == old(reaped)
    {
      hide Candidate, TableOk, History, Forked;
      r := AllocatePid();
      if r.Some? {
        ForkedMeans(processes, parent, r.value);
        EnterChild(parent, r.value);
      }
    }

    /** Enters a new process in the table and among the children of its parent. */
    method EnterChild(parent: Pid, pid: Pid)
      requires Valid() && parent in processes && processes[parent].alive && Usable(processes, pid)
      modifies this`processes, this`serial, this`born
      ensures Valid() && processes == Forked(old(processes), parent, pid)
      ensures serial == old(serial)[pid := old(born)] && born == old(born) + 1
    {
      hide TableOk, History, SameEnds, Usable;
      ForkKeepsTableOk(processes, parent, pid);
      ForkSameEnds(processes, parent, pid);
      HistoryOfBirth(processes, Forked(processes, parent, pid), serial, born, reaped, ended, pid);
      var p := processes[parent];
      processes := processes[parent := p.(children := p.children + {pid})];
      processes := processes[pid := Process(parent, {}, true, 0, map[])];
      serial, born := serial[pid := born], born + 1;
    }

    /** A process ends by itself, with an exit value. */
    method Exit(p: Pid, status: int)
      requires Valid() && p in processes && processes[p].alive
      modifies this
      ensures Valid() && Exited(old(processes)[p := old(processes)[p].(exitValue := status)], processes, p)
      ensures var t := old(processes);
              if t[p].ppid > 1 then p in processes && processes[p] == Process(t[p].ppid, {}, false, status, map[])
              else p !in processes
      ensures forall c | c in old(processes)[p].children ::
                && c in old(processes)
                && if old(processes)[c].alive then c in processes && processes[c].alive && processes[c].ppid == 1
                   else c !in processes
      ensures forall q | q in old(processes) && q != p && q !in old(processes)[p].children ::
                && q in processes && processes[q] == old(processes)[q].(waiters := processes[q].waiters)
                && (q != old(processes)[p].ppid ==> processes[q].waiters == old(processes)[q].waiters)
      ensures var pp := old(processes)[p].ppid;
              pp > 1 ==>
                && pp in old(processes) && pp in processes
                && processes[pp].waiters.Keys == old(processes)[pp].waiters.Keys
                && forall k | k in processes[pp].waiters ::
                     processes[pp].waiters[k] == Waiting(old(processes)[pp].waiters[k].target, true)
      ensures nextPid == old(nextPid) && born == old(born) && reaped == old(reaped)
      ensures forall q | q in serial :: q in old(serial) && serial[q] == old(serial)[q]
      ensures OnlyAdds(old(ended), ended)
      ensures p in old(serial) && old(serial)[p] in ended && ended[old(serial)[p]] == status
    {
      StatusKeepsTableOk(processes, p, status);
      HistorySame(processes, processes[p := processes[p].(exitValue := status)], serial, born, reaped, ended);
      processes := processes[p := processes[p].(exitValue := status)];
      ghost var t := processes;
      hide TableOk, History, Exited;
      DeleteProcess(p);
      ExitMeans(t, processes, p);
    }

    /** The simulation stops a process; there may be none of that pid, or only a zombie. */
    method Stop(pid: Pid)
      requires Valid()
      modifies this
      ensures Valid() && nextPid == old(nextPid) && reaped == old(reaped) && OnlyAdds(old(ended), ended)
      ensures if pid in old(processes) then Exited(old(processes), processes, pid) else processes == old(processes)
    {
      var process := SearchProcess(pid);
      if process.Some? {
        DeleteProcess(pid);
      }
    }

    method SearchProcess(pid: Pid) returns (p: Option<Process>)
      ensures p == if pid in processes then Some(processes[pid]) else None
    {
      return if pid in processes then Some(processes[pid]) else None;
    }

    /** Takes a process off the table and frees it.  It has to be there still. */
    method Destroy(pid: Pid)
      requires pid in processes
      modifies this`processes
      ensures processes == old(processes) - {pid}
    {
      processes := processes - {pid};
    }

    /** Makes every thread of p that is inside waitpid ready to run. */
    method WakeupChildWaiters(p: Pid)
      requires p in processes
      modifies this`processes
      ensures processes.Keys == old(processes).Keys
      ensures forall q | q in processes && q != p :: processes[q] == old(processes)[q]
      ensures processes[p] == old(processes)[p].(waiters := processes[p].waiters)
      ensures AllWoken(old(processes)[p].waiters, processes[p].waiters)
    {
      var rest := processes[p].waiters.Keys;
      var waiters := processes[p].waiters;
      while rest != {}
        invariant waiters.Keys == processes[p].waiters.Keys && rest <= waiters.Keys
        invariant forall k | k in waiters ::
                    waiters[k] == if k in rest then processes[p].waiters[k] else processes[p].waiters[k].(woken := true)
      {
        var k :| k in rest;
        waiters := waiters[k := waiters[k].(woken := true)];
        rest := rest - {k};
      }
      processes := processes[p := processes[p].(waiters := waiters)];
    }

    /** Tells the parent of a process that it ended.  Both have to be in the table. */
    method ChildFinished(pid: Pid)
      requires pid in processes && processes[pid].ppid in processes
      modifies this`processes
      ensures processes.Keys == old(processes).Keys
      ensures var pp := old(processes)[pid].ppid;
              && (forall q | q in processes && q != pp :: processes[q] == old(processes)[q])
              && processes[pp] == old(processes)[pp].(waiters := processes[pp].waiters)
              && AllWoken(old(processes)[pp].waiters, processes[pp].waiters)
    {
      var child := SearchProcess(pid);
      WakeupChildWaiters(child.value.ppid);
    }

    /** Hands the children of p to process 1; those that are zombies are freed. */
    method Reparent(p: Pid)
      requires TableOk(processes) && p in processes
      modifies this`processes
      ensures p in processes && processes[p] == old(processes)[p].(children := {})
      ensures Reparented(old(processes), processes, p, old(processes)[p].children)
    {
      assert ProcessOk(processes, p);
      var children := processes[p].children;
      processes := processes[p := processes[p].(children := {})];
      var rest := children;
      while rest != {}
        invariant rest <= children && p in processes && processes[p] == old(processes)[p].(children := {})
        invariant Reparented(old(processes), processes, p, children - rest)
      {
        var it :| it in rest;
        assert ProcessOk(old(processes), it) && ReparentedAt(old(processes), processes, children - rest, it);
        ghost var t := processes;
        var child := SearchProcess(it);
        if child.Some? {
          processes := processes[it := child.value.(ppid := 1)];
          if it > 1 && !child.value.alive {
            Destroy(it);
          }
        }
        ReparentNext(old(processes), t, processes, p, children - rest, it);
        assert children - (rest - {it}) == children - rest + {it};
        rest := rest - {it};
      }
      assert children - rest == children;
    }

    /** The end of a process, by its own doing or not. */
    method DeleteProcess(p: Pid)
      requires Valid() && p in processes
      modifies this
      ensures Valid() && Exited(old(processes), processes, p)
      ensures nextPid == old(nextPid) && born == old(born) && reaped == old(reaped)
      ensures forall q | q in serial :: q in old(serial) && serial[q] == old(serial)[q]
      ensures OnlyAdds(old(ended), ended)
      ensures p in old(serial) && old(serial)[p] in ended && ended[old(serial)[p]] == old(processes)[p].exitValue
    {
      hide TableOk, History, Exited;
      Bury(p);
      ExitKeepsTableOk(old(processes), processes, p);
      ended := HistoryOfExit(old(processes), processes, serial, born, reaped, ended, p);
      serial := serial - (serial.Keys - processes.Keys);
    }

    /** Hands over the children, gives up the loader and the heap, and tells the parent;
        without a parent the process is gone at once. */
    method Bury(p: Pid)
      requires TableOk(processes) && p in processes
      modifies this`processes
      ensures Exited(old(processes), processes, p)
    {
      assert ProcessOk(processes, p);
      var ppid := processes[p].ppid;
      hide ProcessOk, Reparented, Exited;
      Reparent(p);
      ghost var reparented := processes;
      processes := processes[p := processes[p].(alive := false, waiters := map[])];
      ghost var zombie := processes;
      ReparentedElsewhere(old(processes), reparented, p, old(processes)[p].children, zombie[p]);
      if ppid > 1 {
        ParentStays(old(processes), processes, p);
      }
      if ppid > 1 {
        ChildFinished(p);
      } else {
        Destroy(p);
      }
      ReparentThenEnd(old(processes), zombie, processes, p);
    }

    /** Looks through the children of p, in ascending order, for a zombie to collect. */
    method Scan(p: Pid, target: int) returns (childCount: nat, zombie: Option<Pid>)
      requires TableOk(processes) && p in processes
      ensures zombie.Some? ==> ZombieFor(processes, p, target, zombie.value)
      ensures zombie.Some? ==> forall c | ZombieFor(processes, p, target, c) :: zombie.value <= c
      ensures zombie.None? ==> forall c :: !ZombieFor(processes, p, target, c)
      ensures zombie.None? ==> (childCount == 0 <==> NoneToWaitFor(processes, p, target))
      ensures target > 0 ==>
                && (zombie.Some? <==>
                     target in processes[p].children && target in processes && !processes[target].alive)
                && (zombie.Some? ==> zombie.value == target)
                && (zombie.None? ==> (childCount == 0 <==> target !in processes[p].children))
      ensures target == -1 ==>
                && (zombie.Some? <==> exists c :: c in processes[p].children && c in processes && !processes[c].alive)
                && (zombie.None? ==> (childCount == 0 <==> processes[p].children == {}))
    {
      MatchesMeans(processes, p, target);
      childCount := 0;
      var rest := processes[p].children;
      while rest != {}
        invariant rest <= processes[p].children
        invariant forall c | c in processes[p].children && c !in rest :: !ZombieFor(processes, p, target, c)
        invariant forall c, d | c in processes[p].children && c !in rest && d in rest :: c < d
        invariant childCount == 0 <==> forall c | c in processes[p].children && c !in rest :: !Matches(target, c)
      {
        LeastPidExists(rest);
        var it :| IsLeastPid(rest, it);
        assert ProcessOk(processes, p) && ProcessOk(processes, it);
        if it > 1 {
          var child := SearchProcess(it);
          if child.Some? {
            if target == -1 || target == it {
              childCount := childCount + 1;
              if !child.value.alive {
                return childCount, Some(it);
              }
            }
          }
        }
        rest := rest - {it};
      }
      return childCount, None;
    }

    /** Collects a zombie: it is taken off the list of its parent and off the table. */
    method Collect(p: Pid, id: Pid)
      requires Valid() && p in processes && id in processes && id in processes[p].children && !processes[id].alive
      modifies this`processes, this`serial, this`reaped
      ensures Valid() && IsReaped(old(processes), processes, p, id)
      ensures reaped == old(reaped) + {old(serial)[id]} && old(serial)[id] !in old(reaped)
      ensures serial == old(serial) - {id}
    {
      hide TableOk, History, IsReaped;
      CollectKeeps(processes, serial, born, reaped, ended, p, id);
      processes := processes[p := processes[p].(children := processes[p].children - {id})];
      Destroy(id);
      reaped := reaped + {serial[id]};
      serial := serial - {id};
    }

    /** One round of waitpid by thread k of process p.  It collects the least zombie that
        matches; it fails exactly when there is no child to wait for; otherwise it returns
        at once or blocks. */
    method Attempt(p: Pid, k: Tid, target: int, nohang: bool) returns (r: WaitResult)
      requires Valid() && p in processes && processes[p].alive && k !in processes[p].waiters
      modifies this`processes, this`serial, this`reaped
      ensures Valid() && Attempted(old(processes), processes, p, k, target, nohang, r)
      ensures if r.Reaped? then
                && r.id in old(serial) && old(serial)[r.id] !in old(reaped)
                && reaped == old(reaped) + {old(serial)[r.id]}
                && old(serial)[r.id] in ended && ended[old(serial)[r.id]] == r.status
              else reaped == old(reaped) && serial == old(serial)
    {
      hide TableOk, History;
      var childCount, zombie := Scan(p, target);
      if zombie.Some? {
        var id := zombie.value;
        var exitCode := processes[id].exitValue;
        SerialOf(processes, serial, born, reaped, ended, id);
        Collect(p, id);
        return Reaped(id, exitCode);
      }
      if childCount > 0 {
        if nohang {
          return NothingYet;
        }
        BlockKeepsTableOk(processes, p, k, target);
        HistorySame(processes,
                    processes[p := processes[p].(waiters := processes[p].waiters[k := Waiting(target, false)])],
                    serial, born, reaped, ended);
        processes := processes[p := processes[p].(waiters := processes[p].waiters[k := Waiting(target, false)])];
        return Blocked;
      }
      return NoChild;
    }

    /** waitpid, up to the first time the thread blocks. */
    method WaitPid(p: Pid, k: Tid, target: int, unsupported: bool, nohang: bool) returns (r: WaitResult)
      requires Valid() && p in processes && processes[p].alive && k !in processes[p].waiters
      modifies this`processes, this`serial, this`reaped
      ensures Valid()
      ensures r == Invalid <==> unsupported || target == 0 || target < -1
      ensures r == Invalid ==> processes == old(processes) && reaped == old(reaped) && serial == old(serial)
      ensures r != Invalid ==> Attempted(old(processes), processes, p, k, target, nohang, r)
      ensures r != Invalid && target > 0 ==>
                var t := old(processes); var children := t[p].children;
                && (r == NoChild <==> target !in children)
                && (r.Reaped? <==> target in children && target in t && !t[target].alive)
                && (r.Reaped? ==> r == Reaped(target, t[target].exitValue))
      ensures r != Invalid && target == -1 ==>
                var t := old(processes); var children := t[p].children;
                && (r == NoChild <==> children == {})
                && (r.Reaped? <==> exists c :: c in children && c in t && !t[c].alive)
                && (r.Reaped? ==> && r.id in children && r.id in t && !t[r.id].alive && r.status == t[r.id].exitValue
                                  && forall c | c in children && c in t && !t[c].alive :: r.id <= c)
      ensures r.Reaped? ==>
                var t := old(processes);
                processes == t[p := t[p].(children := t[p].children - {r.id})] - {r.id}
      ensures r == Blocked ==>
                var t := old(processes);
                !nohang && processes == t[p := t[p].(waiters := t[p].waiters[k := Waiting(target, false)])]
      ensures r.Reaped? || r == Blocked || r == NothingYet || r == NoChild || r == Invalid
      ensures r == NothingYet || r == NoChild ==> processes == old(processes) && (r == NothingYet ==> nohang)
      ensures r.Reaped? ==>
                && r.id in old(serial) && old(serial)[r.id] !in old(reaped)
                && reaped == old(reaped) + {old(serial)[r.id]}
                            && old(serial)[r.id] in ended && ended[old(serial)[r.id]] == r.status
    {
      if unsupported || target == 0 || target < -1 {
        return Invalid;
      }
      hide TableOk, History, Attempted;
      r := Attempt(p, k, target, nohang);
      WaitDecides(old(processes), processes, p, k, target, nohang, r);
    }

    /** A thread that was woken runs again: it gives up if a signal is pending, and looks
        for a zombie again otherwise. */
    method Resume(p: Pid, k: Tid, signal: bool) returns (r: WaitResult)
      requires Valid() && p in processes && k in processes[p].waiters && processes[p].waiters[k].woken
      modifies this`processes, this`serial, this`reaped
      ensures Valid()
      ensures var t := old(processes)[p := old(processes)[p].(waiters := old(processes)[p].waiters - {k})];
              if signal then r == Interrupted && processes == t && reaped == old(reaped)
              else Attempted(t, processes, p, k, old(processes)[p].waiters[k].target, false, r)
      ensures var t := old(processes); var target := t[p].waiters[k].target; var children := t[p].children;
              !signal && target > 0 ==>
                && (r == NoChild <==> target !in children)
                && (r.Reaped? <==> target in children && target in t && !t[target].alive)
                && (r.Reaped? ==> r == Reaped(target, t[target].exitValue))
      ensures var t := old(processes); var target := t[p].waiters[k].target; var children := t[p].children;
              !signal && target == -1 ==>
                && (r == NoChild <==> children == {})
                && (r.Reaped? <==> exists c :: c in children && c in t && !t[c].alive)
                && (r.Reaped? ==> && r.id in children && r.id in t && !t[r.id].alive && r.status == t[r.id].exitValue
                                  && forall c | c in children && c in t && !t[c].alive :: r.id <= c)
      ensures r.Reaped? ==>
                var t := old(processes);
                processes == t[p := t[p].(children := t[p].children - {r.id}, waiters := t[p].waiters - {k})] - {r.id}
      ensures r.Reaped? ==>
                && r.id in old(serial) && old(serial)[r.id] !in old(reaped)
                && reaped == old(reaped) + {old(serial)[r.id]}
                            && old(serial)[r.id] in ended && ended[old(serial)[r.id]] == r.status
    {
      hide TableOk, History, Attempted;
      var target := processes[p].waiters[k].target;
      UnblockKeepsTableOk(processes, p, k);
      HistorySame(processes, Unblocked(processes, p, k), serial, born, reaped, ended);
      processes := processes[p := processes[p].(waiters := processes[p].waiters - {k})];
      if signal {
        return Interrupted;
      }
      r := Attempt(p, k, target, false);
      ResumeDecides(old(processes), processes, p, k, target, r);
    }

    /** Somebody wakes the thread for another reason. */
    method Wakeup(p: Pid, k: Tid)
      requires Valid() && p in processes && k in processes[p].waiters
      modifies this`processes
      ensures Valid()
      ensures var waiters := old(processes)[p].waiters;
              processes == old(processes)[p := old(processes)[p].(waiters := waiters[k := waiters[k].(woken := true)])]
    {
      assert ProcessOk(processes, p);
      var w := processes[p].waiters;
      WaitersChange(processes, p, w[k := w[k].(woken := true)]);
      processes := processes[p := processes[p].(waiters := w[k := w[k].(woken := true)])];
    }
  }

  // ---------- a parent and two children ----------

  /** p has the children a and b, or what is left of them, and nobody else is there. */
  ghost predicate Family(t: Table, p: Pid, a: Pid, b: Pid, children: set<Pid>, waiters: map<Tid, Waiting>,
                         x: Option<int>, y: Option<int>) {
    && p != a && p != b && a != b && 1 < p && 1 < a && 1 < b
    && p in t && t[p] == Process(0, children, true, 0, waiters)
    && (a in children ==> a in t && t[a] == ChildOf(p, x)) && (b in children ==> b in t && t[b] == ChildOf(p, y))
    && (a in t ==> a in children) && (b in t ==> b in children) && t.Keys <= {p, a, b} && children <= {a, b}
  }

  /** Alive, or a zombie with that exit value. */
  function ChildOf(p: Pid, exited: Option<int>): Process {
    Process(p, {}, exited.None?, if exited.Some? then exited.value else 0, map[])
  }

  lemma TwoForks(p: Pid, a: Pid, b: Pid)
    requires p != a && p != b && a != b && 1 < p && 1 < a && 1 < b
    ensures var t := map[p := Process(0, {}, true, 0, map[])];
            Family(Forked(Forked(t, p, a), p, b), p, a, b, {a, b}, map[], None, None)
  {
    var none: set<Pid> := {};
    assert none + {a} + {b} == {a, b};
  }

  method TwoChildren(firstPid: nat) returns (m: DceManager, p: Pid, a: Pid, b: Pid)
    requires firstPid < PIDS
    ensures fresh(m) && m.Valid() && Family(m.processes, p, a, b, {a, b}, map[], None, None)
  {
    hide TableOk, History, Candidate, Forked, Family;
    m := new DceManager(firstPid);
    ghost var one, other := FreePids(m.processes);
    var r := m.CreateProcess();
    p := r.value;
    one, other := FreePids(m.processes);
    r := m.Clone(p);
    a := r.value;
    one, other := FreePids(m.processes);
    r := m.Clone(p);
    b := r.value;
    TwoForks(p, a, b);
  }

  lemma SecondExits(t: Table, t': Table, p: Pid, a: Pid, b: Pid, status: int)
    requires Family(t, p, a, b, {a, b}, map[], None, None)
    requires Exited(t[b := t[b].(exitValue := status)], t', b)
    ensures Family(t', p, a, b, {a, b}, map[], None, Some(status))
  {
    var s := t[b := t[b].(exitValue := status)];
    assert ExitedAt(s, t', b, p) && ExitedAt(s, t', b, a) && ExitedAt(s, t', b, b);
    assert t'[p].waiters == map[];
  }

  lemma FirstExits(t: Table, t': Table, p: Pid, a: Pid, b: Pid, status: int, other: int)
    requires Family(t, p, a, b, {a, b}, map[0 := Waiting(a, false)], None, Some(other))
    requires Exited(t[a := t[a].(exitValue := status)], t', a)
    ensures Family(t', p, a, b, {a, b}, map[0 := Waiting(a, true)], Some(status), Some(other))
  {
    var s := t[a := t[a].(exitValue := status)];
    assert ExitedAt(s, t', a, p) && ExitedAt(s, t', a, a) && ExitedAt(s, t', a, b);
    assert t'[p].waiters == map[0 := Waiting(a, true)];
  }

  /** The parent waits for a, though b could be collected. */
  method WaitForLiving(m: DceManager, p: Pid, a: Pid, b: Pid) returns (r: WaitResult)
    requires m.Valid() && Family(m.processes, p, a, b, {a, b}, map[], None, Some(9))
    modifies m
    ensures m.Valid() && r == Blocked
    ensures Family(m.processes, p, a, b, {a, b}, map[0 := Waiting(a, false)], None, Some(9))
  {
    hide TableOk, History, Attempted;
    r := m.WaitPid(p, 0, a, false, false);
  }

  method CollectFirst(m: DceManager, p: Pid, a: Pid, b: Pid) returns (r: WaitResult)
    requires m.Valid() && Family(m.processes, p, a, b, {a, b}, map[0 := Waiting(a, true)], Some(7), Some(9))
    modifies m
    ensures m.Valid() && r == Reaped(a, 7) && Family(m.processes, p, a, b, {b}, map[], None, Some(9))
  {
    hide TableOk, History, Attempted;
    r := m.Resume(p, 0, false);
  }

  method CollectLast(m: DceManager, p: Pid, a: Pid, b: Pid) returns (r: seq<WaitResult>)
    requires m.Valid() && Family(m.processes, p, a, b, {b}, map[], None, Some(9))
    modifies m
    ensures r == [NoChild, Reaped(b, 9), NoChild]
  {
    hide TableOk, History, Attempted;
    var third := m.WaitPid(p, 0, a, false, false);
    var fourth := m.WaitPid(p, 0, -1, false, false);
    var fifth := m.WaitPid(p, 0, -1, false, false);
    r := [third, fourth, fifth];
  }

  method EndSecond(m: DceManager, p: Pid, a: Pid, b: Pid)
    requires m.Valid() && Family(m.processes, p, a, b, {a, b}, map[], None, None)
    modifies m
    ensures m.Valid() && Family(m.processes, p, a, b, {a, b}, map[], None, Some(9))
  {
    hide TableOk, History, Exited;
    ghost var t := m.processes;
    m.Exit(b, 9);
    SecondExits(t, m.processes, p, a, b, 9);
  }

  method EndFirst(m: DceManager, p: Pid, a: Pid, b: Pid)
    requires m.Valid() && Family(m.processes, p, a, b, {a, b}, map[0 := Waiting(a, false)], None, Some(9))
    modifies m
    ensures m.Valid() && Family(m.processes, p, a, b, {a, b}, map[0 := Waiting(a, true)], Some(7), Some(9))
  {
    hide TableOk, History, Exited;
    ghost var t := m.processes;
    m.Exit(a, 7);
    FirstExits(t, m.processes, p, a, b, 7, 9);
  }

  /** waitpid for the living one waits for it, though the other could be collected; then the
      other one is, and then there is nothing left. */
  method CollectBoth(firstPid: nat) returns (r: seq<WaitResult>, a: Pid, b: Pid)
    requires firstPid < PIDS
    ensures r == [Blocked, Reaped(a, 7), NoChild, Reaped(b, 9), NoChild] && a != b
  {
    var m, p;
    m, p, a, b := TwoChildren(firstPid);
    assert a != b;
    hide *;
    EndSecond(m, p, a, b);
    var first := WaitForLiving(m, p, a, b);
    EndFirst(m, p, a, b);
    var second := CollectFirst(m, p, a, b);
    var rest := CollectLast(m, p, a, b);
    r := [first, second, rest[0], rest[1], rest[2]];
  }

  // ---------- a full table ----------

  function PidsBelow(n: nat): (pids: set<Pid>)
    ensures forall pid: nat :: pid in pids <==> 1 < pid < n
    ensures |pids| == if n < 2 then 0 else n - 2
  {
    if n <= 2 then {} else PidsBelow(n - 1) + {n - 1}
  }

  ghost function FreeOf(t: Table): (free: set<Pid>)
    requires TableOk(t)
    ensures |free| == PIDS - 2 - |t.Keys| && forall q :: q in free <==> Usable(t, q)
  {
    assert forall p | p in t :: ProcessOk(t, p);
    assert t.Keys <= PidsBelow(PIDS);
    PidsBelow(PIDS) - t.Keys
  }

  lemma Single(s: set<Pid>, one: Pid)
    requires |s| == 1 && one in s
    ensures forall q | q in s :: q == one
  {
    assert |s - {one}| == 0;
    assert forall q | q in s && q != one :: q in s - {one};
  }

  /** Two pids are free while there are less than 65533 processes, and then one is. */
  lemma FreePids(t: Table) returns (one: Pid, other: Pid)
    requires TableOk(t) && |t.Keys| <= PIDS - 3
    ensures Usable(t, one) && Usable(t, other)
    ensures if |t.Keys| < PIDS - 3 then one != other else forall q | Usable(t, q) :: q == one
  {
    hide TableOk, Usable;
    var free := FreeOf(t);
    one :| one in free;
    other := one;
    if |t.Keys| < PIDS - 3 {
      assert |free - {one}| > 0;
      other :| other in free - {one};
    } else {
      Single(free, one);
    }
  }

  ghost predicate AllAlone(t: Table) {
    forall p | p in t :: t[p].ppid == 0 && t[p].children == {}
  }

  lemma StopAlone(t: Table, t': Table, p: Pid)
    requires AllAlone(t) && Exited(t, t', p)
    ensures t'.Keys == t.Keys - {p}
  {
    forall q | q in t
      ensures q in t' <==> q != p
    {
      assert ExitedAt(t, t', p, q);
    }
  }

  lemma OneBorn(t: Table, t': Table, pid: Pid)
    requires AllAlone(t) && Usable(t, pid) && t' == t[pid := Process(0, {}, true, 0, map[])]
    ensures AllAlone(t') && t'.Keys == t.Keys + {pid} && |t'.Keys| == |t.Keys| + 1
  {
  }

  method FillButOne(firstPid: nat) returns (m: DceManager)
    requires firstPid < PIDS
    ensures fresh(m) && m.Valid() && AllAlone(m.processes) && |m.processes.Keys| == PIDS - 3
  {
    m := new DceManager(firstPid);
    hide TableOk, History, Candidate, Usable;
    for i := 0 to PIDS - 3
      invariant fresh(m) && m.Valid() && |m.processes.Keys| == i && AllAlone(m.processes)
    {
      ghost var t := m.processes;
      ghost var one, other := FreePids(t);
      var r := m.CreateProcess();
      hide AllAlone;
      OneBorn(t, m.processes, r.value);
    }
  }

  /** The process created last ends, and its pid is the only free one. */
  method EndLastBorn(m: DceManager, pid: Pid) returns (r: Option<Pid>)
    requires m.Valid() && AllAlone(m.processes) && pid in m.processes && forall q :: !Usable(m.processes, q)
    requires 1 < pid < PIDS && m.nextPid == (pid + 1) % PIDS
    modifies m
    ensures m.Valid() && Usable(m.processes, pid) && r.None?
  {
    hide TableOk, History, Exited, AllAlone;
    ghost var full := m.processes;
    m.Stop(pid);
    StopAlone(full, m.processes, pid);
    forall q | Usable(m.processes, q)
      ensures q == Candidate(m.nextPid, PIDS - 1)
    {
      assert !Usable(full, q);
    }
    r := m.CreateProcess();
  }

  lemma NoneLeft(t: Table, t': Table, one: Pid, pid: Pid)
    requires (forall q | Usable(t, q) :: q == one) && Usable(t, pid) && t'.Keys == t.Keys + {pid}
    ensures pid == one && pid in t' && 1 < pid < PIDS && forall q :: !Usable(t', q)
  {
    assert forall q :: Usable(t', q) ==> Usable(t, q);
  }

  /** A run that ends with a process refused although there is a free pid: with one left,
      either the next is refused, or the one that gets it ends and then the next is. */
  method RefuseWithOneFree(firstPid: nat) returns (m: DceManager, r: Option<Pid>, ghost pid: Pid)
    requires firstPid < PIDS
    ensures fresh(m) && m.Valid() && Usable(m.processes, pid) && r.None?
  {
    m := FillButOne(firstPid);
    ghost var other;
    pid, other := FreePids(m.processes);
    ghost var t := m.processes;
    hide TableOk, History, Candidate, AllAlone, Usable;
    r := m.CreateProcess();
    if r.Some? {
      OneBorn(t, m.processes, r.value);
      NoneLeft(t, m.processes, pid, r.value);
      r := EndLastBorn(m, r.value);
    }
  }
}
