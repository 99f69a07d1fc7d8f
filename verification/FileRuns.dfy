/** What the operations on descriptors do to the tables, step by step, and what becomes of
    the rule that a file is closed once, when its last entry goes (model/dce-fd.cc:192-224,
    model/utils.cc:418-430). */
module FileRuns {
  type Pid = nat
  type FileId = nat

  datatype Key = Key(pid: Pid, fd: int)

  /** An entry of a table; `count` threads are using it, and `closing` says that it was
      closed meanwhile. */
  datatype Entry = Entry(file: FileId, count: nat, closing: bool)

  /** The entries of all processes.  `closes` holds a file as often as it was closed itself,
      and `stopped` the files whose last entry went with a process that was stopped. */
  datatype State = State(open: map<Key, Entry>, next: FileId, closes: multiset<FileId>, stopped: set<FileId>)

  datatype Event =
    | Open(k: Key)
    | Share(k: Key, f: FileId)
    | Take(k: Key)
    | Release(k: Key)
    | Close(k: Key)
    | Abandon(k: Key)
    | Destroy(k: Key)

  ghost predicate InTables(open: map<Key, Entry>, f: FileId) {
    exists k :: k in open && open[k].file == f
  }

  /** No other entry is for the same file. */
  ghost predicate Only(open: map<Key, Entry>, k: Key)
    requires k in open
  {
    forall j | j in open && open[j].file == open[k].file :: j == k
  }

  ghost predicate Enabled(s: State, e: Event) {
    match e
    case Open(k) => k !in s.open
    case Share(k, f) => k !in s.open && InTables(s.open, f)
    case Take(k) => k in s.open && !s.open[k].closing
    case Release(k) => k in s.open && s.open[k].count > 0
    case Close(k) => k in s.open
    case Abandon(k) => k in s.open
    case Destroy(k) => k in s.open
  }

  function Put(s: State, k: Key, n: Entry): State {
    s.(open := s.open[k := n])
  }

  function Gone(s: State, k: Key): State {
    s.(open := s.open - {k})
  }

  ghost function Step(s: State, e: Event): State
    requires Enabled(s, e)
  {
    match e
    case Open(k) => Put(s, k, Entry(s.next, 0, false)).(next := s.next + 1)
    case Share(k, f) => Put(s, k, Entry(f, 0, false))
    case Take(k) => Put(s, k, s.open[k].(count := s.open[k].count + 1))
    case Release(k) =>
      var n := s.open[k].(count := s.open[k].count - 1);
      if n.count == 0 && n.closing then Gone(s, k) else Put(s, k, n)
    case Close(k) =>
      var s' := if Only(s.open, k) then s.(closes := s.closes + multiset{s.open[k].file}) else s;
      if s.open[k].count == 0 then Gone(s', k) else Put(s', k, s.open[k].(closing := true))
    case Abandon(k) => Put(s, k, s.open[k].(count := 0))
    case Destroy(k) =>
      Gone(if Only(s.open, k) then s.(stopped := s.stopped + {s.open[k].file}) else s, k)
  }

  ghost predicate Inv(s: State) {
    && (forall k | k in s.open :: s.open[k].file < s.next)
    && (forall f | f in s.stopped :: f < s.next && !InTables(s.open, f))
    && forall f | f in s.closes :: f < s.next
  }

  lemma StepKeepsInv(s: State, e: Event)
    requires Inv(s) && Enabled(s, e)
    ensures Inv(Step(s, e))
  {
    var s' := Step(s, e);
    forall f | f in s'.stopped
      ensures f < s'.next && !InTables(s'.open, f)
    {
      if InTables(s'.open, f) {
        var k :| k in s'.open && s'.open[k].file == f;
        assert k in s.open ==> InTables(s.open, s.open[k].file);
      }
    }
  }

  /** A file is not closed as long as it is in a table, and once when it has left them all,
      unless its process was stopped. */
  ghost predicate TidyFile(s: State, f: FileId) {
    if InTables(s.open, f) then s.closes[f] == 0 else f in s.stopped || s.closes[f] == 1
  }

  ghost predicate Tidy(s: State) {
    forall f | 0 <= f < s.next :: TidyFile(s, f)
  }

  /** The only entry of a file is closed while a thread uses it, or goes with its last user
      though the file was not closed. */
  ghost predicate Spoils(s: State, e: Event)
    requires Enabled(s, e)
  {
    match e
    case Close(k) => Only(s.open, k) && s.open[k].count > 0
    case Release(k) =>
      Only(s.open, k) && s.open[k].count == 1 && s.open[k].closing && s.closes[s.open[k].file] == 0
    case _ => false
  }

  /** The file of the event. */
  ghost function FileOf(s: State, e: Event): FileId
    requires Enabled(s, e)
  {
    match e
    case Open(_) => s.next
    case Share(_, f) => f
    case Take(k) => s.open[k].file
    case Release(k) => s.open[k].file
    case Close(k) => s.open[k].file
    case Abandon(k) => s.open[k].file
    case Destroy(k) => s.open[k].file
  }

  lemma OthersUntouched(s: State, e: Event, f: FileId)
    requires Enabled(s, e) && f != FileOf(s, e)
    ensures var s' := Step(s, e);
            && (InTables(s'.open, f) <==> InTables(s.open, f)) && s'.closes[f] == s.closes[f]
            && (f in s'.stopped <==> f in s.stopped)
  {
    var s' := Step(s, e);
    if InTables(s.open, f) {
      var k :| k in s.open && s.open[k].file == f;
      assert k in s'.open && s'.open[k].file == f;
    }
    if InTables(s'.open, f) {
      var k :| k in s'.open && s'.open[k].file == f;
      assert k in s.open && s.open[k].file == f;
    }
  }

  /** An entry goes: the file stays in the tables unless it was the only one. */
  lemma EntryGoes(open: map<Key, Entry>, k: Key)
    requires k in open
    ensures InTables(open - {k}, open[k].file) <==> !Only(open, k)
  {
    if !Only(open, k) {
      var j :| j in open && open[j].file == open[k].file && j != k;
      assert j in open - {k} && (open - {k})[j].file == open[k].file;
    }
  }

  lemma EntryStays(open: map<Key, Entry>, k: Key, n: Entry)
    ensures InTables(open[k := n], n.file)
  {
    assert k in open[k := n] && open[k := n][k].file == n.file;
  }

  lemma OwnFile(s: State, e: Event)
    requires Inv(s) && Enabled(s, e) && (FileOf(s, e) < s.next ==> TidyFile(s, FileOf(s, e)))
    ensures TidyFile(Step(s, e), FileOf(s, e)) <==> !Spoils(s, e)
  {
    var k, f, s' := e.k, FileOf(s, e), Step(s, e);
    if k in s.open {
      EntryGoes(s.open, k);
      assert InTables(s.open, f);
    }
    if k in s'.open {
      EntryStays(s.open, k, s'.open[k]);
    }
  }

  lemma NextAfter(s: State, e: Event)
    requires Inv(s) && Enabled(s, e)
    ensures FileOf(s, e) < Step(s, e).next
    ensures Step(s, e).next == if FileOf(s, e) == s.next then s.next + 1 else s.next
  {
  }

  /** The rule is broken in these two ways and no other. */
  lemma TidinessLost(s: State, e: Event)
    requires Inv(s) && Enabled(s, e) && Tidy(s)
    ensures Tidy(Step(s, e)) <==> !Spoils(s, e)
  {
    var s' := Step(s, e);
    NextAfter(s, e);
    OwnFile(s, e);
    hide Step, Enabled, Spoils, FileOf;
    forall f | 0 <= f < s'.next && f != FileOf(s, e)
      ensures TidyFile(s', f)
    {
      OthersUntouched(s, e, f);
      assert TidyFile(s, f);
    }
    assert TidyFile(s', FileOf(s, e)) <==> !Spoils(s, e);
  }

  // ---------- whole runs ----------

  const INITIAL := State(map[], 0, multiset{}, {})

  ghost predicate IsRun(events: seq<Event>)
    decreases |events|, 0
  {
    events == [] || (IsRun(events[..|events| - 1]) && Enabled(After(events[..|events| - 1]), events[|events| - 1]))
  }

  ghost function After(events: seq<Event>): State
    requires IsRun(events)
    decreases |events|, 1
  {
    if events == [] then INITIAL else Step(After(events[..|events| - 1]), events[|events| - 1])
  }

  lemma RunNext(events: seq<Event>, e: Event)
    requires IsRun(events) && Enabled(After(events), e)
    ensures IsRun(events + [e]) && After(events + [e]) == Step(After(events), e)
  {
    assert (events + [e])[..|events|] == events;
  }

  lemma RunLast(events: seq<Event>)
    requires IsRun(events) && events != []
    ensures var n := |events| - 1;
            && IsRun(events[..n]) && Enabled(After(events[..n]), events[n])
            && After(events) == Step(After(events[..n]), events[n])
  {
  }

  lemma {:induction false} RunKeepsInv(events: seq<Event>)
    requires IsRun(events)
    ensures Inv(After(events))
  {
    if events != [] {
      var n := |events| - 1;
      RunKeepsInv(events[..n]);
      StepKeepsInv(After(events[..n]), events[n]);
    }
  }

  lemma {:induction false} RunPrefix(events: seq<Event>, n: nat)
    requires IsRun(events) && n <= |events|
    ensures IsRun(events[..n])
    decreases |events|
  {
    if n == |events| {
      assert events[..n] == events;
    } else {
      RunLast(events);
      hide IsRun;
      RunPrefix(events[..|events| - 1], n);
      assert events[..|events| - 1][..n] == events[..n];
    }
  }

  lemma RunStep(events: seq<Event>, n: nat)
    requires IsRun(events) && n < |events|
    ensures IsRun(events[..n]) && Enabled(After(events[..n]), events[n])
    ensures IsRun(events[..n + 1]) && After(events[..n + 1]) == Step(After(events[..n]), events[n])
  {
    hide IsRun, After, Step, Enabled;
    RunPrefix(events, n + 1);
    RunLast(events[..n + 1]);
    assert events[..n + 1][..n] == events[..n] && events[..n + 1][n] == events[n];
  }

  ghost predicate TidyAt(events: seq<Event>, k: nat) {
    k <= |events| && IsRun(events[..k]) && Tidy(After(events[..k]))
  }

  ghost predicate SpoilsAt(events: seq<Event>, k: nat) {
    && k < |events| && IsRun(events[..k]) && Enabled(After(events[..k]), events[k])
    && Spoils(After(events[..k]), events[k])
  }

  /** Over a whole run: the rule holds at every point if and only if no step closes an only
      entry in use, and none drops, by its last user, an only entry of a file that was not
      closed. */
  lemma {:induction false} TidyAllAlong(events: seq<Event>, n: nat)
    requires IsRun(events) && n <= |events|
    ensures (forall k: nat {:trigger TidyAt(events, k)} | k <= n :: TidyAt(events, k)) <==>
            (forall k: nat {:trigger SpoilsAt(events, k)} | k < n :: !SpoilsAt(events, k))
  {
    hide IsRun, After, Tidy, Spoils, Step, Enabled, Inv;
    if n == 0 {
      assert events[..0] == [];
      StartsTidy();
    } else {
      TidyAllAlong(events, n - 1);
      RunStep(events, n - 1);
      RunKeepsInv(events[..n - 1]);
      if TidyAt(events, n - 1) {
        TidinessLost(After(events[..n - 1]), events[n - 1]);
        assert TidyAt(events, n) <==> !SpoilsAt(events, n - 1);
      }
    }
  }

  lemma StartsTidy()
    ensures IsRun([]) && Tidy(After([]))
  {
  }

  /** The step closes a file: it closes its only entry. */
  ghost predicate Closes(s: State, e: Event, f: FileId)
    requires Enabled(s, e)
  {
    e.Close? && s.open[e.k].file == f && Only(s.open, e.k)
  }

  ghost predicate ClosesAt(events: seq<Event>, k: nat, f: FileId) {
    && k < |events| && IsRun(events[..k]) && Enabled(After(events[..k]), events[k])
    && Closes(After(events[..k]), events[k], f)
  }

  ghost predicate ClosedOnceBy(events: seq<Event>, f: FileId, n: nat) {
    exists k: nat :: k < n && ClosesAt(events, k, f) && forall j: nat | j < n && ClosesAt(events, j, f) :: j == k
  }

  lemma CloseCounts(s: State, e: Event, f: FileId)
    requires Enabled(s, e)
    ensures Step(s, e).closes[f] == s.closes[f] + (if Closes(s, e, f) then 1 else 0)
  {
  }

  /** How often a file is closed is how often a close found it with a single entry. */
  lemma {:induction false} ClosedHowOften(events: seq<Event>, f: FileId, n: nat)
    requires IsRun(events) && n <= |events|
    ensures IsRun(events[..n])
    ensures After(events[..n]).closes[f] == 0 <==> forall k: nat | k < n :: !ClosesAt(events, k, f)
    ensures After(events[..n]).closes[f] == 1 <==> ClosedOnceBy(events, f, n)
  {
    hide IsRun, After, Step, Enabled, Closes;
    if n == 0 {
      assert events[..0] == [];
      NothingClosed(f);
    } else {
      ClosedHowOften(events, f, n - 1);
      RunStep(events, n - 1);
      CloseCounts(After(events[..n - 1]), events[n - 1], f);
      if ClosesAt(events, n - 1, f) {
        ClosedOnceMore(events, f, n - 1);
      } else {
        NotClosedAgain(events, f, n - 1);
      }
    }
  }

  lemma NothingClosed(f: FileId)
    ensures IsRun([]) && After([]).closes[f] == 0
  {
  }

  lemma ClosedOnceMore(events: seq<Event>, f: FileId, n: nat)
    requires ClosesAt(events, n, f)
    ensures ClosedOnceBy(events, f, n + 1) <==> forall k: nat | k < n :: !ClosesAt(events, k, f)
  {
    hide ClosesAt;
  }

  lemma NotClosedAgain(events: seq<Event>, f: FileId, n: nat)
    requires !ClosesAt(events, n, f)
    ensures ClosedOnceBy(events, f, n + 1) <==> ClosedOnceBy(events, f, n)
  {
    hide ClosesAt;
    if ClosedOnceBy(events, f, n + 1) {
      var k: nat :| && k < n + 1 && ClosesAt(events, k, f)
                    && forall j: nat | j < n + 1 && ClosesAt(events, j, f) :: j == k;
      assert k < n;
    }
  }

  /** A file that has left all tables, and was not stopped, was closed once if and only if
      exactly one close found it with a single entry; otherwise the rule is broken. */
  lemma ClosedOnceWhen(events: seq<Event>, f: FileId)
    requires IsRun(events) && f < After(events).next
    requires !InTables(After(events).open, f) && f !in After(events).stopped
    ensures TidyFile(After(events), f) <==> ClosedOnceBy(events, f, |events|)
  {
    ClosedHowOften(events, f, |events|);
    assert events[..|events|] == events;
  }
}
