/** Whole runs of the loader, as the processes see them.

    The picture a program has of its global variables is simple: every process has its
    own memory, one section per library.  `Reads` is what a process finds in that memory.
    `StepAgrees` says how one action of the running process may change what anybody
    reads; every operation of the loader is shown to be such a step, and properties of
    runs follow from the steps alone. */
module LoaderRuns {
  import opened LoaderStore
  import opened Options
  import opened CoojaLoader

  datatype Snapshot = Snapshot(shared: SharedMap, heap: Heap)

  datatype Action =
    | Switch(to: LoaderId)
    | Write(lib: LibId, section: Section)
    | Load(order: seq<LibId>)
    | Unload(handle: LibId)
    | Fork(child: LoaderId)
    | Exit(who: LoaderId)
    | Start(who: LoaderId)
    | Edit(more: map<LibId, Library>)

  ghost function Reads(s: Snapshot, who: LoaderId, x: LibId): Option<Section> {
    if exists p :: OwnModule(s.heap, who, x, p) && x in s.shared then
      var p :| OwnModule(s.heap, who, x, p) && x in s.shared;
      Some(View(s.shared, s.heap, p))
    else None
  }

  /** What `who` reads in library x after `running` has performed the action. */
  ghost predicate StepAgreesAt(libs: map<LibId, Library>, running: LoaderId, a: Action, s: Snapshot, t: Snapshot,
                               who: LoaderId, x: LibId) {
    var before, after := Reads(s, who, x), Reads(t, who, x);
    match a
    case Switch(_) => after == before
    case Write(y, section) => after == if who == running && x == y && before.Some? then Some(section) else before
    case Load(order) =>
      after == if who == running && before == None && x in order && x in libs then Some(libs[x].image) else before
    case Unload(y) => after == before || (who == running && x <= y && after == None)
    case Fork(child) => after == if who == child then Reads(s, running, x) else before
    case Exit(gone) => after == if who == gone then None else before
    case Start(_) => after == before
    case Edit(_) => after == before
  }

  ghost predicate StepAgrees(libs: map<LibId, Library>, running: LoaderId, a: Action, s: Snapshot, t: Snapshot) {
    forall who, x {:trigger StepAgreesAt(libs, running, a, s, t, who, x)} ::
      StepAgreesAt(libs, running, a, s, t, who, x)
  }

  datatype Event = Event(running: LoaderId, action: Action)

  /** What is loaded has been edited before. */
  predicate Known(libs: map<LibId, Library>, a: Action) {
    a.Load? ==> forall x | x in a.order :: x in libs
  }

  ghost predicate IsRun(libs: map<LibId, Library>, events: seq<Event>, states: seq<Snapshot>) {
    && |states| == |events| + 1
    && forall i {:trigger events[i]} | 0 <= i < |events| ::
         && Known(libs, events[i].action)
         && StepAgrees(libs, events[i].running, events[i].action, states[i], states[i + 1])
  }

  /** An event that is none of a process's business: somebody else runs, and the process
      is neither created nor ended. */
  predicate Foreign(e: Event, who: LoaderId) {
    e.running != who && e.action != Exit(who) && e.action != Fork(who)
  }

  /** Isolation over whole runs: while a process does not run, nothing any other process
      does - switching, writing, loading, unloading, forking, exiting - changes what it
      will read. */
  lemma {:induction false} Isolation(libs: map<LibId, Library>, events: seq<Event>, states: seq<Snapshot>,
                                     who: LoaderId, x: LibId)
    requires IsRun(libs, events, states)
    requires forall i | 0 <= i < |events| :: Foreign(events[i], who)
    ensures Reads(states[|events|], who, x) == Reads(states[0], who, x)
  {
    if events != [] {
      var n := |events| - 1;
      var init := events[..n];
      forall i | 0 <= i < |init|
        ensures Known(libs, init[i].action)
      ensures StepAgrees(libs, init[i].running, init[i].action, states[..n + 1][i], states[..n + 1][i + 1])
      {
        assert init[i] == events[i];
      }
      Isolation(libs, init, states[..n + 1], who, x);
      assert Foreign(events[n], who);
      assert StepAgreesAt(libs, events[n].running, events[n].action, states[n], states[n + 1], who, x);
    }
  }

  /** A process that writes a library's variables reads that value back when it next looks,
      however long other processes have run in between. */
  lemma WriteThenReadBack(libs: map<LibId, Library>, events: seq<Event>, states: seq<Snapshot>, who: LoaderId,
                          x: LibId, section: Section)
    requires IsRun(libs, events, states) && |events| > 0
    requires events[0] == Event(who, Write(x, section)) && Reads(states[0], who, x).Some?
    requires forall i | 1 <= i < |events| :: Foreign(events[i], who)
    ensures Reads(states[|events|], who, x) == Some(section)
  {
    assert StepAgreesAt(libs, who, events[0].action, states[0], states[1], who, x);
    var rest := events[1..];
    forall i | 0 <= i < |rest|
      ensures Known(libs, rest[i].action)
      ensures StepAgrees(libs, rest[i].running, rest[i].action, states[1..][i], states[1..][i + 1])
    {
      assert rest[i] == events[i + 1];
    }
    Isolation(libs, rest, states[1..], who, x);
  }

  /** After a fork, parent and child start from the same values and then go separate ways:
      what either does, while the other does not run, is invisible to the other. */
  lemma ForkIsolated(libs: map<LibId, Library>, events: seq<Event>, states: seq<Snapshot>, parent: LoaderId,
                     child: LoaderId, x: LibId)
    requires IsRun(libs, events, states) && |events| > 0 && parent != child
    requires events[0] == Event(parent, Fork(child))
    ensures (forall i | 1 <= i < |events| :: Foreign(events[i], child)) ==>
              Reads(states[|events|], child, x) == Reads(states[0], parent, x)
    ensures (forall i | 1 <= i < |events| :: Foreign(events[i], parent)) ==>
              Reads(states[|events|], parent, x) == Reads(states[0], parent, x)
  {
    assert StepAgreesAt(libs, parent, events[0].action, states[0], states[1], child, x);
    assert StepAgreesAt(libs, parent, events[0].action, states[0], states[1], parent, x);
    var rest := events[1..];
    forall i | 0 <= i < |rest|
      ensures Known(libs, rest[i].action)
      ensures StepAgrees(libs, rest[i].running, rest[i].action, states[1..][i], states[1..][i + 1])
    {
      assert rest[i] == events[i + 1];
    }
    if forall i | 1 <= i < |events| :: Foreign(events[i], child) {
      Isolation(libs, rest, states[1..], child, x);
    }
    if forall i | 1 <= i < |events| :: Foreign(events[i], parent) {
      Isolation(libs, rest, states[1..], parent, x);
    }
  }

  // ---------- every operation is such a step ----------

  /** One module per process and library: what a process reads is the view of that module. */
  lemma ReadsOwn(libs: map<LibId, Library>, lists: Lists, s: Snapshot, who: LoaderId, x: LibId, p: ModulePtr)
    requires ShapesOk(libs, lists, s.heap) && OwnModule(s.heap, who, x, p) && x in s.shared
    ensures Reads(s, who, x) == Some(View(s.shared, s.heap, p))
  {
    forall q | OwnModule(s.heap, who, x, q)
      ensures q == p
    {
      SameOwnerSameLib(libs, lists, s.heap, p, q);
    }
  }

  lemma ReadsNothing(s: Snapshot, who: LoaderId, x: LibId)
    requires forall p :: !OwnModule(s.heap, who, x, p)
    ensures Reads(s, who, x) == None
  {
  }

  ghost predicate StoreOk(libs: map<LibId, Library>, lists: Lists, s: Snapshot) {
    SharedOk(libs, s.shared, s.heap, multiset{}) && ShapesOk(libs, lists, s.heap)
  }

  /** A step stays what it was when more files have been edited. */
  lemma AgreesLater(libs: map<LibId, Library>, more: map<LibId, Library>, running: LoaderId, a: Action, s: Snapshot,
                    t: Snapshot)
    requires StepAgrees(libs, running, a, s, t) && Known(libs, a) && Grows(libs, more)
    ensures StepAgrees(more, running, a, s, t) && Known(more, a)
  {
    forall who, x
      ensures StepAgreesAt(more, running, a, s, t, who, x)
    {
      assert StepAgreesAt(libs, running, a, s, t, who, x);
    }
  }

  lemma RunLater(libs: map<LibId, Library>, more: map<LibId, Library>, events: seq<Event>, states: seq<Snapshot>)
    requires IsRun(libs, events, states) && Grows(libs, more)
    ensures IsRun(more, events, states)
  {
    hide StepAgrees, Known, Grows;
    forall i | 0 <= i < |events|
      ensures Known(more, events[i].action)
      ensures StepAgrees(more, events[i].running, events[i].action, states[i], states[i + 1])
    {
      AgreesLater(libs, more, events[i].running, events[i].action, states[i], states[i + 1]);
    }
  }

  lemma SwitchAgrees(libs: map<LibId, Library>, lists: Lists, s: Snapshot, t: Snapshot, running: LoaderId, to: LoaderId)
    requires StoreOk(libs, lists, s) && StoreOk(libs, lists, t)
    requires KeepsViews(s.shared, s.heap, t.shared, t.heap) && SameModules(s.heap, t.heap)
    ensures StepAgrees(libs, running, Switch(to), s, t)
  {
    forall who, x
      ensures StepAgreesAt(libs, running, Switch(to), s, t, who, x)
    {
      if p :| OwnModule(s.heap, who, x, p) {
        assert SameView(s.shared, s.heap, t.shared, t.heap, p) && OwnModule(t.heap, who, x, p);
        ReadsOwn(libs, lists, s, who, x, p);
        ReadsOwn(libs, lists, t, who, x, p);
      } else {
        assert forall p :: OwnModule(t.heap, who, x, p) ==> OwnModule(s.heap, who, x, p);
      }
    }
  }

  lemma WriteAgrees(libs: map<LibId, Library>, lists: Lists, s: Snapshot, t: Snapshot, running: LoaderId, y: LibId,
                    section: Section, own: ModulePtr)
    requires StoreOk(libs, lists, s) && StoreOk(libs, lists, t)
    requires WritesView(s.shared, s.heap, t.shared, y, section) && t.heap == s.heap
    requires OwnModule(s.heap, running, y, own) && IsLive(s.shared, s.heap, own)
    ensures StepAgrees(libs, running, Write(y, section), s, t)
  {
    forall who, x
      ensures StepAgreesAt(libs, running, Write(y, section), s, t, who, x)
    {
      if p :| OwnModule(s.heap, who, x, p) {
        ReadsOwn(libs, lists, s, who, x, p);
        ReadsOwn(libs, lists, t, who, x, p);
        SameOwnerSameLib(libs, lists, s.heap, p, own);
      }
    }
  }

  lemma LoadAgrees(libs: map<LibId, Library>, l0: Lists, s: Snapshot, l1: Lists, t: Snapshot, running: LoaderId,
                   order: seq<LibId>)
    requires StoreOk(libs, l0, s) && StoreOk(libs, l1, t)
    requires Extends(s.shared, s.heap, t.shared, t.heap) && OnlyAppends(l0, l1, running)
    requires FreshFrom(libs, t.shared, t.heap, l1, running, |l0[running]|)
    requires NewAmong(t.heap, l1, running, |l0[running]|, order)
    requires forall k | 0 <= k < |order| :: Loaded(l1, t.heap, running, order[k])
    ensures StepAgrees(libs, running, Load(order), s, t)
  {
    forall who, x
      ensures StepAgreesAt(libs, running, Load(order), s, t, who, x)
    {
      if p :| OwnModule(s.heap, who, x, p) {
        assert Grew(s.shared, s.heap, t.shared, t.heap, p);
        ReadsOwn(libs, l0, s, who, x, p);
        ReadsOwn(libs, l1, t, who, x, p);
      } else if p :| OwnModule(t.heap, who, x, p) {
        assert !OwnModule(s.heap, who, x, p) && Grew(s.shared, s.heap, t.shared, t.heap, p);
        NewModuleFresh(libs, l0, s, l1, t, running, order, p);
        ReadsOwn(libs, l1, t, who, x, p);
      } else if who == running && x in order {
        var k :| 0 <= k < |order| && order[k] == x;
        assert Loaded(l1, t.heap, running, order[k]);
        var p :| p in l1[running] && p in t.heap && t.heap[p].lib == x;
        assert ListShaped(l1, t.heap, running);
        assert OwnModule(t.heap, who, x, p);
      }
    }
  }

  /** A module that a load added is the runner's, among those asked for, and pristine. */
  lemma NewModuleFresh(libs: map<LibId, Library>, l0: Lists, s: Snapshot, l1: Lists, t: Snapshot, running: LoaderId,
                       order: seq<LibId>, p: ModulePtr)
    requires StoreOk(libs, l0, s) && StoreOk(libs, l1, t)
    requires OnlyAppends(l0, l1, running)
    requires FreshFrom(libs, t.shared, t.heap, l1, running, |l0[running]|)
    requires NewAmong(t.heap, l1, running, |l0[running]|, order)
    requires p in t.heap && !OwnModule(s.heap, t.heap[p].owner, t.heap[p].lib, p)
    requires Extends(s.shared, s.heap, t.shared, t.heap)
    ensures t.heap[p].owner == running && t.heap[p].lib in order && t.heap[p].lib in t.shared
    ensures t.heap[p].lib in libs && View(t.shared, t.heap, p) == libs[t.heap[p].lib].image
  {
    var who := t.heap[p].owner;
    assert ModuleShaped(libs, l1, t.heap, p);
    assert ListShaped(l0, s.heap, who);
    var i: nat :| i < |l1[who]| && l1[who][i] == p;
    assert p !in s.heap by { assert Grew(s.shared, s.heap, t.shared, t.heap, p); }
    assert who == running && i >= |l0[running]|;
    assert FreshAt(libs, t.shared, t.heap, l1, running, i);
  }

  lemma UnloadAgrees(libs: map<LibId, Library>, l0: Lists, s: Snapshot, l1: Lists, t: Snapshot, running: LoaderId,
                     y: LibId)
    requires StoreOk(libs, l0, s) && StoreOk(libs, l1, t)
    requires Unloaded(s.shared, s.heap, t.shared, t.heap, running, y)
    ensures StepAgrees(libs, running, Unload(y), s, t)
  {
    forall who, x
      ensures StepAgreesAt(libs, running, Unload(y), s, t, who, x)
    {
      if p :| OwnModule(t.heap, who, x, p) {
        assert Survives(s.shared, s.heap, t.shared, t.heap, p);
        ReadsOwn(libs, l0, s, who, x, p);
        ReadsOwn(libs, l1, t, who, x, p);
      } else if p :| OwnModule(s.heap, who, x, p) {
        assert !OwnModule(t.heap, who, x, p) && Untouched(s.heap, t.heap, running, y, p);
        ReadsNothing(t, who, x);
      }
    }
  }

  lemma UnloadKeepsLive(libs: map<LibId, Library>, l0: Lists, s: Snapshot, l1: Lists, t: Snapshot, running: LoaderId,
                        y: LibId)
    requires StoreOk(libs, l1, t) && running in l0 && OnlyShrinks(l0, l1, running)
    requires Unloaded(s.shared, s.heap, t.shared, t.heap, running, y)
    requires forall i | 0 <= i < |l0[running]| :: IsLive(s.shared, s.heap, l0[running][i])
    ensures forall i | 0 <= i < |l1[running]| :: IsLive(t.shared, t.heap, l1[running][i])
  {
    assert ListShrinks(l0, l1, running, running) && ListShaped(l1, t.heap, running);
    forall i | 0 <= i < |l1[running]|
      ensures IsLive(t.shared, t.heap, l1[running][i])
    {
      var p := l1[running][i];
      assert Survives(s.shared, s.heap, t.shared, t.heap, p);
      assert p in l1[running];
    }
  }

  lemma ExitAgrees(libs: map<LibId, Library>, l0: Lists, s: Snapshot, l1: Lists, t: Snapshot, running: LoaderId,
                   gone: LoaderId)
    requires StoreOk(libs, l0, s) && StoreOk(libs, l1, t)
    requires Evicted(s.shared, s.heap, t.shared, t.heap, gone)
    requires forall q | q in t.heap :: t.heap[q].owner != gone
    ensures StepAgrees(libs, running, Exit(gone), s, t)
  {
    forall who, x
      ensures StepAgreesAt(libs, running, Exit(gone), s, t, who, x)
    {
      if p :| OwnModule(t.heap, who, x, p) {
        assert Survives(s.shared, s.heap, t.shared, t.heap, p);
        ReadsOwn(libs, l0, s, who, x, p);
        ReadsOwn(libs, l1, t, who, x, p);
      } else if p :| OwnModule(s.heap, who, x, p) {
        assert !OwnModule(t.heap, who, x, p) && Spared(s.heap, t.heap, gone, p);
        ReadsNothing(t, who, x);
      }
    }
  }

  lemma ForkAgrees(libs: map<LibId, Library>, l0: Lists, s: Snapshot, l1: Lists, t: Snapshot, running: LoaderId,
                   child: LoaderId)
    requires StoreOk(libs, l0, s) && StoreOk(libs, l1, t) && running in l0
    requires ForkedTo(l0, s.shared, s.heap, l1, t.shared, t.heap, running, child, |l0[running]|)
    requires Extends(s.shared, s.heap, t.shared, t.heap)
    requires ChildReads(l0, s.shared, s.heap, l1, t.shared, t.heap, running, child)
    requires forall i | 0 <= i < |l0[running]| :: IsLive(s.shared, s.heap, l0[running][i])
    ensures StepAgrees(libs, running, Fork(child), s, t)
  {
    forall who, x
      ensures StepAgreesAt(libs, running, Fork(child), s, t, who, x)
    {
      if who == child {
        ChildAgrees(libs, l0, s, l1, t, running, child, x);
      } else if p :| OwnModule(s.heap, who, x, p) {
        assert Grew(s.shared, s.heap, t.shared, t.heap, p);
        ReadsOwn(libs, l0, s, who, x, p);
        ReadsOwn(libs, l1, t, who, x, p);
      } else {
        forall p
          ensures OwnModule(t.heap, who, x, p) ==> OwnModule(s.heap, who, x, p)
        {
          OnlyChildIsNew(libs, l0, s, l1, t, running, child, p);
        }
        ReadsNothing(s, who, x);
        ReadsNothing(t, who, x);
      }
    }
  }

  lemma OnlyChildIsNew(libs: map<LibId, Library>, l0: Lists, s: Snapshot, l1: Lists, t: Snapshot, running: LoaderId,
                       child: LoaderId, p: ModulePtr)
    requires StoreOk(libs, l1, t) && running in l0
    requires ForkedTo(l0, s.shared, s.heap, l1, t.shared, t.heap, running, child, |l0[running]|)
    ensures p in t.heap && t.heap[p].owner != child ==> p in s.heap && s.heap[p] == t.heap[p]
  {
    assert KeptAt(s.heap, t.heap, child, p);
    assert ListShaped(l1, t.heap, child);
  }

  lemma LoadKeepsLive(libs: map<LibId, Library>, l0: Lists, s: Snapshot, l1: Lists, t: Snapshot, running: LoaderId)
    requires OnlyAppends(l0, l1, running) && StaysLive(s.shared, s.heap, t.shared, t.heap, running)
    requires ListShaped(l0, s.heap, running) && FreshFrom(libs, t.shared, t.heap, l1, running, |l0[running]|)
    requires forall i | 0 <= i < |l0[running]| :: IsLive(s.shared, s.heap, l0[running][i])
    ensures forall i | 0 <= i < |l1[running]| :: IsLive(t.shared, t.heap, l1[running][i])
  {
    forall i: nat | i < |l1[running]|
      ensures IsLive(t.shared, t.heap, l1[running][i])
    {
      if i < |l0[running]| {
        assert l1[running][i] == l0[running][i] && IsLive(s.shared, s.heap, l0[running][i]);
        assert StaysLiveOne(s.shared, s.heap, t.shared, t.heap, running, l0[running][i]);
      } else {
        assert FreshAt(libs, t.shared, t.heap, l1, running, i);
      }
    }
  }

  lemma ExitKeepsLive(libs: map<LibId, Library>, l0: Lists, s: Snapshot, l1: Lists, t: Snapshot, running: LoaderId,
                      gone: LoaderId)
    requires StoreOk(libs, l0, s) && running in l0 && l1 == l0[gone := []]
    requires Evicted(s.shared, s.heap, t.shared, t.heap, gone)
    requires forall i | 0 <= i < |l0[running]| :: IsLive(s.shared, s.heap, l0[running][i])
    ensures forall i | 0 <= i < |l1[running]| :: IsLive(t.shared, t.heap, l1[running][i])
  {
    assert ListShaped(l0, s.heap, running);
    forall i | 0 <= i < |l1[running]|
      ensures IsLive(t.shared, t.heap, l1[running][i])
    {
      var p := l0[running][i];
      assert Survives(s.shared, s.heap, t.shared, t.heap, p) && Spared(s.heap, t.heap, gone, p);
    }
  }

  lemma ForkKeepsLive(libs: map<LibId, Library>, l0: Lists, s: Snapshot, l1: Lists, t: Snapshot, running: LoaderId,
                      child: LoaderId)
    requires running in l0 && child !in l0
    requires ForkedTo(l0, s.shared, s.heap, l1, t.shared, t.heap, running, child, |l0[running]|)
    requires forall i | 0 <= i < |l0[running]| :: IsLive(s.shared, s.heap, l0[running][i])
    ensures running in l1 && forall i | 0 <= i < |l1[running]| :: IsLive(t.shared, t.heap, l1[running][i])
  {
    forall i | 0 <= i < |l1[running]|
      ensures IsLive(t.shared, t.heap, l1[running][i])
    {
      assert IsLive(s.shared, s.heap, l0[running][i]) && KeptAt(s.heap, t.heap, child, l0[running][i]);
    }
  }

  lemma ChildAgrees(libs: map<LibId, Library>, l0: Lists, s: Snapshot, l1: Lists, t: Snapshot, running: LoaderId,
                    child: LoaderId, x: LibId)
    requires StoreOk(libs, l0, s) && StoreOk(libs, l1, t) && running in l0
    requires ForkedTo(l0, s.shared, s.heap, l1, t.shared, t.heap, running, child, |l0[running]|)
    requires ChildReads(l0, s.shared, s.heap, l1, t.shared, t.heap, running, child)
    requires forall i | 0 <= i < |l0[running]| :: IsLive(s.shared, s.heap, l0[running][i])
    ensures Reads(t, child, x) == Reads(s, running, x)
  {
    if p :| OwnModule(s.heap, running, x, p) {
      assert ModuleShaped(libs, l0, s.heap, p);
      var j: nat :| j < |l0[running]| && l0[running][j] == p;
      var c := l1[child][j];
      assert ChildReadsAt(l0, s.shared, s.heap, l1, t.shared, t.heap, running, child, j);
      assert CopyAt(l0, s.shared, s.heap, l1, t.heap, running, child, j);
      ReadsOwn(libs, l0, s, running, x, p);
      ReadsOwn(libs, l1, t, child, x, c);
    } else if c :| OwnModule(t.heap, child, x, c) {
      assert ModuleShaped(libs, l1, t.heap, c);
      var j: nat :| j < |l1[child]| && l1[child][j] == c;
      var p := l0[running][j];
      assert CopyAt(l0, s.shared, s.heap, l1, t.heap, running, child, j);
      assert ListShaped(l0, s.heap, running);
      assert OwnModule(s.heap, running, x, p);
    }
  }

  ghost function Now(rt: CoojaRuntime): Snapshot
    reads rt
  {
    Snapshot(rt.shared, rt.heap)
  }

  /** What the program and the process manager owe the loader: a process only touches the
      variables of libraries it has loaded, gives back references it was given, and gets
      its dependencies in an order in which they can be resolved. */
  ghost predicate Permitted(rt: CoojaRuntime, running: LoaderId, a: Action)
    reads rt
  {
    && running in rt.lists
    && match a
       case Switch(to) => to in rt.lists
       case Write(x, _) => Loaded(rt.lists, rt.heap, running, x)
       case Load(order) => |order| > 0 && Loadable(rt.libs, rt.lists, rt.heap, running, order)
       case Unload(x) => running in rt.clients && (Loaded(rt.lists, rt.heap, running, x) ==> x in rt.clients[running])
       case Fork(child) => child !in rt.lists
       case Exit(gone) => gone in rt.lists
       case Start(who) => who !in rt.lists
       case Edit(more) => Ranked(more) && Grows(rt.libs, more)
  }

  function NextRunner(running: LoaderId, a: Action): LoaderId {
    if a.Switch? then a.to else running
  }

  /** The references the processes have been handed and may give back, after the action. */
  ghost predicate HandsOut(clients: Clients, clients': Clients, running: LoaderId, a: Action) {
    match a
    case Load(order) =>
      && running in clients && |order| > 0
      && clients' == clients[running := clients[running] + multiset{order[|order| - 1]}]
    case Unload(x) => running in clients && clients' == clients[running := clients[running] - multiset{x}]
    case Fork(child) => running in clients && clients' == clients[child := clients[running]]
    case Exit(gone) => clients' == clients[gone := multiset{}]
    case Start(who) => clients' == clients[who := multiset{}]
    case _ => clients' == clients
  }

  /** The counts of a process are exact: no module has a reference nobody can give back. */
  ghost predicate ExactIn(heap: Heap, excess: map<ModulePtr, nat>, who: LoaderId) {
    forall p | p in heap && heap[p].owner == who :: p in excess && excess[p] == 0
  }

  ghost predicate Exact(rt: CoojaRuntime, who: LoaderId)
    reads rt
  {
    ExactIn(rt.heap, rt.excess, who)
  }

  /** Moreover none of its modules is kept without a reference. */
  ghost predicate AccountedIn(heap: Heap, excess: map<ModulePtr, nat>, who: LoaderId) {
    ExactIn(heap, excess, who) && Referenced(heap, {}, who)
  }

  ghost predicate Accounted(rt: CoojaRuntime, who: LoaderId)
    reads rt
  {
    AccountedIn(rt.heap, rt.excess, who)
  }

  lemma LoadKeepsExact(s0: SharedMap, h0: Heap, e0: map<ModulePtr, nat>, s1: SharedMap, h1: Heap,
                       e1: map<ModulePtr, nat>, who: LoaderId)
    requires NoNewSurplus(h0, e0, h1, e1) && Extends(s0, h0, s1, h1) && ExactIn(h0, e0, who)
    ensures ExactIn(h1, e1, who)
  {
    forall p | p in h1 && h1[p].owner == who
      ensures p in e1 && e1[p] == 0
    {
      assert Grew(s0, h0, s1, h1, p);
    }
  }

  lemma SurvivorsKeepExact(s0: SharedMap, h0: Heap, s1: SharedMap, h1: Heap, excess: map<ModulePtr, nat>, who: LoaderId)
    requires forall q {:trigger Survives(s0, h0, s1, h1, q)} :: Survives(s0, h0, s1, h1, q)
    requires ExactIn(h0, excess, who)
    ensures ExactIn(h1, excess, who)
  {
    forall p | p in h1 && h1[p].owner == who
      ensures p in excess && excess[p] == 0
    {
      assert Survives(s0, h0, s1, h1, p);
    }
  }

  lemma ForkKeepsExact(libs: map<LibId, Library>, l0: Lists, s: Snapshot, e0: map<ModulePtr, nat>, l1: Lists,
                       t: Snapshot,
                       e1: map<ModulePtr, nat>, running: LoaderId, child: LoaderId, who: LoaderId)
    requires StoreOk(libs, l1, t) && running in l0
    requires ForkedTo(l0, s.shared, s.heap, l1, t.shared, t.heap, running, child, |l0[running]|)
    requires OldSurplus(s.heap, e0, e1) && ExactIn(s.heap, e0, who) && who != child
    ensures ExactIn(t.heap, e1, who)
  {
    forall p | p in t.heap && t.heap[p].owner == who
      ensures p in e1 && e1[p] == 0
    {
      OnlyChildIsNew(libs, l0, s, l1, t, running, child, p);
    }
  }

  lemma ForkKeepsOthers(libs: map<LibId, Library>, l0: Lists, s: Snapshot, l1: Lists, t: Snapshot, running: LoaderId,
                        child: LoaderId, who: LoaderId)
    requires StoreOk(libs, l1, t) && running in l0
    requires ForkedTo(l0, s.shared, s.heap, l1, t.shared, t.heap, running, child, |l0[running]|)
    requires Referenced(s.heap, {}, who) && who != child
    ensures Referenced(t.heap, {}, who)
  {
    forall q | q in t.heap && t.heap[q].owner == who
      ensures t.heap[q].refcount > 0
    {
      OnlyChildIsNew(libs, l0, s, l1, t, running, child, q);
      assert KeptAt(s.heap, t.heap, child, q);
    }
  }

  /** The process has all the libraries of the list. */
  ghost predicate LoadedAs(rt: CoojaRuntime, who: LoaderId, order: seq<LibId>)
    reads rt
  {
    forall k | 0 <= k < |order| :: Loaded(rt.lists, rt.heap, who, order[k])
  }

  lemma LoadsKnown(libs: map<LibId, Library>, lists: Lists, heap: Heap, who: LoaderId, order: seq<LibId>)
    requires Loadable(libs, lists, heap, who, order)
    ensures Known(libs, Load(order))
  {
    forall x | x in order
      ensures x in libs
    {
      var k :| 0 <= k < |order| && order[k] == x;
      assert LoadableAt(libs, lists, heap, who, order, k);
    }
  }

  method PerformLoad(rt: CoojaRuntime, running: LoaderId, order: seq<LibId>)
    requires rt.Valid() && rt.AllLive(running) && Permitted(rt, running, Load(order))
    modifies rt
    ensures rt.libs == old(rt.libs) && Known(rt.libs, Load(order)) && LoadedAs(rt, running, order)
    ensures rt.Valid() && rt.AllLive(running)
    ensures StepAgrees(rt.libs, running, Load(order), old(Now(rt)), Now(rt))
    ensures HandsOut(old(rt.clients), rt.clients, running, Load(order))
    ensures forall who | old(Exact(rt, who)) :: Exact(rt, who)
    ensures forall who | old(Accounted(rt, who))
                         && (who == running ==> old(Rooted(rt.libs, rt.lists, rt.heap, running, order))) ::
              Accounted(rt, who)
    ensures old(AllReferenced(rt.heap, {})) ==>
              (AllReferenced(rt.heap, {}) <==> old(Rooted(rt.libs, rt.lists, rt.heap, running, order)))
    ensures Extends(old(rt.shared), old(rt.heap), rt.shared, rt.heap) && OnlyAppends(old(rt.lists), rt.lists, running)
  {
    LoadsKnown(rt.libs, rt.lists, rt.heap, running, order);
    var handle := rt.Load(running, order);
    LoadAgrees(rt.libs, old(rt.lists), old(Now(rt)), rt.lists, Now(rt), running, order);
    LoadKeepsLive(rt.libs, old(rt.lists), old(Now(rt)), rt.lists, Now(rt), running);
    LoadKeepsAllReferenced(rt.libs, old(rt.lists), old(Now(rt)), old(rt.clients), old(rt.excess), rt.lists, Now(rt),
                           rt.clients, rt.excess, running, order);
    forall who | old(Exact(rt, who))
      ensures Exact(rt, who)
    {
      LoadKeepsExact(old(rt.shared), old(rt.heap), old(rt.excess), rt.shared, rt.heap, rt.excess, who);
    }
    forall who | old(Accounted(rt, who)) && (who == running ==> old(Rooted(rt.libs, rt.lists, rt.heap, running, order)))
      ensures Accounted(rt, who)
    {
      assert old(Exact(rt, who)) && old(Referenced(rt.heap, {}, who));
      assert Exact(rt, who) && Referenced(rt.heap, {}, who);
    }
  }

  /** Somebody counts on the library: the process itself was handed a reference, another of
      its libraries needs it, or a fork left a surplus. */
  ghost predicate Wanted(libs: map<LibId, Library>, heap: Heap, clients: Clients, excess: map<ModulePtr, nat>,
                         who: LoaderId, x: LibId) {
    || (who in clients && x in clients[who])
    || (exists r :: r in heap && heap[r].owner == who && heap[r].lib in libs && x in libs[heap[r].lib].deps)
    || (exists p :: OwnModule(heap, who, x, p) && p in excess && excess[p] > 0)
  }

  /** With all its modules referenced, a process has exactly the libraries that are wanted:
      one goes exactly when its last reference does. */
  lemma LoadedIffWanted(libs: map<LibId, Library>, lists: Lists, heap: Heap, clients: Clients,
                        excess: map<ModulePtr, nat>, who: LoaderId, x: LibId)
    requires ModulesOk(libs, lists, heap, clients, excess, multiset{}) && Referenced(heap, {}, who)
    ensures Loaded(lists, heap, who, x) <==> Wanted(libs, heap, clients, excess, who, x)
  {
    if Loaded(lists, heap, who, x) {
      var p :| p in lists[who] && p in heap && heap[p].lib == x;
      assert ListShaped(lists, heap, who) && ModuleCounted(heap, clients, excess, multiset{}, p);
      if Incoming(Links(heap), p) > 0 {
        var e :| e in InEdges(Links(heap), p);
        assert ModuleShaped(libs, lists, heap, e.0) && heap[e.0].deps[e.1] == p;
      }
    }
    if r :| r in heap && heap[r].owner == who && heap[r].lib in libs && x in libs[heap[r].lib].deps {
      assert ModuleShaped(libs, lists, heap, r);
      var i :| 0 <= i < |libs[heap[r].lib].deps| && libs[heap[r].lib].deps[i] == x;
      assert ModuleShaped(libs, lists, heap, heap[r].deps[i]);
    }
    if p :| OwnModule(heap, who, x, p) {
      assert ModuleShaped(libs, lists, heap, p);
    }
  }

  ghost predicate HasWhatIsWanted(rt: CoojaRuntime)
    reads rt
  {
    forall who, x {:trigger Loaded(rt.lists, rt.heap, who, x)} ::
      Loaded(rt.lists, rt.heap, who, x) <==> Wanted(rt.libs, rt.heap, rt.clients, rt.excess, who, x)
  }

  method PerformUnload(rt: CoojaRuntime, running: LoaderId, x: LibId)
    requires rt.Valid() && rt.AllLive(running) && Permitted(rt, running, Unload(x))
    modifies rt
    ensures rt.libs == old(rt.libs)
    ensures rt.Valid() && rt.AllLive(running)
    ensures StepAgrees(rt.libs, running, Unload(x), old(Now(rt)), Now(rt))
    ensures HandsOut(old(rt.clients), rt.clients, running, Unload(x))
    ensures old(AllReferenced(rt.heap, {})) ==> AllReferenced(rt.heap, {}) && HasWhatIsWanted(rt)
    ensures forall who | old(Exact(rt, who)) :: Exact(rt, who)
    ensures forall who | old(Accounted(rt, who)) :: Accounted(rt, who)
  {
    rt.Unload(running, x);
    UnloadAgrees(rt.libs, old(rt.lists), old(Now(rt)), rt.lists, Now(rt), running, x);
    UnloadKeepsLive(rt.libs, old(rt.lists), old(Now(rt)), rt.lists, Now(rt), running, x);
    EverybodyReferenced(old(rt.heap));
    EverybodyReferenced(rt.heap);
    if AllReferenced(rt.heap, {}) {
      forall who, y
        ensures Loaded(rt.lists, rt.heap, who, y) <==> Wanted(rt.libs, rt.heap, rt.clients, rt.excess, who, y)
      {
        LoadedIffWanted(rt.libs, rt.lists, rt.heap, rt.clients, rt.excess, who, y);
      }
    }
    forall who | old(Exact(rt, who))
      ensures Exact(rt, who)
    {
      SurvivorsKeepExact(old(rt.shared), old(rt.heap), rt.shared, rt.heap, rt.excess, who);
    }
    forall who | old(Accounted(rt, who))
      ensures Accounted(rt, who)
    {
      assert old(Exact(rt, who)) && old(Referenced(rt.heap, {}, who));
      assert Exact(rt, who) && Referenced(rt.heap, {}, who);
    }
  }

  method PerformFork(rt: CoojaRuntime, running: LoaderId, child: LoaderId)
    requires rt.Valid() && rt.AllLive(running) && Permitted(rt, running, Fork(child))
    modifies rt
    ensures rt.libs == old(rt.libs)
    ensures rt.Valid() && rt.AllLive(running)
    ensures StepAgrees(rt.libs, running, Fork(child), old(Now(rt)), Now(rt))
    ensures HandsOut(old(rt.clients), rt.clients, running, Fork(child))
    ensures old(AllReferenced(rt.heap, {})) ==> AllReferenced(rt.heap, {})
    ensures forall who | old(Exact(rt, who)) && who != child :: Exact(rt, who)
    ensures forall who | old(Accounted(rt, who)) && who != child :: Accounted(rt, who)
  {
    rt.Clone(running, child);
    ForkAgrees(rt.libs, old(rt.lists), old(Now(rt)), rt.lists, Now(rt), running, child);
    ForkKeepsLive(rt.libs, old(rt.lists), old(Now(rt)), rt.lists, Now(rt), running, child);
    if old(AllReferenced(rt.heap, {})) {
      ForkKeepsReferenced(rt.libs, old(rt.lists), old(Now(rt)), old(rt.clients), old(rt.excess), rt.lists, Now(rt),
                          rt.clients, rt.excess, running, child);
    }
    forall who | old(Exact(rt, who)) && who != child
      ensures Exact(rt, who)
    {
      ForkKeepsExact(rt.libs, old(rt.lists), old(Now(rt)), old(rt.excess), rt.lists, Now(rt), rt.excess, running,
                     child, who);
    }
    forall who | old(Referenced(rt.heap, {}, who)) && who != child
      ensures Referenced(rt.heap, {}, who)
    {
      ForkKeepsOthers(rt.libs, old(rt.lists), old(Now(rt)), rt.lists, Now(rt), running, child, who);
    }
    forall who | old(Accounted(rt, who)) && who != child
      ensures Accounted(rt, who)
    {
      assert old(Exact(rt, who)) && old(Referenced(rt.heap, {}, who));
      assert Exact(rt, who) && Referenced(rt.heap, {}, who);
    }
  }

  method PerformExit(rt: CoojaRuntime, running: LoaderId, gone: LoaderId)
    requires rt.Valid() && rt.AllLive(running) && Permitted(rt, running, Exit(gone))
    modifies rt
    ensures rt.libs == old(rt.libs)
    ensures rt.Valid() && rt.AllLive(running)
    ensures StepAgrees(rt.libs, running, Exit(gone), old(Now(rt)), Now(rt))
    ensures HandsOut(old(rt.clients), rt.clients, running, Exit(gone))
    ensures old(AllReferenced(rt.heap, {})) ==> AllReferenced(rt.heap, {})
    ensures forall who | old(Exact(rt, who)) :: Exact(rt, who)
    ensures forall who | old(Accounted(rt, who)) :: Accounted(rt, who)
  {
    rt.UnloadAll(gone);
    ExitAgrees(rt.libs, old(rt.lists), old(Now(rt)), rt.lists, Now(rt), running, gone);
    ExitKeepsLive(rt.libs, old(rt.lists), old(Now(rt)), rt.lists, Now(rt), running, gone);
    ExitKeepsReferenced(old(Now(rt)), Now(rt), gone);
    forall who | old(Exact(rt, who))
      ensures Exact(rt, who)
    {
      SurvivorsKeepExact(old(rt.shared), old(rt.heap), rt.shared, rt.heap, rt.excess, who);
    }
    forall who | old(Accounted(rt, who))
      ensures Accounted(rt, who)
    {
      assert old(Exact(rt, who)) && old(Referenced(rt.heap, {}, who));
      assert Exact(rt, who) && Referenced(rt.heap, {}, who);
    }
  }

  method PerformWrite(rt: CoojaRuntime, running: LoaderId, x: LibId, section: Section)
    requires rt.Valid() && rt.AllLive(running) && Permitted(rt, running, Write(x, section))
    modifies rt
    ensures rt.libs == old(rt.libs)
    ensures rt.Valid() && rt.AllLive(running)
    ensures StepAgrees(rt.libs, running, Write(x, section), old(Now(rt)), Now(rt))
    ensures HandsOut(old(rt.clients), rt.clients, running, Write(x, section))
    ensures rt.heap == old(rt.heap) && rt.excess == old(rt.excess)
  {
    ghost var own :| own in rt.lists[running] && own in rt.heap && rt.heap[own].lib == x;
    assert ListShaped(rt.lists, rt.heap, running);
    rt.Write(x, section);
    WriteAgrees(rt.libs, rt.lists, old(Now(rt)), Now(rt), running, x, section, own);
  }

  /** A copy's surplus is what its original had in references from other modules, because
      the copying of the modules that hold them counts those references again. */
  lemma CopySurplus(libs: map<LibId, Library>, l0: Lists, h0: Heap, clients0: Clients, e0: map<ModulePtr, nat>,
                    lists: Lists, excess: map<ModulePtr, nat>, parent: LoaderId, child: LoaderId, j: nat)
    requires ModulesOk(libs, l0, h0, clients0, e0, multiset{})
    requires parent in l0 && j < |l0[parent]| && child in lists && |lists[child]| == |l0[parent]|
    requires Inherits(l0, h0, clients0, lists, excess, parent, child)
    ensures var q, c := l0[parent][j], lists[child][j];
            && q in h0 && h0[q].owner == parent && q in e0 && c in excess
            && excess[c] == Incoming(Links(h0), q) + e0[q]
  {
    Listed(libs, l0, h0, clients0, e0, multiset{}, parent);
    assert InheritsAt(l0, h0, clients0, lists, excess, parent, child, j);
    assert ModuleCounted(h0, clients0, e0, multiset{}, l0[parent][j]);
  }

  /** References between modules stay within a process. */
  lemma EdgesStayInside(libs: map<LibId, Library>, lists: Lists, heap: Heap, who: LoaderId)
    requires ShapesOk(libs, lists, heap)
    ensures (forall p | p in heap && heap[p].owner == who :: heap[p].deps == []) <==>
            (forall q | q in heap && heap[q].owner == who :: Incoming(Links(heap), q) == 0)
  {
    if forall p | p in heap && heap[p].owner == who :: heap[p].deps == [] {
      forall q | q in heap && heap[q].owner == who
        ensures Incoming(Links(heap), q) == 0
      {
        assert InEdges(Links(heap), q) == {} by {
          forall p, i | p in heap && 0 <= i < |heap[p].deps|
            ensures heap[p].deps[i] != q
          {
            assert ModuleShaped(libs, lists, heap, p);
          }
        }
      }
    }
    if forall q | q in heap && heap[q].owner == who :: Incoming(Links(heap), q) == 0 {
      forall p | p in heap && heap[p].owner == who
        ensures heap[p].deps == []
      {
        assert ModuleShaped(libs, lists, heap, p);
        if heap[p].deps != [] {
          assert heap[p].deps[0] in Links(heap)[p];
          IncomingZero(Links(heap), heap[p].deps[0]);
        }
      }
    }
  }

  /** When a fork leaves the child's counts exact: just when the parent's were and none of
      its libraries depends on another one. */
  lemma ForkExactWhen(libs: map<LibId, Library>, l0: Lists, s: Snapshot, clients0: Clients, e0: map<ModulePtr, nat>,
                      l1: Lists, t: Snapshot, e1: map<ModulePtr, nat>, parent: LoaderId, child: LoaderId)
    requires ModulesOk(libs, l0, s.heap, clients0, e0, multiset{}) && StoreOk(libs, l1, t) && parent in l0
    requires ForkedTo(l0, s.shared, s.heap, l1, t.shared, t.heap, parent, child, |l0[parent]|)
    requires Inherits(l0, s.heap, clients0, l1, e1, parent, child)
    ensures ExactIn(t.heap, e1, child) <==>
            ExactIn(s.heap, e0, parent) && forall p | p in s.heap && s.heap[p].owner == parent :: s.heap[p].deps == []
  {
    EdgesStayInside(libs, l0, s.heap, parent);
    var edges := Links(s.heap);
    if ExactIn(t.heap, e1, child) {
      forall q | q in s.heap && s.heap[q].owner == parent
        ensures Incoming(edges, q) == 0 && q in e0 && e0[q] == 0
      {
        assert ModuleShaped(libs, l0, s.heap, q);
        var j: nat :| j < |l0[parent]| && l0[parent][j] == q;
        CopySurplus(libs, l0, s.heap, clients0, e0, l1, e1, parent, child, j);
        assert CopyAt(l0, s.shared, s.heap, l1, t.heap, parent, child, j);
      }
    }
    if ExactIn(s.heap, e0, parent) && forall q | q in s.heap && s.heap[q].owner == parent :: Incoming(edges, q) == 0 {
      forall c | c in t.heap && t.heap[c].owner == child
        ensures c in e1 && e1[c] == 0
      {
        assert ModuleShaped(libs, l1, t.heap, c);
        var j: nat :| j < |l1[child]| && l1[child][j] == c;
        CopySurplus(libs, l0, s.heap, clients0, e0, l1, e1, parent, child, j);
      }
    }
  }

  // ---------- nothing is kept for nobody ----------

  /** Every library that the load brings in is the last one or needed by another of the
      list.  The others may be on the list because of a file that is replaced. */
  ghost predicate Rooted(libs: map<LibId, Library>, lists: Lists, heap: Heap, who: LoaderId, order: seq<LibId>) {
    forall k | 0 <= k < |order| && !Loaded(lists, heap, who, order[k]) ::
      order[k] == order[|order| - 1] || NeededIn(libs, order, order[k])
  }

  ghost predicate NeededIn(libs: map<LibId, Library>, order: seq<LibId>, x: LibId) {
    exists m :: 0 <= m < |order| && order[m] in libs && x in libs[order[m]].deps
  }

  lemma IncomingGrows(s: Snapshot, t: Snapshot, q: ModulePtr)
    requires Extends(s.shared, s.heap, t.shared, t.heap)
    ensures Incoming(Links(s.heap), q) <= Incoming(Links(t.heap), q)
  {
    var a, b := InEdges(Links(s.heap), q), InEdges(Links(t.heap), q);
    forall e | e in a
      ensures e in b
    {
      assert Grew(s.shared, s.heap, t.shared, t.heap, e.0);
    }
    Subset(a, b);
  }

  lemma {:induction false} Subset<T>(a: set<T>, b: set<T>)
    requires a <= b
    ensures |a| <= |b|
  {
    if a != {} {
      var x :| x in a;
      Subset(a - {x}, b - {x});
    }
  }

  /** A module that another one depends on has a positive count. */
  lemma DependedOnIsReferenced(libs: map<LibId, Library>, lists: Lists, heap: Heap, clients: Clients,
                               excess: map<ModulePtr, nat>,
                               r: ModulePtr, q: ModulePtr)
    requires ModulesOk(libs, lists, heap, clients, excess, multiset{}) && r in heap && q in heap && q in heap[r].deps
    ensures heap[q].refcount > 0
  {
    assert ModuleCounted(heap, clients, excess, multiset{}, q);
    EdgeCounts(Links(heap), r, q);
  }

  lemma EdgeCounts(g: Graph, r: nat, q: nat)
    requires r in g && q in g[r]
    ensures Incoming(g, q) > 0
  {
    if Incoming(g, q) == 0 {
      IncomingZero(g, q);
    }
  }

  /** A load by a process of whose modules every one has a reference leaves it so if and only
      if everything it brings in is the last of the list or needed by another of the list. */
  lemma LoadKeepsReferenced(libs: map<LibId, Library>, l0: Lists, s: Snapshot, c0: Clients, e0: map<ModulePtr, nat>,
                            l1: Lists, t: Snapshot, c1: Clients, e1: map<ModulePtr, nat>, running: LoaderId,
                            order: seq<LibId>)
    requires StoreOk(libs, l0, s) && StoreOk(libs, l1, t) && |order| > 0
    requires ModulesOk(libs, l0, s.heap, c0, e0, multiset{}) && ModulesOk(libs, l1, t.heap, c1, e1, multiset{})
    requires Extends(s.shared, s.heap, t.shared, t.heap) && OnlyAppends(l0, l1, running)
             && NoNewSurplus(s.heap, e0, t.heap, e1)
    requires FreshFrom(libs, t.shared, t.heap, l1, running, |l0[running]|)
    requires NewAmong(t.heap, l1, running, |l0[running]|, order)
    requires forall k | 0 <= k < |order| :: Loaded(l1, t.heap, running, order[k])
    requires running in c0 && c1 == c0[running := c0[running] + multiset{order[|order| - 1]}]
    requires Referenced(s.heap, {}, running)
    ensures Referenced(t.heap, {}, running) <==> Rooted(libs, l0, s.heap, running, order)
  {
    hide StoreOk, ModulesOk, Extends, FreshFrom, NewAmong, Loaded, NoNewSurplus;
    if Rooted(libs, l0, s.heap, running, order) {
      forall q | q in t.heap && t.heap[q].owner == running
        ensures t.heap[q].refcount > 0
      {
        if q in s.heap {
          OldStaysReferenced(libs, l0, s, c0, e0, l1, t, c1, e1, running, order[|order| - 1], q);
        } else {
          NewIsReferenced(libs, l0, s, l1, t, c1, e1, running, order, q);
        }
      }
    }
    if Referenced(t.heap, {}, running) {
      forall k | 0 <= k < |order| && !Loaded(l0, s.heap, running, order[k])
        ensures order[k] == order[|order| - 1] || NeededIn(libs, order, order[k])
      {
        if order[k] != order[|order| - 1] && !NeededIn(libs, order, order[k]) {
          UnneededIsUnreferenced(libs, l0, s, c0, e0, l1, t, c1, e1, running, order, k);
        }
      }
    }
  }

  /** Nobody else's modules lose a reference. */
  lemma OthersStayReferenced(libs: map<LibId, Library>, l0: Lists, s: Snapshot, c0: Clients, e0: map<ModulePtr, nat>,
                             l1: Lists, t: Snapshot, c1: Clients, e1: map<ModulePtr, nat>, running: LoaderId,
                             order: seq<LibId>, who: LoaderId)
    requires StoreOk(libs, l0, s) && StoreOk(libs, l1, t) && |order| > 0
    requires ModulesOk(libs, l0, s.heap, c0, e0, multiset{}) && ModulesOk(libs, l1, t.heap, c1, e1, multiset{})
    requires Extends(s.shared, s.heap, t.shared, t.heap) && OnlyAppends(l0, l1, running)
             && NoNewSurplus(s.heap, e0, t.heap, e1)
    requires FreshFrom(libs, t.shared, t.heap, l1, running, |l0[running]|)
    requires NewAmong(t.heap, l1, running, |l0[running]|, order)
    requires running in c0 && c1 == c0[running := c0[running] + multiset{order[|order| - 1]}]
    requires who != running && Referenced(s.heap, {}, who)
    ensures Referenced(t.heap, {}, who)
  {
    hide StoreOk, ModulesOk, Extends, FreshFrom, NewAmong, NoNewSurplus;
    forall q | q in t.heap && t.heap[q].owner == who
      ensures t.heap[q].refcount > 0
    {
      if q in s.heap {
        OldStaysReferenced(libs, l0, s, c0, e0, l1, t, c1, e1, running, order[|order| - 1], q);
      } else {
        NewModuleFresh(libs, l0, s, l1, t, running, order, q);
      }
    }
  }

  /** Over all processes. */
  lemma LoadKeepsAllReferenced(libs: map<LibId, Library>, l0: Lists, s: Snapshot, c0: Clients,
                               e0: map<ModulePtr, nat>, l1: Lists, t: Snapshot, c1: Clients, e1: map<ModulePtr, nat>,
                               running: LoaderId, order: seq<LibId>)
    requires StoreOk(libs, l0, s) && StoreOk(libs, l1, t) && |order| > 0
    requires ModulesOk(libs, l0, s.heap, c0, e0, multiset{}) && ModulesOk(libs, l1, t.heap, c1, e1, multiset{})
    requires Extends(s.shared, s.heap, t.shared, t.heap) && OnlyAppends(l0, l1, running)
             && NoNewSurplus(s.heap, e0, t.heap, e1)
    requires FreshFrom(libs, t.shared, t.heap, l1, running, |l0[running]|)
    requires NewAmong(t.heap, l1, running, |l0[running]|, order)
    requires forall k | 0 <= k < |order| :: Loaded(l1, t.heap, running, order[k])
    requires running in c0 && c1 == c0[running := c0[running] + multiset{order[|order| - 1]}]
    ensures Referenced(s.heap, {}, running) ==>
              (Referenced(t.heap, {}, running) <==> Rooted(libs, l0, s.heap, running, order))
    ensures forall who | who != running && Referenced(s.heap, {}, who) :: Referenced(t.heap, {}, who)
    ensures AllReferenced(s.heap, {}) ==>
              (AllReferenced(t.heap, {}) <==> Rooted(libs, l0, s.heap, running, order))
  {
    hide StoreOk, ModulesOk, Extends, FreshFrom, NewAmong, Loaded, NoNewSurplus, Rooted, Referenced, AllReferenced;
    EverybodyReferenced(s.heap);
    EverybodyReferenced(t.heap);
    if Referenced(s.heap, {}, running) {
      LoadKeepsReferenced(libs, l0, s, c0, e0, l1, t, c1, e1, running, order);
    }
    forall who | who != running && Referenced(s.heap, {}, who)
      ensures Referenced(t.heap, {}, who)
    {
      OthersStayReferenced(libs, l0, s, c0, e0, l1, t, c1, e1, running, order, who);
    }
  }

  lemma OldStaysReferenced(libs: map<LibId, Library>, l0: Lists, s: Snapshot, c0: Clients, e0: map<ModulePtr, nat>,
                           l1: Lists, t: Snapshot, c1: Clients, e1: map<ModulePtr, nat>, running: LoaderId, x: LibId,
                           q: ModulePtr)
    requires ModulesOk(libs, l0, s.heap, c0, e0, multiset{}) && ModulesOk(libs, l1, t.heap, c1, e1, multiset{})
    requires Extends(s.shared, s.heap, t.shared, t.heap) && NoNewSurplus(s.heap, e0, t.heap, e1)
    requires running in c0 && c1 == c0[running := c0[running] + multiset{x}]
    requires q in s.heap && q in t.heap
    ensures t.heap[q].refcount >= s.heap[q].refcount && t.heap[q].owner == s.heap[q].owner
  {
    assert Grew(s.shared, s.heap, t.shared, t.heap, q);
    assert ModuleCounted(s.heap, c0, e0, multiset{}, q) && ModuleCounted(t.heap, c1, e1, multiset{}, q);
    IncomingGrows(s, t, q);
  }

  lemma NewIsReferenced(libs: map<LibId, Library>, l0: Lists, s: Snapshot, l1: Lists, t: Snapshot, c1: Clients,
                        e1: map<ModulePtr, nat>,
                        running: LoaderId, order: seq<LibId>, q: ModulePtr)
    requires StoreOk(libs, l0, s) && StoreOk(libs, l1, t) && |order| > 0 && Rooted(libs, l0, s.heap, running, order)
    requires ModulesOk(libs, l1, t.heap, c1, e1, multiset{})
    requires Extends(s.shared, s.heap, t.shared, t.heap) && OnlyAppends(l0, l1, running)
    requires FreshFrom(libs, t.shared, t.heap, l1, running, |l0[running]|)
    requires NewAmong(t.heap, l1, running, |l0[running]|, order)
    requires forall k | 0 <= k < |order| :: Loaded(l1, t.heap, running, order[k])
    requires running in c1 && order[|order| - 1] in c1[running]
    requires q in t.heap && q !in s.heap
    ensures t.heap[q].refcount > 0
  {
    NewModuleFresh(libs, l0, s, l1, t, running, order, q);
    NewWasNotLoaded(libs, l0, s, l1, t, running, q);
    var x := t.heap[q].lib;
    if x == order[|order| - 1] {
      assert ModuleCounted(t.heap, c1, e1, multiset{}, q);
    } else {
      assert NeededIn(libs, order, x);
      var m :| 0 <= m < |order| && order[m] in libs && x in libs[order[m]].deps;
      assert Loaded(l1, t.heap, running, order[m]);
      var r :| r in l1[running] && r in t.heap && t.heap[r].lib == order[m];
      assert ListShaped(l1, t.heap, running) && ModuleShaped(libs, l1, t.heap, r);
      var i :| 0 <= i < |libs[order[m]].deps| && libs[order[m]].deps[i] == x;
      SameOwnerSameLib(libs, l1, t.heap, t.heap[r].deps[i], q);
      assert q in t.heap[r].deps;
      DependedOnIsReferenced(libs, l1, t.heap, c1, e1, r, q);
    }
  }

  lemma NewWasNotLoaded(libs: map<LibId, Library>, l0: Lists, s: Snapshot, l1: Lists, t: Snapshot, running: LoaderId,
                        q: ModulePtr)
    requires StoreOk(libs, l0, s) && StoreOk(libs, l1, t) && Extends(s.shared, s.heap, t.shared, t.heap)
    requires q in t.heap && q !in s.heap && t.heap[q].owner == running
    ensures !Loaded(l0, s.heap, running, t.heap[q].lib)
  {
    if Loaded(l0, s.heap, running, t.heap[q].lib) {
      var p :| p in l0[running] && p in s.heap && s.heap[p].lib == t.heap[q].lib;
      assert ListShaped(l0, s.heap, running) && Grew(s.shared, s.heap, t.shared, t.heap, p);
      SameOwnerSameLib(libs, l1, t.heap, p, q);
    }
  }

  /** A library that the load brings in for nothing has a module with a count of zero. */
  lemma UnneededIsUnreferenced(libs: map<LibId, Library>, l0: Lists, s: Snapshot, c0: Clients, e0: map<ModulePtr, nat>,
                               l1: Lists, t: Snapshot, c1: Clients, e1: map<ModulePtr, nat>, running: LoaderId,
                               order: seq<LibId>, k: nat)
    requires StoreOk(libs, l0, s) && StoreOk(libs, l1, t) && k < |order|
    requires ModulesOk(libs, l0, s.heap, c0, e0, multiset{}) && ModulesOk(libs, l1, t.heap, c1, e1, multiset{})
    requires Extends(s.shared, s.heap, t.shared, t.heap) && OnlyAppends(l0, l1, running)
             && NoNewSurplus(s.heap, e0, t.heap, e1)
    requires FreshFrom(libs, t.shared, t.heap, l1, running, |l0[running]|)
    requires NewAmong(t.heap, l1, running, |l0[running]|, order)
    requires Loaded(l1, t.heap, running, order[k]) && !Loaded(l0, s.heap, running, order[k])
    requires running in c0 && c1 == c0[running := c0[running] + multiset{order[|order| - 1]}]
    requires order[k] != order[|order| - 1] && !NeededIn(libs, order, order[k])
    ensures exists q :: OwnModule(t.heap, running, order[k], q) && t.heap[q].refcount == 0
  {
    var x := order[k];
    var q :| q in l1[running] && q in t.heap && t.heap[q].lib == x;
    assert ListShaped(l1, t.heap, running);
    OldWasLoaded(libs, l0, s, t, q);
    forall r, i | r in t.heap && 0 <= i < |t.heap[r].deps|
      ensures t.heap[r].deps[i] != q
    {
      OldOrNeeded(libs, l0, s, l1, t, running, order, r, i);
    }
    assert InEdges(Links(t.heap), q) == {};
    assert x !in c0[running] by {
      assert ClientsOk(l0, s.heap, c0);
    }
    assert ModuleCounted(t.heap, c1, e1, multiset{}, q);
    assert OwnModule(t.heap, running, x, q);
  }

  lemma OldWasLoaded(libs: map<LibId, Library>, l0: Lists, s: Snapshot, t: Snapshot, q: ModulePtr)
    requires StoreOk(libs, l0, s) && Extends(s.shared, s.heap, t.shared, t.heap) && q in t.heap
    ensures q in s.heap ==> Loaded(l0, s.heap, t.heap[q].owner, t.heap[q].lib)
  {
    if q in s.heap {
      assert Grew(s.shared, s.heap, t.shared, t.heap, q) && ModuleShaped(libs, l0, s.heap, q);
    }
  }

  /** What a module depends on after the load was there before or is needed by the list. */
  lemma OldOrNeeded(libs: map<LibId, Library>, l0: Lists, s: Snapshot, l1: Lists, t: Snapshot, running: LoaderId,
                    order: seq<LibId>, r: ModulePtr, i: nat)
    requires StoreOk(libs, l0, s) && StoreOk(libs, l1, t)
    requires Extends(s.shared, s.heap, t.shared, t.heap) && OnlyAppends(l0, l1, running)
    requires FreshFrom(libs, t.shared, t.heap, l1, running, |l0[running]|)
    requires NewAmong(t.heap, l1, running, |l0[running]|, order)
    requires r in t.heap && i < |t.heap[r].deps|
    ensures var d := t.heap[r].deps[i]; d in t.heap && (d in s.heap || NeededIn(libs, order, t.heap[d].lib))
  {
    assert ModuleShaped(libs, l1, t.heap, r);
    if r in s.heap {
      assert ModuleShaped(libs, l0, s.heap, r) && Grew(s.shared, s.heap, t.shared, t.heap, r);
    } else {
      NewModuleFresh(libs, l0, s, l1, t, running, order, r);
      var m :| 0 <= m < |order| && order[m] == t.heap[r].lib;
      assert t.heap[t.heap[r].deps[i]].lib in libs[order[m]].deps;
    }
  }

  lemma ForkKeepsReferenced(libs: map<LibId, Library>, l0: Lists, s: Snapshot, c0: Clients, e0: map<ModulePtr, nat>,
                            l1: Lists, t: Snapshot, c1: Clients, e1: map<ModulePtr, nat>, parent: LoaderId,
                            child: LoaderId)
    requires ModulesOk(libs, l1, t.heap, c1, e1, multiset{}) && parent in l0 && parent in c0
    requires ForkedTo(l0, s.shared, s.heap, l1, t.shared, t.heap, parent, child, |l0[parent]|)
    requires Inherits(l0, s.heap, c0, l1, e1, parent, child) && c1 == c0[child := c0[parent]]
    requires AllReferenced(s.heap, {})
    ensures AllReferenced(t.heap, {})
  {
    forall q | q in t.heap
      ensures t.heap[q].refcount > 0
    {
      assert KeptAt(s.heap, t.heap, child, q);
      if q !in s.heap {
        var j: nat :| j < |l1[child]| && l1[child][j] == q;
        assert CopyAt(l0, s.shared, s.heap, l1, t.heap, parent, child, j);
        assert InheritsAt(l0, s.heap, c0, l1, e1, parent, child, j);
        assert ModuleCounted(t.heap, c1, e1, multiset{}, q);
        assert s.heap[l0[parent][j]].refcount > 0;
      }
    }
  }

  lemma ExitKeepsReferenced(s: Snapshot, t: Snapshot, gone: LoaderId)
    requires Evicted(s.shared, s.heap, t.shared, t.heap, gone) && forall q | q in t.heap :: t.heap[q].owner != gone
    ensures AllReferenced(s.heap, {}) ==> AllReferenced(t.heap, {})
    ensures forall who | Referenced(s.heap, {}, who) :: Referenced(t.heap, {}, who)
  {
    forall q | q in t.heap
      ensures q in s.heap && t.heap[q] == s.heap[q]
    {
      assert Survives(s.shared, s.heap, t.shared, t.heap, q) && Spared(s.heap, t.heap, gone, q);
    }
  }

  /** A process with exact counts, none of its modules without a reference, keeps no module
      when it has given back every reference it was handed. */
  lemma NothingLeaks(libs: map<LibId, Library>, lists: Lists, heap: Heap, clients: Clients,
                     excess: map<ModulePtr, nat>, who: LoaderId)
    requires ModulesOk(libs, lists, heap, clients, excess, multiset{}) && AccountedIn(heap, excess, who)
    requires who in lists && who in clients && clients[who] == multiset{}
    ensures lists[who] == []
  {
    if lists[who] != [] {
      var p := lists[who][|lists[who]| - 1];
      assert ListShaped(lists, heap, who);
      assert ModuleCounted(heap, clients, excess, multiset{}, p);
      LastIsNotNeeded(libs, lists, heap, who);
    }
  }

  lemma LastIsNotNeeded(libs: map<LibId, Library>, lists: Lists, heap: Heap, who: LoaderId)
    requires ShapesOk(libs, lists, heap) && who in lists && lists[who] != []
    ensures Incoming(Links(heap), lists[who][|lists[who]| - 1]) == 0
  {
    var p := lists[who][|lists[who]| - 1];
    forall r, i | r in heap && 0 <= i < |heap[r].deps|
      ensures heap[r].deps[i] != p
    {
      NotItsLast(libs, lists, heap, who, r, i);
    }
    assert InEdges(Links(heap), p) == {};
  }

  lemma NotItsLast(libs: map<LibId, Library>, lists: Lists, heap: Heap, who: LoaderId, r: ModulePtr, i: nat)
    requires ShapesOk(libs, lists, heap) && who in lists && lists[who] != []
    requires r in heap && i < |heap[r].deps|
    ensures heap[r].deps[i] != lists[who][|lists[who]| - 1]
  {
    assert ModuleShaped(libs, lists, heap, r);
    var owner := heap[r].owner;
    assert ListShaped(lists, heap, owner) && ListShaped(lists, heap, who);
    var j: nat :| j < |lists[owner]| && lists[owner][j] == r;
    var d := heap[r].deps[i];
    assert d in lists[owner][..j];
    var k: nat :| k < j && lists[owner][..j][k] == d;
    var n := |lists[who]| - 1;
    if owner == who {
      assert heap[lists[who][k]].lib != heap[lists[who][n]].lib;
    } else {
      assert heap[lists[who][n]].owner == who;
    }
  }

  /** When no process has a module, no library stays in the address space. */
  lemma NothingShared(libs: map<LibId, Library>, shared: SharedMap)
    requires SharedOk(libs, shared, map[], multiset{}) && InUse(shared)
    ensures shared == map[]
  {
    if shared.Keys != {} {
      var x := Greatest(shared.Keys);
      assert SharedCounted(shared, map[], multiset{}, x);
      GreatestIsUnused(libs, shared, x);
    }
  }

  lemma GreatestIsUnused(libs: map<LibId, Library>, shared: SharedMap, x: LibId)
    requires SharedOk(libs, shared, map[], multiset{}) && forall y | y in shared :: y <= x
    ensures Users(map[], x) == 0 && Incoming(SharedGraph(shared), x) == 0
  {
    forall y, i | y in shared && 0 <= i < |shared[y].deps|
      ensures shared[y].deps[i] != x
    {
      assert SharedShaped(libs, shared, map[], y) && RankedAt(libs, y);
    }
    assert UserSet(map[], x) == {} && InEdges(SharedGraph(shared), x) == {};
  }

  lemma {:induction false} Greatest(keys: set<LibId>) returns (x: LibId)
    requires keys != {}
    ensures x in keys && forall y | y in keys :: y <= x
  {
    x :| x in keys;
    if keys != {x} {
      var z := Greatest(keys - {x});
      forall y | y in keys
        ensures y <= if x < z then z else x
      {
        assert y != x ==> y in keys - {x};
      }
      x := if x < z then z else x;
    }
  }

  method PerformSwitch(rt: CoojaRuntime, running: LoaderId, to: LoaderId)
    requires rt.Valid() && to in rt.lists
    modifies rt
    ensures rt.libs == old(rt.libs)
    ensures rt.Valid() && rt.AllLive(to)
    ensures StepAgrees(rt.libs, running, Switch(to), old(Now(rt)), Now(rt))
    ensures HandsOut(old(rt.clients), rt.clients, running, Switch(to))
    ensures old(AllReferenced(rt.heap, {})) ==> AllReferenced(rt.heap, {})
    ensures forall who | old(Exact(rt, who)) :: Exact(rt, who)
    ensures forall who | old(Accounted(rt, who)) :: Accounted(rt, who)
  {
    rt.NotifyStartExecute(to);
    SwitchAgrees(rt.libs, rt.lists, old(Now(rt)), Now(rt), running, to);
  }

  method PerformStart(rt: CoojaRuntime, running: LoaderId, who: LoaderId)
    requires rt.Valid() && rt.AllLive(running) && Permitted(rt, running, Start(who))
    modifies rt
    ensures rt.Valid() && rt.AllLive(running) && rt.libs == old(rt.libs)
    ensures StepAgrees(rt.libs, running, Start(who), old(Now(rt)), Now(rt))
    ensures HandsOut(old(rt.clients), rt.clients, running, Start(who))
    ensures rt.heap == old(rt.heap) && rt.excess == old(rt.excess)
  {
    rt.Start(who);
  }

  ghost predicate SameStore(lists: Lists, shared: SharedMap, heap: Heap, rt: CoojaRuntime)
    reads rt
  {
    rt.lists == lists && rt.shared == shared && rt.heap == heap
  }

  method PerformEdit(rt: CoojaRuntime, running: LoaderId, more: map<LibId, Library>)
    requires rt.Valid() && rt.AllLive(running) && Permitted(rt, running, Edit(more))
    modifies rt
    ensures rt.Valid() && rt.AllLive(running) && rt.libs == more
    ensures StepAgrees(rt.libs, running, Edit(more), old(Now(rt)), Now(rt))
    ensures HandsOut(old(rt.clients), rt.clients, running, Edit(more))
    ensures SameStore(old(rt.lists), old(rt.shared), old(rt.heap), rt) && rt.excess == old(rt.excess)
  {
    rt.Learn(more);
  }

  /** The real loader is a run of the simple picture.  Whatever the running process does,
      with its variables in place when it starts, everybody reads what the simple picture
      says, the store stays consistent, and whoever runs next finds its variables in
      place.  Only a fork makes counts inexact, and only those of the child.  Modules
      without a reference come from loads that are not rooted and from nowhere else. */
  method Perform(rt: CoojaRuntime, running: LoaderId, a: Action)
    requires rt.Valid() && rt.AllLive(running) && Permitted(rt, running, a)
    modifies rt
    ensures rt.libs == (if a.Edit? then a.more else old(rt.libs)) && Known(rt.libs, a)
    ensures rt.Valid() && rt.AllLive(NextRunner(running, a))
    ensures StepAgrees(rt.libs, running, a, old(Now(rt)), Now(rt))
    ensures HandsOut(old(rt.clients), rt.clients, running, a)
    ensures forall who | old(Exact(rt, who)) && a != Fork(who) :: Exact(rt, who)
    ensures forall who | old(Accounted(rt, who)) && a != Fork(who)
                         && (a.Load? && who == running ==>
                               old(Rooted(rt.libs, rt.lists, rt.heap, running, a.order))) ::
              Accounted(rt, who)
    ensures old(AllReferenced(rt.heap, {})) ==>
              (AllReferenced(rt.heap, {}) <==>
               (a.Load? ==> old(Rooted(rt.libs, rt.lists, rt.heap, running, a.order))))
    ensures a.Unload? && old(AllReferenced(rt.heap, {})) ==> HasWhatIsWanted(rt)
    ensures a.Load? ==> LoadedAs(rt, running, a.order) && OnlyAppends(old(rt.lists), rt.lists, running)
    ensures a.Load? ==> Extends(old(rt.shared), old(rt.heap), rt.shared, rt.heap)
    ensures a.Edit? ==> SameStore(old(rt.lists), old(rt.shared), old(rt.heap), rt)
  {
    hide SharedOk, ModulesOk, InUse, IsLive, Loaded, Loadable, StepAgrees, ExactIn, AccountedIn, AllReferenced, Rooted,
         HasWhatIsWanted, Extends, OnlyAppends, LoadedAs, HandsOut;
    match a {
      case Switch(to) => PerformSwitch(rt, running, to);
      case Write(x, section) => PerformWrite(rt, running, x, section);
      case Load(order) => PerformLoad(rt, running, order);
      case Unload(x) => PerformUnload(rt, running, x);
      case Fork(child) => PerformFork(rt, running, child);
      case Exit(gone) => PerformExit(rt, running, gone);
      case Start(who) => PerformStart(rt, running, who);
      case Edit(more) => PerformEdit(rt, running, more);
    }
  }

  /** The same from the middle of a run on. */
  lemma IsolationFrom(libs: map<LibId, Library>, events: seq<Event>, states: seq<Snapshot>, n: nat, who: LoaderId,
                      x: LibId)
    requires IsRun(libs, events, states) && n <= |events|
    requires forall i | n <= i < |events| :: Foreign(events[i], who)
    ensures Reads(states[|events|], who, x) == Reads(states[n], who, x)
  {
    var rest, ends := events[n..], states[n..];
    forall i | 0 <= i < |rest|
      ensures Known(libs, rest[i].action)
      ensures StepAgrees(libs, rest[i].running, rest[i].action, ends[i], ends[i + 1])
    {
      assert rest[i] == events[n + i];
    }
    forall i | 0 <= i < |rest|
      ensures Foreign(rest[i], who)
    {
      assert rest[i] == events[n + i];
    }
    Isolation(libs, rest, ends, who, x);
  }

  lemma RunGrows(libs: map<LibId, Library>, more: map<LibId, Library>, events: seq<Event>, states: seq<Snapshot>,
                 e: Event, t: Snapshot)
    requires IsRun(libs, events, states) && Grows(libs, more)
    requires StepAgrees(more, e.running, e.action, states[|events|], t) && Known(more, e.action)
    ensures IsRun(more, events + [e], states + [t])
  {
    RunLater(libs, more, events, states);
    var events', states' := events + [e], states + [t];
    forall i | 0 <= i < |events'|
      ensures Known(more, events'[i].action)
      ensures StepAgrees(more, events'[i].running, events'[i].action, states'[i], states'[i + 1])
    {
      if i < |events| {
        assert events'[i] == events[i];
      }
    }
  }

  // ---------- the accounts over whole runs ----------

  ghost predicate Owns(heap: Heap, who: LoaderId, x: LibId) {
    exists p :: OwnModule(heap, who, x, p)
  }

  lemma LoadedIsHad(libs: map<LibId, Library>, lists: Lists, heap: Heap, who: LoaderId, x: LibId)
    requires ShapesOk(libs, lists, heap)
    ensures Loaded(lists, heap, who, x) <==> Owns(heap, who, x)
  {
    if Loaded(lists, heap, who, x) {
      var p :| p in lists[who] && p in heap && heap[p].lib == x;
      assert ListShaped(lists, heap, who);
      assert OwnModule(heap, who, x, p);
    }
    if Owns(heap, who, x) {
      var p :| OwnModule(heap, who, x, p);
      assert ModuleShaped(libs, lists, heap, p);
    }
  }

  /** The load brings in nothing but what the last of the list leads to. */
  ghost predicate RootedIn(libs: map<LibId, Library>, heap: Heap, who: LoaderId, order: seq<LibId>) {
    forall k | 0 <= k < |order| && !Owns(heap, who, order[k]) ::
      order[k] == order[|order| - 1] || NeededIn(libs, order, order[k])
  }

  lemma RootedInStore(libs: map<LibId, Library>, lists: Lists, heap: Heap, who: LoaderId, order: seq<LibId>)
    requires ShapesOk(libs, lists, heap)
    ensures Rooted(libs, lists, heap, who, order) <==> RootedIn(libs, heap, who, order)
  {
    hide Loaded, Owns, ShapesOk, NeededIn;
    forall k | 0 <= k < |order|
      ensures Loaded(lists, heap, who, order[k]) <==> Owns(heap, who, order[k])
    {
      LoadedIsHad(libs, lists, heap, who, order[k]);
    }
  }

  /** The step does not make `who` the child of a fork, and if it is a load by `who`, it is
      rooted. */
  ghost predicate Orderly(libs: map<LibId, Library>, e: Event, s: Snapshot, who: LoaderId) {
    && e.action != Fork(who)
    && (e.running == who && e.action.Load? ==> RootedIn(libs, s.heap, who, e.action.order))
  }

  ghost predicate AllOrderly(libs: map<LibId, Library>, events: seq<Event>, states: seq<Snapshot>, who: LoaderId) {
    && |events| <= |states|
    && forall i {:trigger events[i]} | 0 <= i < |events| :: Orderly(libs, events[i], states[i], who)
  }

  lemma OrderlyEarlier(libs: map<LibId, Library>, more: map<LibId, Library>, e: Event, s: Snapshot, who: LoaderId)
    requires Orderly(more, e, s, who) && Known(libs, e.action) && Grows(libs, more)
    ensures Orderly(libs, e, s, who)
  {
    if e.running == who && e.action.Load? {
      var order := e.action.order;
      forall k | 0 <= k < |order| && !Owns(s.heap, who, order[k]) && order[k] != order[|order| - 1]
        ensures NeededIn(libs, order, order[k])
      {
        var m :| 0 <= m < |order| && order[m] in more && order[k] in more[order[m]].deps;
        assert order[m] in order;
      }
    }
  }

  /** What was orderly with one more event was so before. */
  lemma OrderlyBefore(libs: map<LibId, Library>, more: map<LibId, Library>, events: seq<Event>, states: seq<Snapshot>,
                      e: Event, t: Snapshot, who: LoaderId)
    requires IsRun(libs, events, states) && Grows(libs, more)
    requires AllOrderly(more, events + [e], states + [t], who)
    ensures AllOrderly(libs, events, states, who) && Orderly(more, e, states[|events|], who)
  {
    hide Orderly, Known, StepAgrees;
    var events', states' := events + [e], states + [t];
    forall i | 0 <= i < |events|
      ensures Orderly(libs, events[i], states[i], who)
    {
      assert events'[i] == events[i] && states'[i] == states[i];
      OrderlyEarlier(libs, more, events[i], states[i], who);
    }
    assert events'[|events|] == e;
  }

  /** Whoever has been orderly all along has its accounts in order. */
  ghost predicate AccountsKept(libs: map<LibId, Library>, events: seq<Event>, states: seq<Snapshot>,
                               excess: map<ModulePtr, nat>) {
    |states| == |events| + 1
    && forall who | AllOrderly(libs, events, states, who) :: AccountedIn(states[|events|].heap, excess, who)
  }

  lemma AccountsAreKept(libs: map<LibId, Library>, events: seq<Event>, states: seq<Snapshot>,
                        excess: map<ModulePtr, nat>, who: LoaderId)
    requires AccountsKept(libs, events, states, excess) && AllOrderly(libs, events, states, who)
    ensures |events| < |states| && AccountedIn(states[|events|].heap, excess, who)
  {
  }

  lemma OrderlyMeans(libs: map<LibId, Library>, e: Event, s: Snapshot, who: LoaderId)
    requires Orderly(libs, e, s, who)
    ensures e.action != Fork(who)
    ensures e.running == who && e.action.Load? ==> RootedIn(libs, s.heap, who, e.action.order)
  {
  }

  lemma RootedNow(rt: CoojaRuntime, running: LoaderId, a: Action)
    requires rt.Valid()
    ensures a.Load? ==>
              (Rooted(rt.libs, rt.lists, rt.heap, running, a.order) <==> RootedIn(rt.libs, rt.heap, running, a.order))
  {
    if a.Load? {
      hide Rooted, RootedIn;
      RootedInStore(rt.libs, rt.lists, rt.heap, running, a.order);
    }
  }

  lemma AccountsStart(libs: map<LibId, Library>, s: Snapshot, excess: map<ModulePtr, nat>)
    requires s.heap == map[]
    ensures AccountsKept(libs, [], [s], excess)
  {
  }

  /** A loader at work from its first process on, with a record of what has happened. */
  class Session {
    const rt: CoojaRuntime
    var running: LoaderId
    ghost var events: seq<Event>
    ghost var states: seq<Snapshot>

    /** What has happened is a run of the simple picture, and leads to what is now. */
    ghost predicate Valid()
      reads this, rt
    {
      && rt.Valid() && rt.AllLive(running)
      && IsRun(rt.libs, events, states) && states[|events|] == Now(rt)
      && AccountsKept(rt.libs, events, states, rt.excess)
    }

    constructor (first: LoaderId)
      ensures Valid() && fresh(rt) && events == [] && running == first
      ensures rt.lists == map[first := []] && rt.libs == map[] && rt.heap == map[] && rt.shared == map[]
      ensures rt.clients == map[first := multiset{}]
    {
      var loader := new CoojaRuntime(map[]);
      loader.Start(first);
      rt, running := loader, first;
      events, states := [], [Snapshot(loader.shared, loader.heap)];
      AccountsStart(loader.libs, Snapshot(loader.shared, loader.heap), loader.excess);
    }

    /** One more action of whoever runs. */
    method Do(a: Action)
      requires Valid() && Permitted(rt, running, a)
      modifies this`running, this`events, this`states, rt
      ensures Valid() && running == NextRunner(old(running), a)
      ensures rt.libs == if a.Edit? then a.more else old(rt.libs)
      ensures events == old(events) + [Event(old(running), a)] && states == old(states) + [Now(rt)]
      ensures StepAgrees(rt.libs, old(running), a, old(Now(rt)), Now(rt))
      ensures HandsOut(old(rt.clients), rt.clients, old(running), a)
      ensures old(AllReferenced(rt.heap, {})) ==>
                (AllReferenced(rt.heap, {}) <==>
                 (a.Load? ==> old(Rooted(rt.libs, rt.lists, rt.heap, running, a.order))))
      ensures forall who | old(Exact(rt, who)) && a != Fork(who) :: Exact(rt, who)
      ensures a.Unload? && old(AllReferenced(rt.heap, {})) ==> HasWhatIsWanted(rt)
      ensures a.Load? ==> LoadedAs(rt, running, a.order) && OnlyAppends(old(rt.lists), rt.lists, running)
      ensures a.Load? ==> Extends(old(rt.shared), old(rt.heap), rt.shared, rt.heap)
      ensures a.Edit? ==> SameStore(old(rt.lists), old(rt.shared), old(rt.heap), rt)
    {
      hide IsRun, StepAgrees, Permitted, SharedOk, ModulesOk, InUse, Known, AllReferenced, Rooted, Extends,
           OnlyAppends, LoadedAs, ExactIn, HandsOut, HasWhatIsWanted;
      LibrariesGrow(rt, running, a);
      ghost var libs, s, excess := rt.libs, Now(rt), rt.excess;
      RootedNow(rt, running, a);
      Perform(rt, running, a);
      RunGrows(libs, rt.libs, events, states, Event(running, a), Now(rt));
      RunLength(libs, events, states);
      forall who | AllOrderly(rt.libs, events + [Event(running, a)], states + [Now(rt)], who)
        ensures Accounted(rt, who)
      {
        OrderlyBefore(libs, rt.libs, events, states, Event(running, a), Now(rt), who);
        AccountsAreKept(libs, events, states, excess, who);
        OrderlyMeans(rt.libs, Event(running, a), s, who);
      }
      events, states := events + [Event(running, a)], states + [Now(rt)];
      running := NextRunner(running, a);
    }

    /** A process that never descended from a fork, and whose loads were all rooted, keeps no
        module when it has given back every reference it was handed. */
    lemma NothingStays(who: LoaderId)
      requires Valid() && AllOrderly(rt.libs, events, states, who)
      requires who in rt.lists && who in rt.clients && rt.clients[who] == multiset{}
      ensures rt.lists[who] == []
    {
      hide SharedOk, ModulesOk, InUse, IsRun, AllOrderly, AccountedIn, IsLive;
      AccountsAreKept(rt.libs, events, states, rt.excess, who);
      NothingLeaks(rt.libs, rt.lists, rt.heap, rt.clients, rt.excess, who);
    }

    /** A process finds its variables as it left them, whatever has happened since. */
    lemma Undisturbed(n: nat, who: LoaderId, x: LibId)
      requires Valid() && n <= |events| && forall i | n <= i < |events| :: Foreign(events[i], who)
      ensures n < |states| && Reads(Now(rt), who, x) == Reads(states[n], who, x)
    {
      IsolationFrom(rt.libs, events, states, n, who, x);
    }
  }

  // ---------- what goes wrong ----------

  /** Libraries 1 and 2, the second with or without a dependency on the first. */
  function TwoLibraries(deps: seq<LibId>): map<LibId, Library> {
    map[1 := Library(Section([]), []), 2 := Library(Section([]), deps)]
  }

  lemma TwoLoadable(deps: seq<LibId>, lists: Lists, heap: Heap)
    requires deps == [] || deps == [1]
    ensures Ranked(TwoLibraries(deps)) && Loadable(TwoLibraries(deps), lists, heap, 0, [1, 2])
    ensures deps == [] ==> !NeededIn(TwoLibraries(deps), [1, 2], 1)
  {
    assert [1, 2][..1] == [1];
    assert LoadableAt(TwoLibraries(deps), lists, heap, 0, [1, 2], 0);
    assert LoadableAt(TwoLibraries(deps), lists, heap, 0, [1, 2], 1);
  }

  method StartTwo(deps: seq<LibId>) returns (rt: CoojaRuntime)
    requires deps == [] || deps == [1]
    ensures fresh(rt) && rt.Valid() && rt.libs == TwoLibraries(deps) && AllReferenced(rt.heap, {}) && rt.AllLive(0)
    ensures rt.lists.Keys == {0} && rt.lists[0] == [] && 0 in rt.clients && rt.clients[0] == multiset{}
  {
    TwoLoadable(deps, map[], map[]);
    rt := new CoojaRuntime(TwoLibraries(deps));
    rt.Start(0);
  }

  method LoadTwo(deps: seq<LibId>) returns (rt: CoojaRuntime)
    requires deps == [] || deps == [1]
    ensures fresh(rt) && rt.Valid() && rt.libs == TwoLibraries(deps)
    ensures rt.lists.Keys == {0} && 0 in rt.clients && rt.clients[0] == multiset{2}
    ensures Loaded(rt.lists, rt.heap, 0, 2)
    ensures deps == [] ==> !AllReferenced(rt.heap, {})
  {
    rt := StartTwo(deps);
    TwoLoadable(deps, rt.lists, rt.heap);
    NotRooted(deps, rt.lists, rt.heap);
    hide *;
    ghost var lists := rt.lists;
    assert Permitted(rt, 0, Load([1, 2]));
    PerformLoad(rt, 0, [1, 2]);
    ListsStay(lists, rt.lists, 0);
    LastIsLoaded(rt, 0, [1, 2]);
  }

  lemma NotRooted(deps: seq<LibId>, lists: Lists, heap: Heap)
    requires 0 in lists && lists[0] == [] && (deps == [] || deps == [1])
    ensures deps == [] ==> !Rooted(TwoLibraries(deps), lists, heap, 0, [1, 2])
  {
    TwoLoadable(deps, lists, heap);
    assert [1, 2][0] == 1 && !Loaded(lists, heap, 0, 1);
  }

  lemma LastIsLoaded(rt: CoojaRuntime, who: LoaderId, order: seq<LibId>)
    requires LoadedAs(rt, who, order) && |order| > 0
    ensures Loaded(rt.lists, rt.heap, who, order[|order| - 1])
  {
  }

  lemma ListsStay(l0: Lists, l1: Lists, who: LoaderId)
    requires OnlyAppends(l0, l1, who)
    ensures l1.Keys == l0.Keys
  {
  }

  lemma UnreferencedModule(libs: map<LibId, Library>, lists: Lists, heap: Heap, clients: Clients,
                           excess: map<ModulePtr, nat>) returns (q: ModulePtr)
    requires ModulesOk(libs, lists, heap, clients, excess, multiset{}) && !AllReferenced(heap, {})
    ensures q in heap && heap[q].owner in lists && heap[q].refcount == 0
  {
    q :| q in heap && heap[q].refcount <= 0;
    assert ModuleCounted(heap, clients, excess, multiset{}, q) && ModuleShaped(libs, lists, heap, q);
  }

  /** No unload removes a module that has no reference, or one with a surplus. */
  method GiveBack(rt: CoojaRuntime, who: LoaderId, x: LibId, ghost q: ModulePtr)
    requires rt.Valid() && who in rt.lists && who in rt.clients
    requires Loaded(rt.lists, rt.heap, who, x) ==> x in rt.clients[who]
    requires q in rt.heap && (rt.heap[q].refcount == 0 || (q in rt.excess && rt.excess[q] > 0))
    modifies rt
    ensures rt.Valid() && rt.clients == old(rt.clients)[who := old(rt.clients)[who] - multiset{x}]
    ensures rt.excess == old(rt.excess) && q in rt.heap
    ensures rt.heap[q].owner == old(rt.heap)[q].owner && rt.heap[q].lib == old(rt.heap)[q].lib
    ensures old(rt.heap)[q].refcount == 0 ==> rt.heap[q].refcount == 0
  {
    hide SharedOk, ModulesOk, InUse, Loaded;
    rt.Unload(who, x);
    UnloadedSurvivor(old(rt.shared), old(rt.heap), rt.shared, rt.heap, who, x, q);
  }

  /** A library on the list that none of the others needs: when the process has given back
      the one reference it was handed, it still has a module, with a count of zero. */
  method LoadForNobody() returns (rt: CoojaRuntime, ghost q: ModulePtr)
    ensures fresh(rt) && rt.Valid() && 0 in rt.clients && rt.clients[0] == multiset{}
    ensures q in rt.heap && rt.heap[q].owner == 0 && rt.heap[q].refcount == 0
  {
    rt := LoadTwo([]);
    hide SharedOk, ModulesOk, InUse, Loaded, TwoLibraries, AllReferenced;
    q := UnreferencedModule(rt.libs, rt.lists, rt.heap, rt.clients, rt.excess);
    GiveBack(rt, 0, 2, q);
  }

  /** A library depends on another one: a fork leaves the child with a reference too many,
      and when it has given back all it can, it still has that library. */
  method ForkForNobody() returns (rt: CoojaRuntime, ghost q: ModulePtr)
    ensures fresh(rt) && rt.Valid() && 1 in rt.clients && rt.clients[1] == multiset{}
    ensures !Exact(rt, 1) && q in rt.heap && rt.heap[q].owner == 1
  {
    rt := LoadTwo([1]);
    ghost var s, l0, c0, e0 := Now(rt), rt.lists, rt.clients, rt.excess;
    hide SharedOk, ModulesOk, InUse, Loaded, TwoLibraries, Extends, ForkedTo, Inherits, ChildReads, OldSurplus,
         StoreOk, ExactIn;
    rt.Clone(0, 1);
    ForkIsInexact(rt.libs, l0, s, c0, e0, rt.lists, Now(rt), rt.clients, rt.excess, 0, 1, 2);
    q := InexactModule(rt.libs, rt.lists, rt.heap, rt.clients, rt.excess, 1);
    GiveBack(rt, 1, 2, q);
  }

  /** The child of a process in which a library depends on another is left inexact. */
  lemma ForkIsInexact(libs: map<LibId, Library>, l0: Lists, s: Snapshot, c0: Clients, e0: map<ModulePtr, nat>,
                      l1: Lists, t: Snapshot, c1: Clients, e1: map<ModulePtr, nat>, parent: LoaderId, child: LoaderId,
                      x: LibId)
    requires ModulesOk(libs, l0, s.heap, c0, e0, multiset{}) && ModulesOk(libs, l1, t.heap, c1, e1, multiset{})
    requires SharedOk(libs, t.shared, t.heap, multiset{}) && parent in l0
    requires ForkedTo(l0, s.shared, s.heap, l1, t.shared, t.heap, parent, child, |l0[parent]|)
    requires Inherits(l0, s.heap, c0, l1, e1, parent, child)
    requires Loaded(l0, s.heap, parent, x) && x in libs && libs[x].deps != []
    ensures !ExactIn(t.heap, e1, child)
  {
    DependsOnOther(libs, l0, s.heap, parent, x);
    ForkExactWhen(libs, l0, s, c0, e0, l1, t, e1, parent, child);
  }

  lemma InexactModule(libs: map<LibId, Library>, lists: Lists, heap: Heap, clients: Clients,
                      excess: map<ModulePtr, nat>, who: LoaderId) returns (q: ModulePtr)
    requires ModulesOk(libs, lists, heap, clients, excess, multiset{}) && !ExactIn(heap, excess, who)
    ensures q in heap && heap[q].owner == who && q in excess && excess[q] > 0
  {
    q :| q in heap && heap[q].owner == who && !(q in excess && excess[q] == 0);
    assert ModuleCounted(heap, clients, excess, multiset{}, q);
  }

  lemma DependsOnOther(libs: map<LibId, Library>, lists: Lists, heap: Heap, who: LoaderId, x: LibId)
    requires ShapesOk(libs, lists, heap) && Loaded(lists, heap, who, x) && x in libs && libs[x].deps != []
    ensures !forall p | p in heap && heap[p].owner == who :: heap[p].deps == []
  {
    var p :| p in lists[who] && p in heap && heap[p].lib == x;
    assert ListShaped(lists, heap, who) && ModuleShaped(libs, lists, heap, p);
  }

  // ---------- a run from beginning to end ----------

  /** What processes 0 and 5 read in libraries 1 and 2. */
  datatype Picture = Picture(first1: Option<Section>, first2: Option<Section>,
                             other1: Option<Section>, other2: Option<Section>)

  ghost predicate Shows(s: Snapshot, v: Picture) {
    && Reads(s, 0, 1) == v.first1 && Reads(s, 0, 2) == v.first2
    && Reads(s, 5, 1) == v.other1 && Reads(s, 5, 2) == v.other2
  }

  ghost predicate Story(states: seq<Snapshot>, views: seq<Picture>) {
    |states| == |views| && forall i {:trigger states[i]} | 0 <= i < |states| :: Shows(states[i], views[i])
  }

  /** Libraries 1 and 2 with their initial values; the second needs the first. */
  function Pair(image1: Section, image2: Section): map<LibId, Library> {
    map[1 := Library(image1, []), 2 := Library(image2, [1])]
  }

  /** Where the run is: what the loader has been told, what has been handed out, and what
      processes 0 and 5 have read so far, the last of it now. */
  ghost predicate Stage(session: Session, libs: map<LibId, Library>, clients: Clients, events: seq<Event>,
                        views: seq<Picture>, v: Picture)
    reads session, session.rt
  {
    && session.Valid() && session.rt.libs == libs && session.rt.clients == clients && session.events == events
    && Story(session.states, views + [v]) && Shows(Now(session.rt), v)
    && AllReferenced(session.rt.heap, {}) && Exact(session.rt, 0)
  }

  /** A step in terms of what processes 0 and 5 read, the last unload left out. */
  lemma NextPicture(libs: map<LibId, Library>, running: LoaderId, a: Action, s: Snapshot, t: Snapshot, v: Picture)
    requires StepAgrees(libs, running, a, s, t) && Shows(s, v)
    ensures a.Switch? || a.Start? || a.Edit? ==> Shows(t, v)
    ensures a.Write? && running == 0 && a.lib == 1 && v.first1.Some? ==> Shows(t, v.(first1 := Some(a.section)))
    ensures a.Write? && running == 5 && a.lib == 1 && v.other1.Some? ==> Shows(t, v.(other1 := Some(a.section)))
    ensures a == Load([1, 2]) && running == 0 && 1 in libs && 2 in libs ==>
              Shows(t, v.(first1 := if v.first1.Some? then v.first1 else Some(libs[1].image),
                          first2 := if v.first2.Some? then v.first2 else Some(libs[2].image)))
    ensures a == Fork(5) && running == 0 ==> Shows(t, v.(other1 := v.first1, other2 := v.first2))
    ensures a == Exit(5) ==> Shows(t, v.(other1 := None, other2 := None))
    ensures a == Unload(2) && running == 0 ==>
              Shows(t, v.(first1 := Reads(t, 0, 1), first2 := Reads(t, 0, 2)))
              && (Reads(t, 0, 1) in {None, v.first1}) && (Reads(t, 0, 2) in {None, v.first2})
  {
    assert StepAgreesAt(libs, running, a, s, t, 0, 1) && StepAgreesAt(libs, running, a, s, t, 0, 2);
    assert StepAgreesAt(libs, running, a, s, t, 5, 1) && StepAgreesAt(libs, running, a, s, t, 5, 2);
  }

  lemma StoryGoesOn(states: seq<Snapshot>, views: seq<Picture>, t: Snapshot, v: Picture)
    requires Story(states, views) && Shows(t, v)
    ensures Story(states + [t], views + [v])
  {
    hide Shows;
    forall i | 0 <= i < |states + [t]|
      ensures Shows((states + [t])[i], (views + [v])[i])
    {
      if i < |states| {
        assert Shows(states[i], views[i]);
      }
    }
  }

  lemma WhatIsShown(s: Snapshot, v: Picture)
    requires Shows(s, v)
    ensures Reads(s, 0, 1) == v.first1 && Reads(s, 0, 2) == v.first2
    ensures Reads(s, 5, 1) == v.other1 && Reads(s, 5, 2) == v.other2
  {
  }

  lemma SameProcesses(rt: CoojaRuntime)
    requires rt.Valid()
    ensures rt.lists.Keys == rt.clients.Keys
  {
  }

  lemma HasIfReads(rt: CoojaRuntime, who: LoaderId, x: LibId)
    requires rt.Valid()
    ensures Loaded(rt.lists, rt.heap, who, x) <==> Reads(Now(rt), who, x).Some?
  {
    LoadedIsHad(rt.libs, rt.lists, rt.heap, who, x);
    if Owns(rt.heap, who, x) {
      var p :| OwnModule(rt.heap, who, x, p);
      assert ModuleShaped(rt.libs, rt.lists, rt.heap, p);
      assert x in rt.shared;
    }
  }

  method SwitchTo(session: Session, to: LoaderId, ghost libs: map<LibId, Library>, ghost clients: Clients,
                  ghost events: seq<Event>, ghost views: seq<Picture>, ghost v: Picture)
    requires Stage(session, libs, clients, events, views, v) && to in clients
    modifies session`running, session`events, session`states, session.rt
    ensures Stage(session, libs, clients,
                  events + [Event(old(session.running), Switch(to))], views + [v], v)
    ensures session.running == to
  {
    hide SharedOk, ModulesOk, InUse, IsRun, IsLive, AccountsKept, StepAgrees, ExactIn, AllReferenced, Story,
         Shows, Rooted, HasWhatIsWanted, Loaded, Loadable, Extends, OnlyAppends, LoadedAs, Reads;
    SameProcesses(session.rt);
    ghost var s, running, states := Now(session.rt), session.running, session.states;
    session.Do(Switch(to));
    NextPicture(session.rt.libs, running, Switch(to), s, Now(session.rt), v);
    StoryGoesOn(states, views + [v], Now(session.rt), v);
  }

  method AssignTo(session: Session, section: Section, ghost libs: map<LibId, Library>, ghost clients: Clients,
                  ghost events: seq<Event>, ghost views: seq<Picture>, ghost v: Picture)
    requires Stage(session, libs, clients, events, views, v) && session.running in {0, 5}
    requires if session.running == 0 then v.first1.Some? else v.other1.Some?
    modifies session`running, session`events, session`states, session.rt
    ensures Stage(session, libs, clients,
                  events + [Event(old(session.running), Write(1, section))], views + [v],
                  if old(session.running) == 0 then v.(first1 := Some(section)) else v.(other1 := Some(section)))
    ensures session.running == old(session.running)
  {
    hide SharedOk, ModulesOk, InUse, IsRun, IsLive, AccountsKept, StepAgrees, ExactIn, AllReferenced, Story,
         Shows, Rooted, HasWhatIsWanted, Loaded, Loadable, Extends, OnlyAppends, LoadedAs, Reads;
    HasIfReads(session.rt, session.running, 1);
    WhatIsShown(Now(session.rt), v);
    ghost var s, running, states := Now(session.rt), session.running, session.states;
    session.Do(Write(1, section));
    NextPicture(session.rt.libs, running, Write(1, section), s, Now(session.rt), v);
    StoryGoesOn(states, views + [v], Now(session.rt),
                if running == 0 then v.(first1 := Some(section)) else v.(other1 := Some(section)));
  }

  method ForkInto5(session: Session, ghost libs: map<LibId, Library>, ghost clients: Clients,
                   ghost events: seq<Event>, ghost views: seq<Picture>, ghost v: Picture)
    requires Stage(session, libs, clients, events, views, v) && session.running == 0 && 5 !in clients && 0 in clients
    modifies session`running, session`events, session`states, session.rt
    ensures Stage(session, libs, clients[5 := clients[0]],
                  events + [Event(old(session.running), Fork(5))], views + [v],
                  v.(other1 := v.first1, other2 := v.first2))
    ensures session.running == 0
  {
    hide SharedOk, ModulesOk, InUse, IsRun, IsLive, AccountsKept, StepAgrees, ExactIn, AllReferenced, Story,
         Shows, Rooted, HasWhatIsWanted, Loaded, Loadable, Extends, OnlyAppends, LoadedAs, Reads;
    SameProcesses(session.rt);
    ghost var s, running, states := Now(session.rt), session.running, session.states;
    session.Do(Fork(5));
    NextPicture(session.rt.libs, running, Fork(5), s, Now(session.rt), v);
    StoryGoesOn(states, views + [v], Now(session.rt), v.(other1 := v.first1, other2 := v.first2));
  }

  method End5(session: Session, ghost libs: map<LibId, Library>, ghost clients: Clients,
              ghost events: seq<Event>, ghost views: seq<Picture>, ghost v: Picture)
    requires Stage(session, libs, clients, events, views, v) && session.running == 0 && 5 in clients
    modifies session`running, session`events, session`states, session.rt
    ensures Stage(session, libs, clients[5 := multiset{}],
                  events + [Event(old(session.running), Exit(5))], views + [v], v.(other1 := None, other2 := None))
    ensures session.running == 0
  {
    hide SharedOk, ModulesOk, InUse, IsRun, IsLive, AccountsKept, StepAgrees, ExactIn, AllReferenced, Story,
         Shows, Rooted, HasWhatIsWanted, Loaded, Loadable, Extends, OnlyAppends, LoadedAs, Reads;
    SameProcesses(session.rt);
    ghost var s, running, states := Now(session.rt), session.running, session.states;
    session.Do(Exit(5));
    NextPicture(session.rt.libs, running, Exit(5), s, Now(session.rt), v);
    StoryGoesOn(states, views + [v], Now(session.rt), v.(other1 := None, other2 := None));
  }

  lemma PairIsRooted(image1: Section, image2: Section, lists: Lists, heap: Heap)
    ensures Ranked(Pair(image1, image2)) && Loadable(Pair(image1, image2), lists, heap, 0, [1, 2])
    ensures Rooted(Pair(image1, image2), lists, heap, 0, [1, 2])
  {
    var libs, order := Pair(image1, image2), [1, 2];
    assert order[..1] == [1];
    assert LoadableAt(libs, lists, heap, 0, order, 0) && LoadableAt(libs, lists, heap, 0, order, 1);
    assert order[1] == 2 && 1 in libs[2].deps;
  }

  /** With a reference to library 2 the process has both libraries. */
  lemma BothWanted(rt: CoojaRuntime, image1: Section, image2: Section)
    requires rt.Valid() && HasWhatIsWanted(rt) && rt.libs == Pair(image1, image2)
    requires 0 in rt.clients && 2 in rt.clients[0]
    ensures Reads(Now(rt), 0, 1).Some? && Reads(Now(rt), 0, 2).Some?
  {
    assert Wanted(rt.libs, rt.heap, rt.clients, rt.excess, 0, 2) && Loaded(rt.lists, rt.heap, 0, 2);
    LoadedIsHad(rt.libs, rt.lists, rt.heap, 0, 2);
    var r :| OwnModule(rt.heap, 0, 2, r);
    assert 1 in rt.libs[2].deps;
    assert Wanted(rt.libs, rt.heap, rt.clients, rt.excess, 0, 1) && Loaded(rt.lists, rt.heap, 0, 1);
    HasIfReads(rt, 0, 1);
    HasIfReads(rt, 0, 2);
  }

  /** Without any it has neither. */
  lemma NeitherWanted(rt: CoojaRuntime, image1: Section, image2: Section)
    requires rt.Valid() && HasWhatIsWanted(rt) && rt.libs == Pair(image1, image2)
    requires 0 in rt.clients && rt.clients[0] == multiset{} && Exact(rt, 0)
    ensures Reads(Now(rt), 0, 1) == None && Reads(Now(rt), 0, 2) == None
  {
    assert !Wanted(rt.libs, rt.heap, rt.clients, rt.excess, 0, 2) && !Loaded(rt.lists, rt.heap, 0, 2);
    LoadedIsHad(rt.libs, rt.lists, rt.heap, 0, 2);
    assert forall r | r in rt.heap && rt.heap[r].owner == 0 && rt.heap[r].lib == 2 :: OwnModule(rt.heap, 0, 2, r);
    assert forall r | r in rt.heap && rt.heap[r].owner == 0 && rt.heap[r].lib in rt.libs ::
             1 !in rt.libs[rt.heap[r].lib].deps;
    assert !Wanted(rt.libs, rt.heap, rt.clients, rt.excess, 0, 1) && !Loaded(rt.lists, rt.heap, 0, 1);
    HasIfReads(rt, 0, 1);
    HasIfReads(rt, 0, 2);
  }

  method LoadPair(session: Session, ghost image1: Section, ghost image2: Section, ghost clients: Clients,
                  ghost events: seq<Event>, ghost views: seq<Picture>, ghost v: Picture)
    requires Stage(session, Pair(image1, image2), clients, events, views, v) && session.running == 0
    requires 0 in clients
    modifies session`running, session`events, session`states, session.rt
    ensures Stage(session, Pair(image1, image2), clients[0 := clients[0] + multiset{2}],
                  events + [Event(0, Load([1, 2]))], views + [v],
                  v.(first1 := if v.first1.Some? then v.first1 else Some(image1),
                      first2 := if v.first2.Some? then v.first2 else Some(image2)))
    ensures session.running == 0
  {
    hide SharedOk, ModulesOk, InUse, IsRun, IsLive, AccountsKept, StepAgrees, ExactIn, AllReferenced, Story,
         Shows, Rooted, HasWhatIsWanted, Loaded, Loadable, Extends, OnlyAppends, LoadedAs, Reads;
    PairIsRooted(image1, image2, session.rt.lists, session.rt.heap);
    SameProcesses(session.rt);
    ghost var s, states := Now(session.rt), session.states;
    session.Do(Load([1, 2]));
    NextPicture(session.rt.libs, 0, Load([1, 2]), s, Now(session.rt), v);
    StoryGoesOn(states, views + [v], Now(session.rt), v.(first1 := if v.first1.Some? then v.first1 else Some(image1),
                      first2 := if v.first2.Some? then v.first2 else Some(image2)));
  }

  method UnloadOnce(session: Session, ghost image1: Section, ghost image2: Section, ghost clients: Clients,
                    ghost events: seq<Event>, ghost views: seq<Picture>, ghost v: Picture)
    requires Stage(session, Pair(image1, image2), clients, events, views, v) && session.running == 0
    requires 0 in clients && clients[0] == multiset{2, 2} && v.first1.Some? && v.first2.Some?
    modifies session`running, session`events, session`states, session.rt
    ensures Stage(session, Pair(image1, image2), clients[0 := multiset{2}],
                  events + [Event(0, Unload(2))], views + [v],
                  v)
    ensures session.running == 0
  {
    hide SharedOk, ModulesOk, InUse, IsRun, IsLive, AccountsKept, StepAgrees, ExactIn, AllReferenced, Story,
         Shows, Rooted, HasWhatIsWanted, Loaded, Loadable, Extends, OnlyAppends, LoadedAs, Reads;
    SameProcesses(session.rt);
    ghost var s, states := Now(session.rt), session.states;
    session.Do(Unload(2));
    assert multiset{2, 2} - multiset{2} == multiset{2};
    BothWanted(session.rt, image1, image2);
    NextPicture(session.rt.libs, 0, Unload(2), s, Now(session.rt), v);
    assert v.(first1 := Reads(Now(session.rt), 0, 1), first2 := Reads(Now(session.rt), 0, 2)) == v;
    StoryGoesOn(states, views + [v], Now(session.rt), v);
  }

  method UnloadLast(session: Session, ghost image1: Section, ghost image2: Section, ghost clients: Clients,
                    ghost events: seq<Event>, ghost views: seq<Picture>, ghost v: Picture)
    requires Stage(session, Pair(image1, image2), clients, events, views, v) && session.running == 0
    requires 0 in clients && clients[0] == multiset{2}
    modifies session`running, session`events, session`states, session.rt
    ensures Stage(session, Pair(image1, image2), clients[0 := multiset{}],
                  events + [Event(0, Unload(2))], views + [v],
                  v.(first1 := None, first2 := None))
    ensures session.running == 0
  {
    hide SharedOk, ModulesOk, InUse, IsRun, IsLive, AccountsKept, StepAgrees, ExactIn, AllReferenced, Story,
         Shows, Rooted, HasWhatIsWanted, Loaded, Loadable, Extends, OnlyAppends, LoadedAs, Reads;
    SameProcesses(session.rt);
    ghost var s, states := Now(session.rt), session.states;
    session.Do(Unload(2));
    NeitherWanted(session.rt, image1, image2);
    NextPicture(session.rt.libs, 0, Unload(2), s, Now(session.rt), v);
    StoryGoesOn(states, views + [v], Now(session.rt), v.(first1 := None, first2 := None));
  }

  method BeginPair(image1: Section, image2: Section) returns (session: Session)
    ensures fresh(session) && fresh(session.rt) && session.running == 0
    ensures Stage(session, Pair(image1, image2), map[0 := multiset{}], [Event(0, Edit(Pair(image1, image2)))],
                  [Picture(None, None, None, None)], Picture(None, None, None, None))
  {
    session := new Session(0);
    PairIsRooted(image1, image2, session.rt.lists, session.rt.heap);
    ghost var v := Picture(None, None, None, None);
    assert Shows(Now(session.rt), v);
    session.Do(Edit(Pair(image1, image2)));
  }

  /** Process 0 loads and assigns, forks, and the child assigns to its own copy. */
  method GrowApart(image1: Section, image2: Section, a: Section, b: Section) returns (session: Session)
    ensures fresh(session) && fresh(session.rt) && session.running == 0
    ensures Stage(session, Pair(image1, image2), map[0 := multiset{2}, 5 := multiset{2}], [
                    Event(0, Edit(Pair(image1, image2))), Event(0, Load([1, 2])), Event(0, Write(1, a)),
                    Event(0, Fork(5)), Event(0, Switch(5)), Event(5, Write(1, b)), Event(5, Switch(0))], [
                    Picture(None, None, None, None), Picture(None, None, None, None),
                    Picture(Some(image1), Some(image2), None, None), Picture(Some(a), Some(image2), None, None),
                    Picture(Some(a), Some(image2), Some(a), Some(image2)),
                    Picture(Some(a), Some(image2), Some(a), Some(image2)),
                    Picture(Some(a), Some(image2), Some(b), Some(image2))],
                  Picture(Some(a), Some(image2), Some(b), Some(image2)))
  {
    hide *;
    session := BeginPair(image1, image2);
    ghost var libs, none := Pair(image1, image2), Picture(None, None, None, None);
    ghost var loaded := Picture(Some(image1), Some(image2), None, None);
    ghost var own := loaded.(first1 := Some(a));
    ghost var copied := own.(other1 := Some(a), other2 := Some(image2));
    ghost var apart := copied.(other1 := Some(b));
    ghost var one, both := map[0 := multiset{2}], map[0 := multiset{2}, 5 := multiset{2}];
    ghost var events := [Event(0, Edit(libs)), Event(0, Load([1, 2])), Event(0, Write(1, a)), Event(0, Fork(5)),
                         Event(0, Switch(5)), Event(5, Write(1, b)), Event(5, Switch(0))];
    ghost var views := [none, none, loaded, own, copied, copied, apart];
    ghost var zero: Clients := map[0 := multiset{}];
    assert events[..1] == [Event(0, Edit(libs))] && views[..1] == [none];
    LoadPair(session, image1, image2, zero, events[..1], views[..1], none);
    Onwards(events, 1);
    Onwards(views, 1);
    assert zero[0] + multiset{2} == multiset{2} && one == zero[0 := zero[0] + multiset{2}];
    AssignTo(session, a, libs, one, events[..2], views[..2], loaded);
    Onwards(events, 2);
    Onwards(views, 2);
    ForkInto5(session, libs, one, events[..3], views[..3], own);
    Onwards(events, 3);
    Onwards(views, 3);
    assert both == one[5 := one[0]];
    SwitchTo(session, 5, libs, both, events[..4], views[..4], copied);
    Onwards(events, 4);
    Onwards(views, 4);
    AssignTo(session, b, libs, both, events[..5], views[..5], copied);
    Onwards(events, 5);
    Onwards(views, 5);
    SwitchTo(session, 0, libs, both, events[..6], views[..6], apart);
    Onwards(events, 6);
    Onwards(views, 6);
  }

  lemma Onwards<T>(s: seq<T>, i: nat)
    requires i < |s|
    ensures s[..i] + [s[i]] == s[..i + 1] && s[..|s|] == s
  {
  }

  /** Two libraries, the second of which needs the first, from beginning to end: what the
      processes read after each step.  A second load finds what is there and does not
      bring back the initial values, the child of a fork keeps its own values, one unload of
      two takes nothing away, and the last one takes both libraries. */
  method LifeOfAPair(image1: Section, image2: Section, a: Section, b: Section) returns (session: Session)
    ensures session.Valid() && session.events == [
              Event(0, Edit(Pair(image1, image2))), Event(0, Load([1, 2])), Event(0, Write(1, a)), Event(0, Fork(5)),
              Event(0, Switch(5)), Event(5, Write(1, b)), Event(5, Switch(0)), Event(0, Load([1, 2])),
              Event(0, Unload(2)), Event(0, Unload(2)), Event(0, Exit(5))]
    ensures Story(session.states, [
              Picture(None, None, None, None), Picture(None, None, None, None),
              Picture(Some(image1), Some(image2), None, None), Picture(Some(a), Some(image2), None, None),
              Picture(Some(a), Some(image2), Some(a), Some(image2)),
              Picture(Some(a), Some(image2), Some(a), Some(image2)),
              Picture(Some(a), Some(image2), Some(b), Some(image2)),
              Picture(Some(a), Some(image2), Some(b), Some(image2)),
              Picture(Some(a), Some(image2), Some(b), Some(image2)),
              Picture(Some(a), Some(image2), Some(b), Some(image2)),
              Picture(None, None, Some(b), Some(image2)), Picture(None, None, None, None)])
  {
    hide *;
    session := GrowApart(image1, image2, a, b);
    ghost var libs, none := Pair(image1, image2), Picture(None, None, None, None);
    ghost var apart := Picture(Some(a), Some(image2), Some(b), Some(image2));
    ghost var left := apart.(first1 := None, first2 := None);
    ghost var early := [Event(0, Edit(libs)), Event(0, Load([1, 2])), Event(0, Write(1, a)), Event(0, Fork(5)),
                        Event(0, Switch(5)), Event(5, Write(1, b)), Event(5, Switch(0))];
    ghost var events := early + [Event(0, Load([1, 2])), Event(0, Unload(2)), Event(0, Unload(2)), Event(0, Exit(5))];
    ghost var views := [none, none, Picture(Some(image1), Some(image2), None, None),
                        Picture(Some(a), Some(image2), None, None),
                        Picture(Some(a), Some(image2), Some(a), Some(image2)),
                        Picture(Some(a), Some(image2), Some(a), Some(image2)), apart, apart, apart, apart, left, none];
    assert early == events[..7];
    assert views[..7] == [none, none, Picture(Some(image1), Some(image2), None, None),
                          Picture(Some(a), Some(image2), None, None),
                          Picture(Some(a), Some(image2), Some(a), Some(image2)),
                          Picture(Some(a), Some(image2), Some(a), Some(image2)), apart];
    ghost var one, two := map[0 := multiset{2}, 5 := multiset{2}], map[0 := multiset{2, 2}, 5 := multiset{2}];
    LoadPair(session, image1, image2, one, events[..7], views[..7], apart);
    Onwards(events, 7);
    Onwards(views, 7);
    assert one[0] + multiset{2} == multiset{2, 2} && two == one[0 := one[0] + multiset{2}];
    UnloadOnce(session, image1, image2, two, events[..8], views[..8], apart);
    Onwards(events, 8);
    Onwards(views, 8);
    assert one == two[0 := multiset{2}];
    UnloadLast(session, image1, image2, one, events[..9], views[..9], apart);
    Onwards(events, 9);
    Onwards(views, 9);
    End5(session, libs, one[0 := multiset{}], events[..10], views[..10], left);
    Onwards(events, 10);
    Onwards(views, 10);
    Onwards(views, 11);
    WhereItStands(session, libs, one[0 := multiset{}][5 := multiset{}], events, views[..11], none);
    assert views[..11] + [none] == views;
  }

  lemma WhereItStands(session: Session, libs: map<LibId, Library>, clients: Clients, events: seq<Event>,
                      views: seq<Picture>, v: Picture)
    requires Stage(session, libs, clients, events, views, v)
    ensures session.Valid() && session.events == events && Story(session.states, views + [v])
  {
  }

  lemma LibrariesGrow(rt: CoojaRuntime, running: LoaderId, a: Action)
    requires Permitted(rt, running, a)
    ensures Grows(rt.libs, if a.Edit? then a.more else rt.libs)
  {
  }

  lemma RunLength(libs: map<LibId, Library>, events: seq<Event>, states: seq<Snapshot>)
    requires IsRun(libs, events, states)
    ensures |states| == |events| + 1
  {
  }
}
