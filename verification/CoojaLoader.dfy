/** The loader that gives every process its own copy of the global variables of every
    library (model/cooja-loader-factory.cc). */
module CoojaLoader {
  import opened LoaderStore
  import opened Options

  class CoojaRuntime {
    // What the cache of edited files knows so far.
    var libs: map<LibId, Library>
    var shared: SharedMap
    var heap: Heap
    var lists: Lists
    var next: ModulePtr
    // References handed out by Load and not yet given back, per process.
    ghost var clients: Clients
    // References a forked process inherits beyond those it can account for.
    ghost var excess: map<ModulePtr, nat>

    ghost predicate Consistent(flight: set<ModulePtr>, debt: multiset<ModulePtr>)
      reads this
    {
      && SharedOk(libs, shared, heap, multiset{}) && InUse(shared)
      && flight <= heap.Keys
      && ModulesOk(libs, lists, Minus(heap, flight), clients, excess, debt)
      && (forall p | p in heap :: p < next)
    }

    ghost predicate Valid()
      reads this
    {
      && SharedOk(libs, shared, heap, multiset{}) && InUse(shared)
      && ModulesOk(libs, lists, heap, clients, excess, multiset{})
      && (forall p | p in heap :: p < next)
    }

    ghost predicate AllLive(who: LoaderId)
      reads this
    {
      who in lists && forall i | 0 <= i < |lists[who]| :: IsLive(shared, heap, lists[who][i])
    }

    constructor (libs: map<LibId, Library>)
      requires Ranked(libs)
      ensures Valid() && this.libs == libs && lists == map[] && heap == map[] && shared == map[]
      ensures clients == map[] && excess == map[]
    {
      this.libs := libs;
      shared, heap, lists, next := map[], map[], map[], 0;
      clients, excess := map[], map[];
    }

    /** The cache has edited more files. */
    method Learn(more: map<LibId, Library>)
      requires Valid() && Ranked(more) && Grows(libs, more)
      modifies this`libs
      ensures Valid() && libs == more
    {
      GrowsShared(libs, more, shared, heap, multiset{});
      GrowsModules(libs, more, lists, heap, clients, excess, multiset{});
      libs := more;
    }

    /** A new process, with no libraries yet. */
    method Start(who: LoaderId)
      requires Valid() && who !in lists
      modifies this`lists, this`clients
      ensures Valid() && lists == old(lists)[who := []] && clients == old(clients)[who := multiset{}]
    {
      NewLoader(libs, lists, heap, clients, excess, who);
      lists := lists[who := []];
      clients := clients[who := multiset{}];
    }

    /** Every other process's variables are put away and those of `who` are put in
        place, for each library `who` uses.  No process can tell. */
    method NotifyStartExecute(who: LoaderId)
      requires Valid() && who in lists
      modifies this`shared, this`heap
      ensures Valid()
      ensures AllLive(who)
      ensures KeepsViews(old(shared), old(heap), shared, heap)
      ensures SameModules(old(heap), heap) && SameCounts(old(shared), shared)
    {
      var list := lists[who];
      assert ListShaped(lists, heap, who);
      SwitchDone(libs, shared, heap, lists, clients, excess, who);
      SwitchStarts(shared, heap, list);
      hide SharedOk, ModulesOk, InUse, KeepsViews, LoaderStore.Activate, ActivateAll, SameModules, SameCounts;
      for i := 0 to |list|
        invariant (shared, heap) == ActivateAll(old(shared), old(heap), list[..i])
      {
        SwitchNext(libs, old(shared), old(heap), list, i);
        Activate(list[i]);
      }
      assert list[..|list|] == list;
    }

    /** Puts the values of one module in place. */
    method Activate(p: ModulePtr)
      requires p in heap && heap[p].lib in shared
      requires var current := shared[heap[p].lib].current; current.Some? ==> current.value in heap
      modifies this`shared, this`heap
      ensures (shared, heap) == LoaderStore.Activate(old(shared), old(heap), p)
    {
      var x := heap[p].lib;
      if shared[x].current != Some(p) {
        if shared[x].current.Some? {
          // the live section belongs to somebody else: save it there
          var previous := shared[x].current.value;
          heap := heap[previous := heap[previous].(buffer := shared[x].data)];
        }
        // fill the live section from our buffer
        shared := shared[x := shared[x].(data := heap[p].buffer, current := Some(p))];
      }
    }

    /** The running process assigns to its variables of library x. */
    method Write(x: LibId, section: Section)
      requires Valid() && x in shared
      modifies this`shared
      ensures Valid() && shared == old(shared)[x := old(shared)[x].(data := section)]
      ensures WritesView(old(shared), heap, shared, x, section)
    {
      WriteChangesOneView(libs, shared, heap, x, section);
      shared := shared[x := shared[x].(data := section)];
    }

    /** Gives up one reference to a shared module.  The last one takes the module away,
        after the references it held have been given up in turn. */
    method UnrefSharedModule(x: LibId, ghost users: Heap, ghost flight: set<LibId>, ghost debt: multiset<LibId>)
      requires x in shared && (forall f | f in flight :: f > x)
      requires SharedOk(libs, Minus(shared, flight), users, debt + multiset{x})
      requires InUse(Minus(shared, flight))
      modifies this`shared
      ensures SharedOk(libs, Minus(shared, flight), users, debt)
      ensures InUse(Minus(shared, flight))
      ensures OnlyBelow(old(shared), shared, x)
      decreases x, 1
    {
      hide SharedOk, OnlyBelow;
      ghost var live := Minus(shared, flight);
      var m := shared[x];
      MinusLaws(shared, flight, x, m.(refcount := m.refcount - 1));
      shared := shared[x := m.(refcount := m.refcount - 1)];
      if shared[x].refcount == 0 {
        DetachShared(libs, live, users, debt, x);
        label lowered:
        UnrefDependencies(x, m.deps, users, flight + {x}, debt);
        MinusLaws(shared, flight, x, m);
        UnrefBelow(old(shared), old@lowered(shared), shared, x);
        shared := Without(shared, x);
      } else {
        DropShared(libs, live, users, debt, x);
        LoweredBelow(old(shared), x);
      }
    }

    method UnrefDependencies(x: LibId, deps: seq<LibId>, ghost users: Heap, ghost flight: set<LibId>,
                             ghost debt: multiset<LibId>)
      requires x in shared && (forall f | f in flight :: f >= x)
      requires forall k | 0 <= k < |deps| :: deps[k] < x
      requires SharedOk(libs, Minus(shared, flight), users, debt + multiset(deps))
      requires InUse(Minus(shared, flight))
      modifies this`shared
      ensures SharedOk(libs, Minus(shared, flight), users, debt)
      ensures InUse(Minus(shared, flight))
      ensures x > 0 ==> OnlyBelow(old(shared), shared, x - 1)
      ensures x == 0 ==> shared == old(shared)
      decreases x, 0
    {
      assert deps[0..] == deps;
      for k := 0 to |deps|
        invariant if x > 0 then OnlyBelow(old(shared), shared, x - 1) else shared == old(shared)
        invariant SharedOk(libs, Minus(shared, flight), users, debt + multiset(deps[k..]))
        invariant InUse(Minus(shared, flight))
      {
        var d := deps[k];
        DropFirst(deps, k);
        assert d in debt + multiset(deps[k..]);
        assert debt + multiset(deps[k..]) == debt + multiset(deps[k + 1..]) + multiset{d};
        label before:
        UnrefSharedModule(d, users, flight, debt + multiset(deps[k + 1..]));
        OnlyBelowTwice(old(shared), old@before(shared), shared, x - 1, d);
      }
      assert debt + multiset(deps[|deps|..]) == debt;
    }

    /** Frees a module that is on no list any more, and its buffer. */
    method ReleaseModule(p: ModulePtr)
      requires SharedOk(libs, shared, heap, multiset{}) && InUse(shared) && p in heap
      modifies this`shared, this`heap
      ensures SharedOk(libs, shared, heap, multiset{}) && InUse(shared)
      ensures heap == Without(old(heap), p)
      ensures Unloaded(old(shared), old(heap), shared, heap, old(heap)[p].owner, old(heap)[p].lib)
    {
      var x := heap[p].lib;
      ForgetKeepsCounts(libs, shared, heap, p);
      if shared[x].current == Some(p) {
        shared := shared[x := shared[x].(current := None)];
      }
      assert Minus(shared, {}) == shared;
      assert multiset{} + multiset{x} == multiset{x};
      label before:
      UnrefSharedModule(x, Without(heap, p), {}, multiset{});
      assert Minus(shared, {}) == shared;
      heap := Without(heap, p);
      ReleaseUnloads(libs, old(shared), shared, old(heap), p);
    }

    /** Linear search in the list of modules of a process. */
    method SearchModule(who: LoaderId, x: LibId) returns (found: Option<nat>)
      requires who in lists && forall i | 0 <= i < |lists[who]| :: lists[who][i] in heap
      ensures found.Some? ==> found.value < |lists[who]| && heap[lists[who][found.value]].lib == x
      ensures found.None? ==> forall i | 0 <= i < |lists[who]| :: heap[lists[who][i]].lib != x
    {
      for i := 0 to |lists[who]|
        invariant forall j | 0 <= j < i :: heap[lists[who][j]].lib != x
      {
        if heap[lists[who][i]].lib == x {
          return Some(i);
        }
      }
      return None;
    }

    /** Gives up one reference to a module of `who`.  The last one takes it off the list,
        gives up its references to its dependencies, and frees it. */
    method UnloadModule(who: LoaderId, x: LibId, ghost p: ModulePtr, ghost flight: set<ModulePtr>,
                        ghost debt: multiset<ModulePtr>)
      requires Consistent(flight, debt + multiset{p})
      requires who in lists && p in lists[who] && p in heap && heap[p].lib == x && p !in flight
      requires forall f | f in flight :: f in heap && heap[f].lib > x
      modifies this`shared, this`heap, this`lists
      ensures Consistent(flight, debt)
      ensures Unloaded(old(shared), old(heap), shared, heap, who, x)
      ensures OnlyShrinks(old(lists), lists, who)
      ensures Settles(old(heap), heap, excess, flight)
      decreases x, 2
    {
      hide SharedOk, ModulesOk, InUse, Unloaded, OnlyShrinks, Pending, Settles;
      Listed(libs, lists, Minus(heap, flight), clients, excess, debt + multiset{p}, who);
      SearchFinds(libs, lists, Minus(heap, flight), clients, excess, debt + multiset{p}, who, p);
      var found := SearchModule(who, x);
      var i := found.value;
      var q := lists[who][i];
      assert q == p;
      LowerCount(libs, shared, lists, heap, clients, excess, flight, debt, who, i);
      ShrinksRefl(lists, who);
      RemoveShrinks(lists, who, i);
      var m := heap[q];
      heap := Lowered(heap, q);
      if m.refcount - 1 == 0 {
        lists := lists[who := RemoveAt(lists[who], i)];
        label detached:
        FreeDetached(who, q, flight, debt);
        SettlesDetach(old(heap), old@detached(heap), heap, excess, flight, q);
        OnlyShrinksTwice(old(lists), old@detached(lists), lists, who);
        UnloadedTwice(old(shared), old(heap), old@detached(shared), old@detached(heap), shared, heap, who, x, x);
      } else {
        SettlesLower(old(heap), excess, flight, q);
      }
    }

    /** The rest of an unload, once the module is off its list. */
    method FreeDetached(who: LoaderId, p: ModulePtr, ghost flight: set<ModulePtr>, ghost debt: multiset<ModulePtr>)
      requires p in heap && p !in flight && heap[p].owner == who && who in lists
      requires Consistent(flight + {p}, debt + multiset(heap[p].deps))
      requires Pending(heap, flight + {p}, who, heap[p].lib, heap[p].deps)
      requires forall f | f in flight :: f in heap && heap[f].lib > heap[p].lib
      modifies this`shared, this`heap, this`lists
      ensures Consistent(flight, debt)
      ensures Unloaded(old(shared), old(heap), shared, heap, who, old(heap)[p].lib)
      ensures OnlyShrinks(old(lists), lists, who)
      ensures p !in heap && Settles(old(heap), heap, excess, flight + {p})
      decreases heap[p].lib, 1
    {
      hide SharedOk, ModulesOk, InUse, Unloaded, OnlyShrinks, Settles, Pending;
      var x := heap[p].lib;
      UnloadDependencies(who, x, heap[p].deps, flight + {p}, debt);
      UnloadedSpares(old(shared), old(heap), shared, heap, who, (x as int) - 1, flight + {p});
      MinusLaws(heap, flight, p, heap[p]);
      label cleared:
      // the dependencies are gone, now the module itself
      ReleaseModule(p);
      SettlesRelease(old(heap), old@cleared(heap), excess, flight + {p}, p);
      UnloadedTwice(old(shared), old(heap), old@cleared(shared), old@cleared(heap), shared, heap, who, (x as int) - 1,
                    x);
    }

    method UnloadDependencies(who: LoaderId, x: LibId, deps: seq<ModulePtr>, ghost flight: set<ModulePtr>,
                              ghost debt: multiset<ModulePtr>)
      requires Consistent(flight, debt + multiset(deps))
      requires who in lists && Pending(heap, flight, who, x, deps)
      requires forall f | f in flight :: f in heap && heap[f].lib >= x
      modifies this`shared, this`heap, this`lists
      ensures Consistent(flight, debt)
      ensures Unloaded(old(shared), old(heap), shared, heap, who, x - 1)
      ensures OnlyShrinks(old(lists), lists, who)
      ensures Settles(old(heap), heap, excess, flight)
      decreases x, 0
    {
      ghost var s0, h0, l0, below := shared, heap, lists, (x as int) - 1;
      UnloadingRefl(libs, shared, heap, lists, who, below, excess, flight);
      hide SharedOk, ModulesOk, InUse, Unloaded, OnlyShrinks, Settles, Unloading, Pending, Minus;
      AllOwed(deps, debt);
      for k := 0 to |deps|
        invariant Consistent(flight, debt + multiset(deps[k..]))
        invariant Unloading(s0, h0, l0, shared, heap, lists, who, below, excess, flight)
      {
        var d := deps[k];
        NextOwed(libs, s0, h0, l0, shared, heap, lists, clients, excess, flight, debt, who, x, deps, k);
        ghost var s1, h1, l1 := shared, heap, lists;
        UnloadModule(who, heap[d].lib, d, flight, debt + multiset(deps[k + 1..]));
        UnloadingOneMore(s0, h0, l0, s1, h1, l1, shared, heap, lists, who, below, h1[d].lib, excess, flight);
      }
      UnloadingMeans(s0, h0, l0, shared, heap, lists, who, below, excess, flight);
    }

    /** A process gives back a reference it obtained from Load. */
    method Unload(who: LoaderId, x: LibId)
      requires Valid() && who in lists
      requires Loaded(lists, heap, who, x) ==> x in clients[who]
      modifies this`shared, this`heap, this`lists, this`clients
      ensures Valid()
      ensures Unloaded(old(shared), old(heap), shared, heap, who, x)
      ensures OnlyShrinks(old(lists), lists, who)
      ensures Settles(old(heap), heap, excess, {})
      ensures clients == old(clients)[who := old(clients)[who] - multiset{x}]
    {
      hide SharedOk, ModulesOk, InUse;
      Listed(libs, lists, heap, clients, excess, multiset{}, who);
      var found := SearchModule(who, x);
      if found.None? {
        UnloadedRefl(libs, shared, heap, who, x);
        SettlesRefl(heap, excess, {});
        if x in clients[who] {
          ClientIsLoaded(libs, lists, heap, clients, excess, who, x);
        }
        assert clients[who] - multiset{x} == clients[who] && clients == clients[who := clients[who]];
        clients := clients[who := clients[who] - multiset{x}];
      } else {
        var p := lists[who][found.value];
        assert p in lists[who];
        ClientGivesBack(libs, lists, heap, clients, excess, who, p);
        clients := clients[who := clients[who] - multiset{x}];
        assert Minus(heap, {}) == heap && multiset{} + multiset{p} == multiset{p};
        UnloadModule(who, x, p, {}, multiset{});
        assert Minus(heap, {}) == heap;
      }
    }

    /** Brings a library into the address space, with one reference to each of its
        dependencies, which must be there already. */
    method CreateSharedModule(x: LibId)
      requires SharedOk(libs, shared, heap, multiset{}) && InUse(shared)
      requires x !in shared && x in libs && forall i | 0 <= i < |libs[x].deps| :: libs[x].deps[i] in shared
      modifies this`shared
      ensures SharedOk(libs, shared, heap, multiset{}) && InUse(Without(shared, x))
      ensures shared.Keys == old(shared).Keys + {x} && shared[x].refcount == 0
      ensures shared[x].image == libs[x].image
      ensures forall y | y in old(shared) :: shared[y] == old(shared)[y].(refcount := shared[y].refcount)
    {
      hide SharedOk, InUse, SharedOnceMore, CountsAhead;
      var deps := libs[x].deps;
      assert multiset{} == multiset(deps[..0]);
      NothingCounted(shared);
      for k := 0 to |deps|
        invariant SharedOk(libs, shared, heap, multiset(deps[..k])) && InUse(shared)
        invariant CountsAhead(old(shared), shared)
      {
        var d := deps[k];
        AheadHas(old(shared), shared, d);
        AddSharedRef(libs, shared, heap, multiset(deps[..k]), d);
        assert deps[..k + 1] == deps[..k] + [d];
        CountsAheadNext(old(shared), shared, d);
        shared := SharedOnceMore(shared, d);
      }
      var e := SharedModule(libs[x].image, libs[x].image, None, 0, deps);
      assert multiset{} + multiset(deps) == multiset(deps[..|deps|]) by { assert deps[..|deps|] == deps; }
      AheadMeans(old(shared), shared);
      AttachShared(libs, shared, heap, multiset{}, x, e);
      assert Without(shared[x := e], x) == shared;
      shared := shared[x := e];
    }

    /** Finds one dependency of a new module p and takes a reference to it. */
    method LinkOne(who: LoaderId, p: ModulePtr, x: LibId, ghost debt: multiset<ModulePtr>) returns (d: ModulePtr)
      requires ModulesOk(libs, lists, Without(heap, p), clients, excess, debt)
      requires p in heap && who in lists && HasModule(lists, heap, who, x)
      modifies this`heap
      ensures d in old(heap) && d != p && old(heap)[d].owner == who && old(heap)[d].lib == x
      ensures heap == CountedOnceMore(old(heap), d)
      ensures ModulesOk(libs, lists, Without(heap, p), clients, excess, debt + multiset{d})
    {
      Listed(libs, lists, Without(heap, p), clients, excess, debt, who);
      hide ModulesOk;
      var found := SearchModule(who, x);
      d := lists[who][found.value];
      AddModuleRef(libs, lists, Without(heap, p), clients, excess, debt, d);
      WithoutUpdate(heap, p, d, heap[d].(refcount := heap[d].refcount + 1));
      heap := heap[d := heap[d].(refcount := heap[d].refcount + 1)];
    }

    /** Finds the dependencies of a new module among the modules of its process, and takes
        one reference to each. */
    method LinkDependencies(who: LoaderId, p: ModulePtr, names: seq<LibId>) returns (deps: seq<ModulePtr>)
      requires ModulesOk(libs, lists, Without(heap, p), clients, excess, multiset{})
      requires p in heap && who in lists
      requires forall i | 0 <= i < |names| :: Loaded(lists, Without(heap, p), who, names[i])
      modifies this`heap
      ensures CountsOnly(old(heap), heap) && heap[p] == old(heap)[p]
      ensures forall q | q in heap && heap[q].owner != who :: heap[q] == old(heap)[q]
      ensures ModulesOk(libs, lists, Without(heap, p), clients, excess, multiset(deps))
      ensures |deps| == |names|
      ensures forall i | 0 <= i < |deps| :: OwnModule(Without(heap, p), who, names[i], deps[i])
    {
      hide ModulesOk, LinkedSoFar, Loaded;
      deps := LinkAll(who, p, names);
      LinkMeans(old(heap), heap, p, who, names, deps);
    }

    method LinkAll(who: LoaderId, p: ModulePtr, names: seq<LibId>) returns (deps: seq<ModulePtr>)
      requires ModulesOk(libs, lists, Without(heap, p), clients, excess, multiset{})
      requires p in heap && who in lists && AllLoaded(lists, Without(heap, p), who, names)
      modifies this`heap
      ensures LinkedSoFar(old(heap), heap, p, who, names, deps) && |deps| == |names|
      ensures ModulesOk(libs, lists, Without(heap, p), clients, excess, multiset(deps))
    {
      LinkNothing(heap, p, who, names);
      hide *;
      ghost var heap0, debt := heap, multiset{};
      deps := [];
      for k := 0 to |names|
        invariant |deps| == k && LinkedSoFar(heap0, heap, p, who, names, deps) && debt == multiset(deps)
        invariant ModulesOk(libs, lists, Without(heap, p), clients, excess, debt)
      {
        NextToLink(lists, heap0, heap, p, who, names, deps);
        ghost var heap1 := heap;
        var d := LinkOne(who, p, names[k], debt);
        LinkNext(heap0, heap1, p, who, names, deps, d);
        deps, debt := deps + [d], debt + multiset{d};
      }
    }

    /** Takes over the live section of a library for a new, still unlisted module. */
    method TakeSection(who: LoaderId, x: LibId) returns (p: ModulePtr)
      requires x in shared
      modifies this`shared, this`heap, this`next
      ensures p == old(next) && next == old(next) + 1
      ensures (shared, heap) == Install(old(shared), old(heap), x, p, Module(x, who, [], 0, old(shared)[x].data))
    {
      p := next;
      next := next + 1;
      var s := shared[x];
      if s.current.Some? && s.current.value in heap {
        // whoever is current has its values saved
        heap := heap[s.current.value := heap[s.current.value].(buffer := s.data)];
      }
      // the newcomer starts from the pristine copy and is current from now on
      shared := shared[x := s.(refcount := s.refcount + 1, data := s.image, current := Some(p))];
      heap := heap[p := Module(x, who, [], 0, s.data)];
    }

    /** Gives `who` its own copy of a library that is in the address space: the section
        is filled from the pristine copy, and each dependency gets one more reference. */
    method CreateModule(who: LoaderId, x: LibId)
      requires SharedOk(libs, shared, heap, multiset{}) && InUse(Without(shared, x))
      requires ModulesOk(libs, lists, heap, clients, excess, multiset{})
      requires forall q | q in heap :: q < next
      requires x in libs && x in shared && shared[x].refcount >= 0 && who in lists && !Loaded(lists, heap, who, x)
      requires forall i | 0 <= i < |libs[x].deps| :: Loaded(lists, heap, who, libs[x].deps[i])
      modifies this`shared, this`heap, this`lists, this`next, this`excess
      ensures Valid() && next == old(next) + 1
      ensures lists == old(lists)[who := old(lists)[who] + [old(next)]]
      ensures heap.Keys == old(heap).Keys + {old(next)}
      ensures FreshModule(libs, shared, heap, who, x, old(next))
      ensures Extends(old(shared), old(heap), shared, heap)
      ensures excess == old(excess)[old(next) := 0]
      ensures shared.Keys == old(shared).Keys && forall y | y in shared && y != x :: shared[y] == old(shared)[y]
    {
      hide SharedOk, ModulesOk, Extends, Loaded;
      SharedImage(libs, shared, heap, multiset{}, x);
      var p := TakeSection(who, x);
      ghost var m := Module(x, who, [], 0, old(shared)[x].data);
      InstallExtends(libs, old(shared), old(heap), x, p, m);
      InstallKeepsModules(libs, lists, old(shared), old(heap), clients, excess, x, p, m);
      excess := excess[p := 0];
      ghost var heap1 := heap;
      hide InUse;
      forall i | 0 <= i < |libs[x].deps|
        ensures Loaded(lists, Without(heap, p), who, libs[x].deps[i])
      {
        StillLoaded(old(shared), old(heap), shared, heap, p, lists, who, libs[x].deps[i]);
      }
      NotLoadedStill(old(shared), old(heap), shared, heap1, heap1, lists, p, who, x);
      InstallInUse(old(shared), old(heap), x, p, m);
      LinkAndList(p, libs[x].deps);
      LinkedExtends(old(shared), old(heap), shared, heap1, heap, p, libs[x].deps);
    }

    /** Makes sure the library is in the address space. */
    method BringIn(who: LoaderId, x: LibId)
      requires Valid() && who in lists && x in libs
      requires Loaded(lists, heap, who, x)
               || forall i | 0 <= i < |libs[x].deps| :: Loaded(lists, heap, who, libs[x].deps[i])
      modifies this`shared
      ensures SharedOk(libs, shared, heap, multiset{}) && InUse(Without(shared, x)) && x in shared
              && shared[x].refcount >= 0
      ensures x in old(shared) ==> shared == old(shared)
      ensures forall y | y in old(shared) :: y in shared && shared[y] == old(shared)[y].(refcount := shared[y].refcount)
    {
      hide SharedOk, ModulesOk;
      LoadedIsShared(libs, shared, heap);
      if x !in shared {
        DependenciesPresent(libs, shared, lists, heap, who, x);
        CreateSharedModule(x);
      } else {
        StillInUse(shared, x);
      }
    }

    /** One entry of the dependency list: the library is brought in if the address space
        does not have it, and `who` is given a copy if it does not have one. */
    method LoadOne(who: LoaderId, x: LibId)
      requires Valid() && who in lists && x in libs
      requires Loaded(lists, heap, who, x)
               || forall i | 0 <= i < |libs[x].deps| :: Loaded(lists, heap, who, libs[x].deps[i])
      modifies this`shared, this`heap, this`lists, this`next, this`excess
      ensures Valid() && Loaded(lists, heap, who, x)
      ensures NoNewSurplus(old(heap), old(excess), heap, excess)
      ensures Extends(old(shared), old(heap), shared, heap) && StaysLive(old(shared), old(heap), shared, heap, who)
      ensures if old(Loaded(lists, heap, who, x)) then lists == old(lists) && heap == old(heap)
              else && lists == old(lists)[who := old(lists)[who] + [old(next)]]
                   && heap.Keys == old(heap).Keys + {old(next)}
                   && FreshModule(libs, shared, heap, who, x, old(next))
    {
      hide SharedOk, ModulesOk, Extends, StaysLive;
      Listed(libs, lists, heap, clients, excess, multiset{}, who);
      SurplusKnown(libs, lists, heap, clients, excess, multiset{});
      LoadedIsShared(libs, shared, heap);
      BringIn(who, x);
      hide InUse;
      ghost var shared1 := shared;
      var found := SearchModule(who, x);
      if found.None? {
        NotLoadedNoModule(libs, lists, heap, clients, excess, who, x);
        CreateModule(who, x);
        LoadedKeepsOthers(old(shared), old(heap), shared1, shared, heap, who, x);
        assert old(next) in lists[who];
      } else {
        assert lists[who][found.value] in lists[who];
        ExtendsRefl(libs, shared, heap);
        StaysLiveRefl(shared, heap, who);
      }
    }

    /** Loads a file and everything it needs, in the given order, for process `who`. */
    method LoadModule(who: LoaderId, order: seq<LibId>) returns (p: ModulePtr)
      requires Valid() && who in lists && |order| > 0
      requires Loadable(libs, lists, heap, who, order)
      modifies this`shared, this`heap, this`lists, this`next, this`excess
      ensures Valid() && OwnModule(heap, who, order[|order| - 1], p)
      ensures NoNewSurplus(old(heap), old(excess), heap, excess)
      ensures Extends(old(shared), old(heap), shared, heap) && StaysLive(old(shared), old(heap), shared, heap, who)
      ensures OnlyAppends(old(lists), lists, who)
      ensures FreshFrom(libs, shared, heap, lists, who, |old(lists)[who]|)
      ensures NewAmong(heap, lists, who, |old(lists)[who]|, order)
      ensures forall k | 0 <= k < |order| :: Loaded(lists, heap, who, order[k])
    {
      NothingNew(libs, shared, heap, lists, who, order);
      SurplusKnown(libs, lists, heap, clients, excess, multiset{});
      hide SharedOk, ModulesOk, InUse, NoNewSurplus, Extends, StaysLive, FreshFrom, NewAmong, OnlyAppends, FreshModule,
           Loaded;
      for k := 0 to |order|
        invariant Valid() && who in lists && OnlyAppends(old(lists), lists, who)
        invariant NoNewSurplus(old(heap), old(excess), heap, excess)
        invariant Extends(old(shared), old(heap), shared, heap) && StaysLive(old(shared), old(heap), shared, heap, who)
        invariant FreshFrom(libs, shared, heap, lists, who, |old(lists)[who]|)
        invariant NewAmong(heap, lists, who, |old(lists)[who]|, order)
        invariant forall j | 0 <= j < k :: Loaded(lists, heap, who, order[j])
      {
        LoadableNow(libs, old(lists), old(shared), old(heap), lists, shared, heap, who, order, k);
        label before:
        LoadOne(who, order[k]);
        LoadedOne(libs, old(lists), old(shared), old(heap), old(excess), old@before(lists), old@before(shared),
                  old@before(heap), old@before(excess),
                  lists, shared, heap, excess, who, order, k, old@before(next));
      }
      assert Loaded(lists, heap, who, order[|order| - 1]);
      Listed(libs, lists, heap, clients, excess, multiset{}, who);
      LoadedIsListed(lists, heap, who, order[|order| - 1]);
      var found := SearchModule(who, order[|order| - 1]);
      p := lists[who][found.value];
    }

    /** Loads a file for a process and hands out one reference to it. */
    method Load(who: LoaderId, order: seq<LibId>) returns (handle: LibId)
      requires Valid() && who in lists && |order| > 0
      requires Loadable(libs, lists, heap, who, order)
      modifies this`shared, this`heap, this`lists, this`next, this`excess, this`clients
      ensures Valid() && handle == order[|order| - 1]
      ensures NoNewSurplus(old(heap), old(excess), heap, excess)
      ensures Extends(old(shared), old(heap), shared, heap) && StaysLive(old(shared), old(heap), shared, heap, who)
      ensures OnlyAppends(old(lists), lists, who)
      ensures FreshFrom(libs, shared, heap, lists, who, |old(lists)[who]|)
      ensures NewAmong(heap, lists, who, |old(lists)[who]|, order)
      ensures clients == old(clients)[who := old(clients)[who] + multiset{handle}]
      ensures forall k | 0 <= k < |order| :: Loaded(lists, heap, who, order[k])
    {
      hide SharedOk, ModulesOk;
      var p := LoadModule(who, order);
      ghost var heap1 := heap;
      Listed(libs, lists, heap, clients, excess, multiset{}, who);
      ClientTakes(libs, lists, heap, clients, excess, p);
      // one reference is the caller's
      heap := heap[p := heap[p].(refcount := heap[p].refcount + 1)];
      handle := heap[p].lib;
      clients := clients[who := clients[who] + multiset{handle}];
      CountsOnlyExtends(libs, shared, heap1, heap);
      CountsOnlyLoads(libs, old(shared), old(heap), shared, heap1, heap, lists, who, |old(lists)[who]|);
      forall k | 0 <= k < |order|
        ensures Loaded(lists, heap, who, order[k])
      {
        LoadedLater(lists, shared, heap1, lists, shared, heap, who, order[k]);
      }
    }

    /** The process ends: all its modules are released, in list order, whatever their counts. */
    method UnloadAll(who: LoaderId)
      requires Valid() && who in lists
      modifies this`shared, this`heap, this`lists, this`clients
      ensures Valid()
      ensures Evicted(old(shared), old(heap), shared, heap, who)
      ensures lists == old(lists)[who := []] && clients == old(clients)[who := multiset{}]
      ensures forall q | q in heap :: heap[q].owner != who
    {
      EvictingStarts(libs, lists, shared, heap, clients, excess, who);
      hide SharedOk, ModulesOk, InUse, Evicting, Evicted, Unloaded, Without;
      ghost var s0, h0 := shared, heap;
      for i := 0 to |lists[who]|
        invariant lists == old(lists) && clients == old(clients)
        invariant SharedOk(libs, shared, heap, multiset{}) && InUse(shared) && (forall p | p in heap :: p < next)
        invariant Evicting(s0, h0, shared, heap, lists[who], who, i)
      {
        ghost var s1, h1 := shared, heap;
        EvictingAt(s0, h0, shared, heap, lists[who], who, i);
        ReleaseModule(lists[who][i]);
        WithoutLess(h1, lists[who][i]);
        EvictingNext(s0, h0, s1, h1, shared, heap, lists[who], who, i);
      }
      EvictingDone(libs, lists, s0, h0, shared, heap, clients, excess, who);
      lists := lists[who := []];
      clients := clients[who := multiset{}];
    }

    /** Allocates a module with the library, the count and the present values of q's. */
    method CopyModule(child: LoaderId, q: ModulePtr) returns (c: ModulePtr)
      requires Valid() && q in heap && heap[q].lib in shared && heap[q].refcount >= 0
      modifies this`shared, this`heap, this`next, this`excess
      ensures c == old(next) && c !in old(heap) && next == old(next) + 1
      ensures heap == old(heap)[c := CopyBlank(old(shared), old(heap), child, q)] && Without(heap, c) == old(heap)
      ensures var x := old(heap)[q].lib;
              shared == old(shared)[x := old(shared)[x].(refcount := old(shared)[x].refcount + 1)]
      ensures excess == old(excess)[c := old(heap)[q].refcount]
      ensures SharedOk(libs, shared, heap, multiset{}) && InUse(shared)
      ensures ModulesOk(libs, lists, Without(heap, c), clients, excess, multiset{})
    {
      hide SharedOk, ModulesOk, InUse;
      CopyInstall(libs, lists, shared, heap, clients, excess, next, CopyBlank(shared, heap, child, q));
      var x := heap[q].lib;
      c := next;
      next := next + 1;
      shared := shared[x := shared[x].(refcount := shared[x].refcount + 1)];
      excess := excess[c := heap[q].refcount];
      heap := heap[c := Module(x, child, [], heap[q].refcount, shared[x].data)];
      assert Without(heap, c) == old(heap);
    }

    /** Gives a new module its dependencies and puts it on the list of its process. */
    method LinkAndList(c: ModulePtr, names: seq<LibId>)
      requires SharedOk(libs, shared, heap, multiset{}) && InUse(shared) && (forall p | p in heap :: p < next)
      requires c in heap && c in excess && excess[c] == heap[c].refcount && heap[c].owner in lists
      requires ModulesOk(libs, lists, Without(heap, c), clients, excess, multiset{})
      requires heap[c].lib in libs && names == libs[heap[c].lib].deps
      requires !Loaded(lists, Without(heap, c), heap[c].owner, heap[c].lib)
      requires forall i | 0 <= i < |names| :: Loaded(lists, Without(heap, c), heap[c].owner, names[i])
      modifies this`heap, this`lists
      ensures Valid() && Linked(old(heap), heap, c, names)
      ensures var who := old(heap)[c].owner; lists == old(lists)[who := old(lists)[who] + [c]]
    {
      hide SharedOk, ModulesOk, InUse, Loaded;
      var who := heap[c].owner;
      // the child's own modules of the same libraries
      var deps := LinkDependencies(who, c, names);
      CopyStore(libs, shared, old(heap), heap, c, deps);
      WithoutCounts(old(heap), heap, c);
      NotLoadedAfterCounts(lists, Without(old(heap), c), Without(heap, c), who, heap[c].lib);
      FinishModules(libs, lists, clients, excess, heap, c, deps);
      LinkedDone(old(heap), heap, c, names, deps);
      heap := heap[c := heap[c].(deps := deps)];
      lists := lists[who := lists[who] + [c]];
    }

    /** One step of a fork: a module of `child` for the same library as q. */
    method CloneOne(child: LoaderId, q: ModulePtr)
      requires Valid() && q in heap && child in lists && heap[q].owner != child && heap[q].refcount >= 0
      requires !Loaded(lists, heap, child, heap[q].lib) && DepsLoaded(lists, heap, child, q)
      modifies this`shared, this`heap, this`lists, this`next, this`excess
      ensures Valid() && SameLive(old(shared), shared)
      ensures lists == old(lists)[child := old(lists)[child] + [old(next)]]
      ensures CopiedHeap(old(heap), heap, child, old(next))
      ensures CopyOf(old(shared), old(heap), heap, child, q, old(next))
      ensures excess == old(excess)[old(next) := old(heap)[q].refcount]
    {
      hide SharedOk, ModulesOk, Loaded, InUse, DepsLoaded, CopiedHeap, CopyOf, Linked, SameLive;
      NamesToLink(libs, shared, lists, heap, clients, excess, child, q);
      var names := LibrariesOf(heap, heap[q].deps);
      OneMoreReference(shared, heap[q].lib);
      var c := CopyModule(child, q);
      LinkAndList(c, names);
      CopyDone(old(shared), old(heap), heap, child, q, c, names);
    }

    /** The loop of a fork: the child's list grows to a copy of the parent's. */
    method CloneAll(parent: LoaderId, child: LoaderId)
      requires Valid() && parent in lists && child in lists
      requires ForkedTo(Without(lists, child), shared, heap, lists, shared, heap, parent, child, 0)
      requires Surplus(heap, lists[parent], lists, excess, child, 0)
      modifies this`shared, this`heap, this`lists, this`next, this`excess
      ensures OldSurplus(old(heap), old(excess), excess)
      ensures Valid() && parent in Without(old(lists), child)
      ensures ForkedTo(Without(old(lists), child), old(shared), old(heap), lists, shared, heap, parent, child,
                       |old(lists)[parent]|)
      ensures Surplus(old(heap), old(lists)[parent], lists, excess, child, |old(lists)[parent]|)
    {
      ghost var lists0, shared0, heap0, excess0 := Without(lists, child), shared, heap, excess;
      CloningStarts(libs, lists, shared, heap, clients, excess, parent, child);
      hide SharedOk, ModulesOk, InUse, ForkedTo, Surplus, Loaded, DepsLoaded, CopiedHeap, CopyOf, SameLive, OldSurplus,
           Cloning, Without;
      var list := lists[parent];
      for i := 0 to |list|
        invariant Valid() && Cloning(lists0, shared0, heap0, excess0, lists, shared, heap, excess, parent, child, i)
      {
        CloningNext(libs, lists0, shared0, heap0, excess0, lists, shared, heap, excess, clients, parent, child, i);
        ghost var l1, s1, h1, e1, c := lists, shared, heap, excess, next;
        CloneOne(child, list[i]);
        CloningStep(libs, lists0, shared0, heap0, excess0, l1, s1, h1, e1, clients, lists, shared, heap, excess, parent,
                    child, i, c);
      }
      CloningMeans(lists0, shared0, heap0, excess0, lists, shared, heap, excess, parent, child, |list|);
    }

    /** Accounts for the references of a forked process. */
    ghost method Settle(lists0: Lists, shared0: SharedMap, heap0: Heap, clients0: Clients, parent: LoaderId,
                        child: LoaderId)
      requires Valid() && parent in lists0 && parent in clients0
      requires ForkedTo(lists0, shared0, heap0, lists, shared, heap, parent, child, |lists0[parent]|)
      requires Surplus(heap0, lists0[parent], lists, excess, child, |lists0[parent]|)
      requires ClientsOk(lists0, heap0, clients0) && clients == clients0[child := multiset{}]
      modifies this`excess, this`clients
      ensures Valid() && clients == clients0[child := clients0[parent]]
      ensures OldSurplus(heap0, old(excess), excess)
      ensures Inherits(lists0, heap0, clients0, lists, excess, parent, child)
    {
      hide SharedOk, ModulesOk, InUse, ForkedTo, Surplus, ClientsOk;
      SettleExcess(libs, lists0, shared0, heap0, lists, shared, heap, clients0, clients, excess, parent, child);
      SettledShares(libs, lists0, shared0, heap0, lists, shared, heap, clients0, clients, excess, parent, child);
      excess := Settled(heap, clients0, excess, parent, child);
      clients := clients0[child := clients0[parent]];
    }

    /** The process `child` starts as a copy of `parent`: for each module of the parent,
        in list order, one with the same library, the same count, the values that are in
        place, and links to the child's own modules. */
    method Clone(parent: LoaderId, child: LoaderId)
      requires Valid() && parent in lists && child !in lists
      modifies this`shared, this`heap, this`lists, this`next, this`excess, this`clients
      ensures Valid()
      ensures ForkedTo(old(lists), old(shared), old(heap), lists, shared, heap, parent, child, |old(lists)[parent]|)
      ensures clients == old(clients)[child := old(clients)[parent]]
      ensures Extends(old(shared), old(heap), shared, heap)
      ensures ChildReads(old(lists), old(shared), old(heap), lists, shared, heap, parent, child)
      ensures OldSurplus(old(heap), old(excess), excess)
      ensures Inherits(old(lists), old(heap), old(clients), lists, excess, parent, child)
    {
      NewLoader(libs, lists, heap, clients, excess, child);
      ForkBegins(libs, lists, shared, heap, clients, excess, parent, child);
      assert ClientsOk(lists, heap, clients);
      hide SharedOk, ModulesOk, InUse, ForkedTo, Surplus, ClientsOk, Extends, ChildReads;
      lists := lists[child := []];
      clients := clients[child := multiset{}];
      assert Without(lists, child) == old(lists);
      CloneAll(parent, child);
      ForkReads(libs, old(lists), old(shared), old(heap), lists, shared, heap, parent, child);
      Settle(old(lists), old(shared), old(heap), old(clients), parent, child);
    }
  }
}
