/** The store the loader works on (model/cooja-loader-factory.cc), as plain values.

    A `SharedModule` is one shared library of the address space: the section
    `data` that the code of the library really reads and writes, the pristine
    copy `image` taken at load time, and `current`, which says whose variables
    `data` holds at the moment.  A `Module` is what one process keeps for one
    library: a private `buffer`, and the list of modules it depends on.  A module
    and its buffer are allocated and freed together, so one pointer names both.

    Both kinds of record are reference counted.  While an unload is under way the
    counts include references that are about to be given up: the multiset `debt`
    lists them, and `flight` lists the records already detached but not yet freed. */
module LoaderStore {
  import opened Options

  type LibId = nat
  type ModulePtr = nat
  type LoaderId = nat
  newtype byte = x: int | 0 <= x < 256

  /** The variables of a library: the contents of its data section. */
  datatype Section = Section(bytes: seq<byte>)

  /** What the cache of edited files knows about a library. */
  datatype Library = Library(image: Section, deps: seq<LibId>)

  datatype SharedModule = SharedModule(image: Section, data: Section, current: Option<ModulePtr>,
                                       refcount: int, deps: seq<LibId>)

  datatype Module = Module(lib: LibId, owner: LoaderId, deps: seq<ModulePtr>, refcount: int, buffer: Section)

  type SharedMap = map<LibId, SharedModule>
  type Heap = map<ModulePtr, Module>
  type Lists = map<LoaderId, seq<ModulePtr>>
  type Clients = map<LoaderId, multiset<LibId>>
  type Graph = map<nat, seq<nat>>

  function Without<V>(m: map<nat, V>, k: nat): map<nat, V> {
    var ks: set<nat> := {k};
    m - ks
  }

  function Minus<V>(m: map<nat, V>, keys: set<nat>): map<nat, V> {
    m - keys
  }

  // ---------- counting edges ----------

  ghost function InEdges(g: Graph, x: nat): set<(nat, nat)> {
    set s, i | s in g && 0 <= i < |g[s]| && g[s][i] == x :: (s, i)
  }

  /** How many dependency entries, over all nodes, name x. */
  ghost function Incoming(g: Graph, x: nat): nat {
    |InEdges(g, x)|
  }

  ghost function EdgesOf(s: nat, deps: seq<nat>, x: nat): set<(nat, nat)> {
    set i | 0 <= i < |deps| && deps[i] == x :: (s, i)
  }

  lemma {:induction false} EdgesOfCount(s: nat, deps: seq<nat>, x: nat)
    ensures |EdgesOf(s, deps, x)| == multiset(deps)[x]
  {
    if deps == [] {
      assert EdgesOf(s, deps, x) == {};
    } else {
      var last := |deps| - 1;
      var rest := deps[..last];
      assert deps == rest + [deps[last]];
      EdgesOfCount(s, rest, x);
      if deps[last] == x {
        assert EdgesOf(s, deps, x) == EdgesOf(s, rest, x) + {(s, last)};
      } else {
        assert EdgesOf(s, deps, x) == EdgesOf(s, rest, x);
      }
    }
  }

  /** Taking a node out of the graph takes out exactly its own dependency entries. */
  lemma IncomingRemove(g: Graph, s: nat, x: nat)
    requires s in g
    ensures Incoming(g, x) == Incoming(Without(g, s), x) + multiset(g[s])[x]
  {
    EdgesOfCount(s, g[s], x);
    assert InEdges(g, x) == InEdges(Without(g, s), x) + EdgesOf(s, g[s], x);
    assert InEdges(Without(g, s), x) !! EdgesOf(s, g[s], x);
  }

  lemma IncomingAdd(g: Graph, s: nat, deps: seq<nat>, x: nat)
    requires s !in g
    ensures Incoming(g[s := deps], x) == Incoming(g, x) + multiset(deps)[x]
  {
    IncomingRemove(g[s := deps], s, x);
    assert Without(g[s := deps], s) == g;
  }

  lemma IncomingZero(g: Graph, x: nat)
    requires Incoming(g, x) == 0
    ensures forall s | s in g :: x !in g[s]
  {
    assert InEdges(g, x) == {};
    forall s, i | s in g && 0 <= i < |g[s]|
      ensures g[s][i] != x
    {
      assert (s, i) !in InEdges(g, x);
    }
  }

  // ---------- shared modules ----------

  ghost function SharedGraph(shared: SharedMap): Graph {
    map s | s in shared :: shared[s].deps
  }

  ghost function UserSet(users: Heap, x: LibId): set<ModulePtr> {
    set p | p in users && users[p].lib == x
  }

  ghost function Users(users: Heap, x: LibId): nat {
    |UserSet(users, x)|
  }

  lemma UsersRemove(users: Heap, p: ModulePtr, x: LibId)
    requires p in users
    ensures Users(users, x) == Users(Without(users, p), x) + (if users[p].lib == x then 1 else 0)
  {
    if users[p].lib == x {
      assert UserSet(users, x) == UserSet(Without(users, p), x) + {p};
    } else {
      assert UserSet(users, x) == UserSet(Without(users, p), x);
    }
  }

  ghost predicate RankedAt(libs: map<LibId, Library>, x: LibId) {
    x in libs ==> forall i | 0 <= i < |libs[x].deps| :: libs[x].deps[i] < x && libs[x].deps[i] in libs
  }

  /** The cache hands out ids in increasing order, and a library is edited after its
      dependencies were added: every dependency has a smaller id. */
  ghost predicate Ranked(libs: map<LibId, Library>) {
    forall x {:trigger RankedAt(libs, x)} :: RankedAt(libs, x)
  }

  /** The count of a shared module is the number of modules that use it plus the
      number of shared modules that depend on it, plus the references in `debt`. */
  ghost predicate SharedCounted(live: SharedMap, users: Heap, debt: multiset<LibId>, x: LibId)
    requires x in live
  {
    live[x].refcount == Users(users, x) + Incoming(SharedGraph(live), x) + debt[x]
  }

  ghost predicate SharedShaped(libs: map<LibId, Library>, live: SharedMap, users: Heap, x: LibId)
    requires x in live
  {
    && x in libs && live[x].image == libs[x].image && live[x].deps == libs[x].deps
    && (forall i | 0 <= i < |live[x].deps| :: live[x].deps[i] in live)
    && (live[x].current.Some? ==> live[x].current.value in users && users[live[x].current.value].lib == x)
  }

  ghost predicate SharedOk(libs: map<LibId, Library>, live: SharedMap, users: Heap, debt: multiset<LibId>) {
    && Ranked(libs)
    && (forall x {:trigger SharedShaped(libs, live, users, x)} | x in live :: SharedShaped(libs, live, users, x))
    && (forall x {:trigger SharedCounted(live, users, debt, x)} | x in live :: SharedCounted(live, users, debt, x))
    && (forall x | x in debt :: x in live)
    && (forall p | p in users :: users[p].lib in live)
  }

  ghost predicate InUse(live: SharedMap) {
    forall x | x in live :: live[x].refcount > 0
  }

  /** A record whose only reference is the one being dropped can be detached: what
      remains is consistent once the references it held are counted as debt. */
  lemma DetachShared(libs: map<LibId, Library>, live: SharedMap, users: Heap, debt: multiset<LibId>, x: LibId)
    requires SharedOk(libs, live, users, debt + multiset{x})
    requires x in live && live[x].refcount == 1
    ensures SharedOk(libs, Without(live, x), users, debt + multiset(live[x].deps))
    ensures forall i | 0 <= i < |live[x].deps| :: live[x].deps[i] < x
  {
    var rest := Without(live, x);
    var debt' := debt + multiset(live[x].deps);
    assert SharedCounted(live, users, debt + multiset{x}, x);
    assert UserSet(users, x) == {};
    forall p | p in users
      ensures users[p].lib in rest
    {
      assert p !in UserSet(users, x);
    }
    forall y | y in rest
      ensures SharedShaped(libs, rest, users, y) && SharedCounted(rest, users, debt', y)
    {
      DetachSharedOne(libs, live, users, debt, x, y);
    }
    assert SharedShaped(libs, live, users, x) && RankedAt(libs, x);
    forall y | y in debt'
      ensures y in rest
    {
      assert y in debt + multiset{x} || y in live[x].deps;
    }
  }

  lemma DetachSharedOne(libs: map<LibId, Library>, live: SharedMap, users: Heap, debt: multiset<LibId>, x: LibId,
                        y: LibId)
    requires x in live && y in live && y != x
    requires SharedCounted(live, users, debt + multiset{x}, x) && live[x].refcount == 1
    requires SharedShaped(libs, live, users, y) && SharedCounted(live, users, debt + multiset{x}, y)
    ensures SharedShaped(libs, Without(live, x), users, y)
    ensures SharedCounted(Without(live, x), users, debt + multiset(live[x].deps), y)
  {
    var g := SharedGraph(live);
    assert Without(g, x) == SharedGraph(Without(live, x));
    IncomingZero(g, x);
    assert x !in g[y];
    IncomingRemove(g, x, y);
  }

  /** Dropping one of several references only lowers the count. */
  lemma DropShared(libs: map<LibId, Library>, live: SharedMap, users: Heap, debt: multiset<LibId>, x: LibId)
    requires SharedOk(libs, live, users, debt + multiset{x})
    requires x in live && live[x].refcount != 1
    ensures SharedOk(libs, live[x := live[x].(refcount := live[x].refcount - 1)], users, debt)
  {
    var after := live[x := live[x].(refcount := live[x].refcount - 1)];
    forall y | y in after
      ensures SharedShaped(libs, after, users, y) && SharedCounted(after, users, debt, y)
    {
      DropSharedOne(libs, live, users, debt, x, y);
    }
  }

  lemma DropSharedOne(libs: map<LibId, Library>, live: SharedMap, users: Heap, debt: multiset<LibId>, x: LibId,
                      y: LibId)
    requires x in live && y in live && live[x].refcount != 1
    requires SharedShaped(libs, live, users, y) && SharedCounted(live, users, debt + multiset{x}, y)
    ensures var after := live[x := live[x].(refcount := live[x].refcount - 1)];
            SharedShaped(libs, after, users, y) && SharedCounted(after, users, debt, y)
  {
    var after := live[x := live[x].(refcount := live[x].refcount - 1)];
    assert SharedGraph(after) == SharedGraph(live);
  }

  function SharedOnceMore(live: SharedMap, x: LibId): SharedMap
    requires x in live
  {
    live[x := live[x].(refcount := live[x].refcount + 1)]
  }

  /** While a new record takes its references, nothing but counts changes. */
  ghost predicate CountsAhead(s0: SharedMap, s1: SharedMap) {
    s1.Keys == s0.Keys && forall y | y in s1 :: s1[y] == s0[y].(refcount := s1[y].refcount)
  }

  lemma NothingCounted(shared: SharedMap)
    ensures CountsAhead(shared, shared)
  {
  }

  lemma AheadHas(s0: SharedMap, s1: SharedMap, x: LibId)
    requires CountsAhead(s0, s1) && x in s0
    ensures x in s1
  {
  }

  lemma AheadMeans(s0: SharedMap, s1: SharedMap)
    requires CountsAhead(s0, s1)
    ensures s1.Keys == s0.Keys && forall y | y in s1 :: s1[y] == s0[y].(refcount := s1[y].refcount)
  {
  }

  lemma CountsAheadNext(s0: SharedMap, s1: SharedMap, x: LibId)
    requires CountsAhead(s0, s1) && x in s1 && InUse(s1)
    ensures CountsAhead(s0, SharedOnceMore(s1, x)) && InUse(SharedOnceMore(s1, x))
  {
  }

  /** Taking one more reference, owed to a record that is not in place yet. */
  lemma AddSharedRef(libs: map<LibId, Library>, live: SharedMap, users: Heap, debt: multiset<LibId>, x: LibId)
    requires SharedOk(libs, live, users, debt)
    requires x in live
    ensures SharedOk(libs, SharedOnceMore(live, x), users, debt + multiset{x})
  {
    var after := SharedOnceMore(live, x);
    assert SharedGraph(after) == SharedGraph(live);
    forall y | y in after
      ensures SharedShaped(libs, after, users, y) && SharedCounted(after, users, debt + multiset{x}, y)
    {
      assert SharedShaped(libs, live, users, y) && SharedCounted(live, users, debt, y);
    }
  }

  /** A new record settles the debt for the references it holds. */
  lemma AttachShared(libs: map<LibId, Library>, live: SharedMap, users: Heap, debt: multiset<LibId>, x: LibId,
                     e: SharedModule)
    requires SharedOk(libs, live, users, debt + multiset(e.deps))
    requires x !in live && x in libs && e.refcount == 0 && e.current == None
    requires e.image == libs[x].image && e.data == e.image && e.deps == libs[x].deps
    ensures SharedOk(libs, live[x := e], users, debt)
  {
    var after := live[x := e];
    var g := SharedGraph(live);
    assert SharedGraph(after) == g[x := e.deps];
    forall y | y in after
      ensures SharedShaped(libs, after, users, y) && SharedCounted(after, users, debt, y)
    {
      IncomingAdd(g, x, e.deps, y);
      if y == x {
        assert InEdges(g, x) == {} by {
          forall s, i | s in g && 0 <= i < |g[s]|
            ensures g[s][i] != x
          {
            assert SharedShaped(libs, live, users, s);
            assert g[s][i] in live[s].deps;
          }
        }
        assert UserSet(users, x) == {};
        assert x !in debt;
        forall d | d in e.deps
          ensures d in live
        {
          assert d in debt + multiset(e.deps);
        }
        assert multiset(e.deps)[x] == 0;
      } else {
        assert SharedShaped(libs, live, users, y) && SharedCounted(live, users, debt + multiset(e.deps), y);
      }
    }
  }

  /** A new module settles the debt for the one reference it holds. */
  lemma AttachUser(libs: map<LibId, Library>, live: SharedMap, users: Heap, debt: multiset<LibId>, p: ModulePtr,
                   m: Module)
    requires SharedOk(libs, live, users, debt + multiset{m.lib})
    requires p !in users && m.lib in live
    ensures SharedOk(libs, live, users[p := m], debt)
  {
    forall y | y in live
      ensures SharedShaped(libs, live, users[p := m], y) && SharedCounted(live, users[p := m], debt, y)
    {
      AttachUserOne(libs, live, users, debt, p, m, y);
    }
  }

  lemma AttachUserOne(libs: map<LibId, Library>, live: SharedMap, users: Heap, debt: multiset<LibId>, p: ModulePtr,
                      m: Module, y: LibId)
    requires y in live && p !in users
    requires SharedShaped(libs, live, users, y) && SharedCounted(live, users, debt + multiset{m.lib}, y)
    ensures SharedShaped(libs, live, users[p := m], y) && SharedCounted(live, users[p := m], debt, y)
  {
    assert Without(users[p := m], p) == users;
    UsersRemove(users[p := m], p, y);
  }

  /** A module about to be freed owes the reference it held. */
  lemma ReleaseUser(libs: map<LibId, Library>, live: SharedMap, users: Heap, debt: multiset<LibId>, p: ModulePtr)
    requires SharedOk(libs, live, users, debt)
    requires p in users && (users[p].lib in live ==> live[users[p].lib].current != Some(p))
    ensures SharedOk(libs, live, Without(users, p), debt + multiset{users[p].lib})
  {
    forall y | y in live
      ensures SharedShaped(libs, live, Without(users, p), y)
           && SharedCounted(live, Without(users, p), debt + multiset{users[p].lib}, y)
    {
      assert SharedShaped(libs, live, users, y) && SharedCounted(live, users, debt, y);
      UsersRemove(users, p, y);
    }
  }

  /** The counts do not depend on the contents of the sections, on who is current,
      or on the bookkeeping of the modules that use them. */
  ghost predicate SameUse(users: Heap, users': Heap) {
    && users.Keys == users'.Keys
    && forall p | p in users :: users'[p].lib == users[p].lib
  }

  ghost predicate SameCounts(live: SharedMap, live': SharedMap) {
    && live.Keys == live'.Keys
    && forall x | x in live :: && live'[x].refcount == live[x].refcount && live'[x].deps == live[x].deps
                               && live'[x].image == live[x].image
  }

  lemma RewriteSections(libs: map<LibId, Library>, live: SharedMap, live': SharedMap, users: Heap, users': Heap,
                        debt: multiset<LibId>)
    requires SharedOk(libs, live, users, debt)
    requires SameUse(users, users') && SameCounts(live, live')
    requires forall x | x in live' && live'[x].current.Some? ::
               live'[x].current.value in users && users[live'[x].current.value].lib == x
    ensures SharedOk(libs, live', users', debt)
    ensures InUse(live) ==> InUse(live')
  {
    assert SharedGraph(live') == SharedGraph(live);
    forall x | x in live'
      ensures SharedShaped(libs, live', users', x) && SharedCounted(live', users', debt, x)
    {
      assert SharedShaped(libs, live, users, x) && SharedCounted(live, users, debt, x);
      assert UserSet(users', x) == UserSet(users, x);
    }
  }

  // ---------- the modules of the processes ----------

  ghost function Links(live: Heap): Graph {
    map p | p in live :: live[p].deps
  }

  ghost predicate ModuleShaped(libs: map<LibId, Library>, lists: Lists, live: Heap, p: ModulePtr)
    requires p in live
  {
    var m := live[p];
    && m.owner in lists && p in lists[m.owner]
    && m.lib in libs && |m.deps| == |libs[m.lib].deps|
    && forall i | 0 <= i < |m.deps| ::
         m.deps[i] in live && live[m.deps[i]].owner == m.owner && live[m.deps[i]].lib == libs[m.lib].deps[i]
  }

  /** A loader's list holds its own modules, one per library, each after its dependencies. */
  ghost predicate ListShaped(lists: Lists, live: Heap, who: LoaderId)
    requires who in lists
  {
    var list := lists[who];
    && (forall j | 0 <= j < |list| :: list[j] in live && live[list[j]].owner == who)
    && (forall j, k | 0 <= j < k < |list| :: live[list[j]].lib != live[list[k]].lib)
    && (forall j | 0 <= j < |list| :: forall i | 0 <= i < |live[list[j]].deps| :: live[list[j]].deps[i] in list[..j])
  }

  ghost predicate Loaded(lists: Lists, live: Heap, who: LoaderId, x: LibId) {
    who in lists && exists p :: p in lists[who] && p in live && live[p].lib == x
  }

  /** The count of a module is the number of references its process holds as a client,
      plus the modules of that process that depend on it, plus the references in `debt`,
      plus a surplus that is zero unless the process descends from a fork. */
  ghost predicate ModuleCounted(live: Heap, clients: Clients, excess: map<ModulePtr, nat>, debt: multiset<ModulePtr>,
                                p: ModulePtr)
    requires p in live
  {
    && live[p].owner in clients && p in excess
    && live[p].refcount == clients[live[p].owner][live[p].lib] + Incoming(Links(live), p) + excess[p] + debt[p]
  }

  ghost predicate ShapesOk(libs: map<LibId, Library>, lists: Lists, live: Heap) {
    && (forall p {:trigger ModuleShaped(libs, lists, live, p)} | p in live :: ModuleShaped(libs, lists, live, p))
    && (forall who {:trigger ListShaped(lists, live, who)} | who in lists :: ListShaped(lists, live, who))
  }

  ghost predicate CountsOk(live: Heap, clients: Clients, excess: map<ModulePtr, nat>, debt: multiset<ModulePtr>) {
    && (forall p {:trigger ModuleCounted(live, clients, excess, debt, p)} | p in live ::
          ModuleCounted(live, clients, excess, debt, p))
    && (forall p | p in debt :: p in live)
  }

  ghost predicate ClientsOk(lists: Lists, live: Heap, clients: Clients) {
    && clients.Keys == lists.Keys
    && forall who, x {:trigger Loaded(lists, live, who, x)} | who in clients && x in clients[who] ::
         Loaded(lists, live, who, x)
  }

  ghost predicate ModulesOk(libs: map<LibId, Library>, lists: Lists, live: Heap, clients: Clients,
                            excess: map<ModulePtr, nat>, debt: multiset<ModulePtr>) {
    ShapesOk(libs, lists, live) && CountsOk(live, clients, excess, debt) && ClientsOk(lists, live, clients)
  }

  function RemoveAt<T>(s: seq<T>, i: nat): (r: seq<T>)
    requires i < |s|
  {
    s[..i] + s[i + 1..]
  }

  /** The shape of the lists survives any change of counts and buffers. */
  ghost predicate SameLinks(live: Heap, live': Heap) {
    && live.Keys == live'.Keys
    && forall p | p in live ::
         live'[p].lib == live[p].lib && live'[p].owner == live[p].owner && live'[p].deps == live[p].deps
  }

  lemma SameLinksShape(libs: map<LibId, Library>, lists: Lists, live: Heap, live': Heap, clients: Clients)
    requires SameLinks(live, live')
    ensures ShapesOk(libs, lists, live) ==> ShapesOk(libs, lists, live')
    ensures ClientsOk(lists, live, clients) ==> ClientsOk(lists, live', clients)
  {
    if ShapesOk(libs, lists, live) {
      forall p | p in live'
        ensures ModuleShaped(libs, lists, live', p)
      {
        assert ModuleShaped(libs, lists, live, p);
      }
      forall who | who in lists
        ensures ListShaped(lists, live', who)
      {
        assert ListShaped(lists, live, who);
      }
    }
    if ClientsOk(lists, live, clients) {
      forall who, x | who in clients && x in clients[who]
        ensures Loaded(lists, live', who, x)
      {
        assert Loaded(lists, live, who, x);
      }
    }
  }

  lemma DropModule(libs: map<LibId, Library>, lists: Lists, live: Heap, clients: Clients,
                   excess: map<ModulePtr, nat>, debt: multiset<ModulePtr>, p: ModulePtr)
    requires ModulesOk(libs, lists, live, clients, excess, debt + multiset{p})
    requires p in live
    ensures ModulesOk(libs, lists, live[p := live[p].(refcount := live[p].refcount - 1)], clients, excess, debt)
  {
    SameLinksShape(libs, lists, live, live[p := live[p].(refcount := live[p].refcount - 1)], clients);
    DropCounts(live, clients, excess, debt, p);
  }

  lemma DropCounts(live: Heap, clients: Clients, excess: map<ModulePtr, nat>, debt: multiset<ModulePtr>, p: ModulePtr)
    requires p in live && CountsOk(live, clients, excess, debt + multiset{p})
    ensures CountsOk(live[p := live[p].(refcount := live[p].refcount - 1)], clients, excess, debt)
  {
    var after := live[p := live[p].(refcount := live[p].refcount - 1)];
    forall q | q in after
      ensures ModuleCounted(after, clients, excess, debt, q)
    {
      DropModuleOne(live, clients, excess, debt, p, q);
    }
    forall q | q in debt
      ensures q in after
    {
      assert q in debt + multiset{p};
    }
  }

  lemma DropModuleOne(live: Heap, clients: Clients, excess: map<ModulePtr, nat>, debt: multiset<ModulePtr>,
                      p: ModulePtr, q: ModulePtr)
    requires p in live && q in live && ModuleCounted(live, clients, excess, debt + multiset{p}, q)
    ensures ModuleCounted(live[p := live[p].(refcount := live[p].refcount - 1)], clients, excess, debt, q)
  {
    assert Links(live[p := live[p].(refcount := live[p].refcount - 1)]) == Links(live);
  }

  /** A module whose only reference is being dropped can be taken off its list: no
      client and no module of its process needs it, and its dependencies become debt. */
  lemma DetachModule(libs: map<LibId, Library>, lists: Lists, live: Heap, clients: Clients,
                     excess: map<ModulePtr, nat>, debt: multiset<ModulePtr>, who: LoaderId, i: nat)
    requires who in lists && i < |lists[who]| && lists[who][i] in live && live[lists[who][i]].refcount == 1
    requires ModulesOk(libs, lists, live, clients, excess, debt + multiset{lists[who][i]})
    ensures ModulesOk(libs, lists[who := RemoveAt(lists[who], i)], Without(live, lists[who][i]), clients, excess,
                      debt + multiset(live[lists[who][i]].deps))
  {
    var p := lists[who][i];
    assert ListShaped(lists, live, who) && ModuleShaped(libs, lists, live, p);
    assert ModuleCounted(live, clients, excess, debt + multiset{p}, p);
    IncomingZero(Links(live), p);
    forall q | q in live
      ensures p !in live[q].deps
    {
      assert Links(live)[q] == live[q].deps;
    }
    DetachShapes(libs, lists, live, who, i);
    DetachCounts(live, clients, excess, debt, p);
    DetachClients(lists, live, clients, who, i);
  }

  lemma DetachShapes(libs: map<LibId, Library>, lists: Lists, live: Heap, who: LoaderId, i: nat)
    requires ShapesOk(libs, lists, live)
    requires who in lists && i < |lists[who]| && lists[who][i] in live
    requires forall q | q in live :: lists[who][i] !in live[q].deps
    ensures ShapesOk(libs, lists[who := RemoveAt(lists[who], i)], Without(live, lists[who][i]))
  {
    var p := lists[who][i];
    var lists' := lists[who := RemoveAt(lists[who], i)];
    forall q | q in Without(live, p)
      ensures ModuleShaped(libs, lists', Without(live, p), q)
    {
      DetachModuleOne(libs, lists, live, who, i, q);
    }
    forall k | k in lists'
      ensures ListShaped(lists', Without(live, p), k)
    {
      assert ListShaped(lists, live, who) && ListShaped(lists, live, k);
      DetachModuleList(lists, live, who, i, k);
    }
  }

  lemma DetachModuleOne(libs: map<LibId, Library>, lists: Lists, live: Heap, who: LoaderId, i: nat, q: ModulePtr)
    requires who in lists && i < |lists[who]| && lists[who][i] in live && q in live && q != lists[who][i]
    requires ModuleShaped(libs, lists, live, q)
    requires lists[who][i] !in live[q].deps
    ensures ModuleShaped(libs, lists[who := RemoveAt(lists[who], i)], Without(live, lists[who][i]), q)
  {
    forall j | 0 <= j < |live[q].deps|
      ensures live[q].deps[j] != lists[who][i]
    {
      assert live[q].deps[j] in live[q].deps;
    }
  }

  lemma DetachCounts(live: Heap, clients: Clients, excess: map<ModulePtr, nat>, debt: multiset<ModulePtr>, p: ModulePtr)
    requires p in live && CountsOk(live, clients, excess, debt + multiset{p}) && live[p].refcount == 1
    requires forall i | 0 <= i < |live[p].deps| :: live[p].deps[i] in live
    requires p !in live[p].deps
    ensures CountsOk(Without(live, p), clients, excess, debt + multiset(live[p].deps))
  {
    assert ModuleCounted(live, clients, excess, debt + multiset{p}, p);
    forall q | q in Without(live, p)
      ensures ModuleCounted(Without(live, p), clients, excess, debt + multiset(live[p].deps), q)
    {
      assert ModuleCounted(live, clients, excess, debt + multiset{p}, q);
      DetachCountOne(live, clients, excess, debt, p, q);
    }
    forall q | q in debt + multiset(live[p].deps)
      ensures q in Without(live, p)
    {
      assert q in debt + multiset{p} || q in live[p].deps;
    }
  }

  lemma DetachCountOne(live: Heap, clients: Clients, excess: map<ModulePtr, nat>, debt: multiset<ModulePtr>,
                       p: ModulePtr, q: ModulePtr)
    requires p in live && q in live && p != q
    requires ModuleCounted(live, clients, excess, debt + multiset{p}, q)
    ensures ModuleCounted(Without(live, p), clients, excess, debt + multiset(live[p].deps), q)
  {
    assert Without(Links(live), p) == Links(Without(live, p));
    IncomingRemove(Links(live), p, q);
  }

  lemma DetachClients(lists: Lists, live: Heap, clients: Clients, who: LoaderId, i: nat)
    requires ClientsOk(lists, live, clients) && who in lists && i < |lists[who]|
    requires forall k | k in lists :: ListShaped(lists, live, k)
    requires lists[who][i] in live && clients[who][live[lists[who][i]].lib] == 0
    ensures ClientsOk(lists[who := RemoveAt(lists[who], i)], Without(live, lists[who][i]), clients)
  {
    var lists' := lists[who := RemoveAt(lists[who], i)];
    forall k, x | k in clients && x in clients[k]
      ensures Loaded(lists', Without(live, lists[who][i]), k, x)
    {
      assert ListShaped(lists, live, who) && ListShaped(lists, live, k);
      assert Loaded(lists, live, k, x);
      DetachModuleLoaded(lists, live, clients, who, i, k, x);
    }
  }

  lemma DetachModuleLoaded(lists: Lists, live: Heap, clients: Clients, who: LoaderId, i: nat, k: LoaderId, x: LibId)
    requires who in lists && i < |lists[who]| && ListShaped(lists, live, who)
    requires who in clients && live[lists[who][i]].lib !in clients[who]
    requires k in clients && x in clients[k] && Loaded(lists, live, k, x)
    requires k in lists && ListShaped(lists, live, k)
    ensures Loaded(lists[who := RemoveAt(lists[who], i)], Without(live, lists[who][i]), k, x)
  {
    var q :| q in lists[k] && q in live && live[q].lib == x;
    var o :| 0 <= o < |lists[k]| && lists[k][o] == q;
    var after := lists[who := RemoveAt(lists[who], i)];
    assert after[k][if k != who || o < i then o else o - 1] == q;
    assert q in after[k] && q in Without(live, lists[who][i]);
  }

  /** What stood before a position still does when something else is taken out. */
  lemma StillBefore<T>(list: seq<T>, i: nat, o: nat, d: T)
    requires i < |list| && o < |list| && o != i && d in list[..o] && d != list[i]
    ensures d in RemoveAt(list, i)[..if o < i then o else o - 1]
  {
    var e :| 0 <= e < o && list[e] == d;
    var e' := if e < i then e else e - 1;
    assert RemoveAt(list, i)[e'] == d;
  }

  lemma DetachModuleList(lists: Lists, live: Heap, who: LoaderId, i: nat, k: LoaderId)
    requires who in lists && i < |lists[who]| && k in lists && lists[who][i] in live
    requires ListShaped(lists, live, who) && ListShaped(lists, live, k)
    requires forall q | q in live :: lists[who][i] !in live[q].deps
    ensures ListShaped(lists[who := RemoveAt(lists[who], i)], Without(live, lists[who][i]), k)
  {
    var p := lists[who][i];
    var list := lists[who];
    if k == who {
      var list' := RemoveAt(list, i);
      forall j | 0 <= j < |list'|
        ensures list'[j] != p
        ensures forall e | 0 <= e < |live[list'[j]].deps| :: live[list'[j]].deps[e] in list'[..j]
      {
        var o := if j < i then j else j + 1;
        assert list'[j] == list[o];
        forall n | 0 <= n < |live[list[o]].deps|
          ensures live[list[o]].deps[n] in list'[..j]
        {
          StillBefore(list, i, o, live[list[o]].deps[n]);
        }
      }
    } else {
      assert forall j | 0 <= j < |lists[k]| :: lists[k][j] != p;
    }
  }

  /** One more reference to a module, owed to a module that is not on the list yet. */
  lemma AddModuleRef(libs: map<LibId, Library>, lists: Lists, live: Heap, clients: Clients,
                     excess: map<ModulePtr, nat>, debt: multiset<ModulePtr>, d: ModulePtr)
    requires ModulesOk(libs, lists, live, clients, excess, debt)
    requires d in live
    ensures ModulesOk(libs, lists, live[d := live[d].(refcount := live[d].refcount + 1)], clients, excess,
                      debt + multiset{d})
  {
    var after := live[d := live[d].(refcount := live[d].refcount + 1)];
    SameLinksShape(libs, lists, live, after, clients);
    forall q | q in after
      ensures ModuleCounted(after, clients, excess, debt + multiset{d}, q)
    {
      assert Links(after) == Links(live);
      assert ModuleCounted(live, clients, excess, debt, q);
    }
    assert CountsOk(after, clients, excess, debt + multiset{d});
  }

  /** A new module joins the end of its loader's list and settles the debt for the
      references it holds. */
  lemma AttachModule(libs: map<LibId, Library>, lists: Lists, live: Heap, clients: Clients,
                     excess: map<ModulePtr, nat>, debt: multiset<ModulePtr>, p: ModulePtr, m: Module)
    requires ModulesOk(libs, lists, live, clients, excess, debt + multiset(m.deps))
    requires p !in live && m.owner in lists && m.lib in libs && !Loaded(lists, live, m.owner, m.lib)
    requires |m.deps| == |libs[m.lib].deps|
    requires forall i | 0 <= i < |m.deps| ::
               m.deps[i] in live && live[m.deps[i]].owner == m.owner && live[m.deps[i]].lib == libs[m.lib].deps[i]
    requires p in excess && m.refcount == clients[m.owner][m.lib] + excess[p]
    ensures ModulesOk(libs, lists[m.owner := lists[m.owner] + [p]], live[p := m], clients, excess, debt)
  {
    AttachShapes(libs, lists, live, p, m);
    AttachCounts(live, clients, excess, debt, p, m) by {
      forall q | q in live
        ensures p !in live[q].deps
      {
        assert ModuleShaped(libs, lists, live, q);
      }
    }
    AttachClients(lists, live, clients, p, m);
  }

  lemma AttachShapes(libs: map<LibId, Library>, lists: Lists, live: Heap, p: ModulePtr, m: Module)
    requires ShapesOk(libs, lists, live)
    requires p !in live && m.owner in lists && m.lib in libs && !Loaded(lists, live, m.owner, m.lib)
    requires |m.deps| == |libs[m.lib].deps|
    requires forall i | 0 <= i < |m.deps| ::
               m.deps[i] in live && live[m.deps[i]].owner == m.owner && live[m.deps[i]].lib == libs[m.lib].deps[i]
    ensures ShapesOk(libs, lists[m.owner := lists[m.owner] + [p]], live[p := m])
  {
    var lists' := lists[m.owner := lists[m.owner] + [p]];
    var after := live[p := m];
    forall q | q in after
      ensures ModuleShaped(libs, lists', after, q)
    {
      if q != p {
        assert ModuleShaped(libs, lists, live, q);
        assert q in lists[live[q].owner];
      }
    }
    forall k | k in lists'
      ensures ListShaped(lists', live[p := m], k)
    {
      assert ListShaped(lists, live, k);
      AttachList(libs, lists, live, p, m, k);
    }
  }

  lemma AttachList(libs: map<LibId, Library>, lists: Lists, live: Heap, p: ModulePtr, m: Module, k: LoaderId)
    requires forall q | q in live :: ModuleShaped(libs, lists, live, q)
    requires k in lists && ListShaped(lists, live, k)
    requires p !in live && m.owner in lists && !Loaded(lists, live, m.owner, m.lib)
    requires forall i | 0 <= i < |m.deps| :: m.deps[i] in live && live[m.deps[i]].owner == m.owner
    ensures ListShaped(lists[m.owner := lists[m.owner] + [p]], live[p := m], k)
  {
    var list := lists[k];
    if k == m.owner {
      var list' := list + [p];
      forall j | 0 <= j < |list|
        ensures live[list[j]].lib != m.lib && list'[..j] == list[..j]
      {
        assert list[j] in lists[k];
      }
      assert list'[..|list|] == list;
      forall i | 0 <= i < |m.deps|
        ensures m.deps[i] in list
      {
        assert ModuleShaped(libs, lists, live, m.deps[i]);
      }
    }
  }

  lemma AttachCounts(live: Heap, clients: Clients, excess: map<ModulePtr, nat>, debt: multiset<ModulePtr>,
                     p: ModulePtr, m: Module)
    requires CountsOk(live, clients, excess, debt + multiset(m.deps))
    requires p !in live && p in excess && m.owner in clients
    requires m.refcount == clients[m.owner][m.lib] + excess[p]
    requires forall i | 0 <= i < |m.deps| :: m.deps[i] in live
    requires forall q | q in live :: p !in live[q].deps
    ensures CountsOk(live[p := m], clients, excess, debt)
  {
    var after := live[p := m];
    forall q | q in after
      ensures ModuleCounted(after, clients, excess, debt, q)
    {
      AttachCountOne(live, clients, excess, debt, p, m, q) by {
        if q == p {
          assert p !in debt + multiset(m.deps);
        } else {
          assert ModuleCounted(live, clients, excess, debt + multiset(m.deps), q);
        }
      }
    }
    forall q | q in debt
      ensures q in after
    {
      assert q in debt + multiset(m.deps);
    }
  }

  lemma AttachCountOne(live: Heap, clients: Clients, excess: map<ModulePtr, nat>, debt: multiset<ModulePtr>,
                       p: ModulePtr, m: Module, q: ModulePtr)
    requires p !in live && p in excess && m.owner in clients
    requires m.refcount == clients[m.owner][m.lib] + excess[p]
    requires forall r | r in live :: p !in live[r].deps
    requires if q == p then p !in debt && p !in m.deps
             else q in live && ModuleCounted(live, clients, excess, debt + multiset(m.deps), q)
    ensures ModuleCounted(live[p := m], clients, excess, debt, q)
  {
    var g := Links(live);
    assert Links(live[p := m]) == g[p := m.deps];
    IncomingAdd(g, p, m.deps, q);
    if q == p {
      assert InEdges(g, p) == {};
    }
  }

  lemma AttachClients(lists: Lists, live: Heap, clients: Clients, p: ModulePtr, m: Module)
    requires ClientsOk(lists, live, clients) && p !in live && m.owner in lists
    ensures ClientsOk(lists[m.owner := lists[m.owner] + [p]], live[p := m], clients)
  {
    var lists' := lists[m.owner := lists[m.owner] + [p]];
    forall k, x | k in clients && x in clients[k]
      ensures Loaded(lists', live[p := m], k, x)
    {
      assert Loaded(lists, live, k, x);
      var q :| q in lists[k] && q in live && live[q].lib == x;
      assert q in lists'[k];
    }
  }

  /** Counts only mention libraries, owners, links and counts. */
  lemma SameCountsModules(live: Heap, live': Heap, clients: Clients, excess: map<ModulePtr, nat>,
                          debt: multiset<ModulePtr>)
    requires CountsOk(live, clients, excess, debt) && SameLinks(live, live')
    requires forall p | p in live :: live'[p].refcount == live[p].refcount
    ensures CountsOk(live', clients, excess, debt)
  {
    assert Links(live') == Links(live);
    forall q | q in live'
      ensures ModuleCounted(live', clients, excess, debt, q)
    {
      assert ModuleCounted(live, clients, excess, debt, q);
    }
  }

  /** What a process reads when it looks at a library's variables: the live section
      if that section is its own, its private buffer otherwise. */
  ghost function View(shared: SharedMap, heap: Heap, p: ModulePtr): Section
    requires p in heap && heap[p].lib in shared
  {
    if shared[heap[p].lib].current == Some(p) then shared[heap[p].lib].data else heap[p].buffer
  }

  ghost predicate IsLive(shared: SharedMap, heap: Heap, p: ModulePtr) {
    p in heap && heap[p].lib in shared && shared[heap[p].lib].current == Some(p)
  }

  ghost predicate SameView(shared: SharedMap, heap: Heap, shared': SharedMap, heap': Heap, p: ModulePtr) {
    p in heap' ==>
      && p in heap && heap'[p].lib == heap[p].lib && heap[p].lib in shared && heap[p].lib in shared'
      && View(shared', heap', p) == View(shared, heap, p)
  }

  /** Every module of the second store was in the first one, and its process reads the
      same values through it. */
  ghost predicate KeepsViews(shared: SharedMap, heap: Heap, shared': SharedMap, heap': Heap) {
    forall p {:trigger SameView(shared, heap, shared', heap', p)} :: SameView(shared, heap, shared', heap', p)
  }

  /** The section of library x was overwritten: the process current for x reads the new
      values, nobody else notices. */
  ghost predicate WritesView(shared: SharedMap, heap: Heap, shared': SharedMap, x: LibId, section: Section) {
    forall p | p in heap ::
      && heap[p].lib in shared && heap[p].lib in shared'
      && View(shared', heap, p) == if heap[p].lib == x
      && IsLive(shared, heap, p) then section else View(shared, heap, p)
  }

  /** Records may only differ in their buffers. */
  ghost predicate SameModules(heap: Heap, heap': Heap) {
    && heap'.Keys == heap.Keys
    && forall p | p in heap :: heap'[p] == heap[p].(buffer := heap'[p].buffer)
  }

  /** One step of a context switch: the section of p's library is saved for whoever is
      current and then filled from p's buffer, unless p is current already. */
  function Activate(shared: SharedMap, heap: Heap, p: ModulePtr): (r: (SharedMap, Heap)) {
    if p !in heap || heap[p].lib !in shared || shared[heap[p].lib].current == Some(p) then (shared, heap)
    else
      var s := shared[heap[p].lib];
      var heap' := if s.current.Some? && s.current.value in heap
                   then heap[s.current.value := heap[s.current.value].(buffer := s.data)]
                   else heap;
      (shared[heap[p].lib := s.(data := heap'[p].buffer, current := Some(p))], heap')
  }

  lemma ActivateKeepsViews(libs: map<LibId, Library>, shared: SharedMap, heap: Heap, p: ModulePtr)
    requires SharedOk(libs, shared, heap, multiset{})
    requires p in heap && heap[p].lib in shared
    ensures var (shared', heap') := Activate(shared, heap, p);
            && SharedOk(libs, shared', heap', multiset{})
            && SameCounts(shared, shared') && SameModules(heap, heap')
            && KeepsViews(shared, heap, shared', heap')
            && IsLive(shared', heap', p)
  {
    var (shared', heap') := Activate(shared, heap, p);
    ActivateKeepsCounts(libs, shared, heap, p);
    forall q
      ensures SameView(shared, heap, shared', heap', q)
    {
      if q in heap {
        assert SharedShaped(libs, shared, heap, heap[q].lib) && SharedShaped(libs, shared, heap, heap[p].lib);
      }
    }
  }

  lemma ActivateKeepsLive(shared: SharedMap, heap: Heap, p: ModulePtr, q: ModulePtr)
    requires IsLive(shared, heap, q) && p in heap && heap[p].lib != heap[q].lib
    ensures var (shared', heap') := Activate(shared, heap, p); IsLive(shared', heap', q)
  {
  }

  lemma ActivateKeepsCounts(libs: map<LibId, Library>, shared: SharedMap, heap: Heap, p: ModulePtr)
    requires SharedOk(libs, shared, heap, multiset{})
    requires p in heap && heap[p].lib in shared
    ensures var (shared', heap') := Activate(shared, heap, p);
            && SharedOk(libs, shared', heap', multiset{})
            && SameCounts(shared, shared') && SameModules(heap, heap')
  {
    var (shared', heap') := Activate(shared, heap, p);
    assert SharedShaped(libs, shared, heap, heap[p].lib);
    forall x | x in shared' && shared'[x].current.Some?
      ensures shared'[x].current.value in heap && heap[shared'[x].current.value].lib == x
    {
      assert SharedShaped(libs, shared, heap, x);
    }
    RewriteSections(libs, shared, shared', heap, heap', multiset{});
  }

  /** The whole switch: one step for each module of the process that is about to run. */
  function ActivateAll(shared: SharedMap, heap: Heap, list: seq<ModulePtr>): (r: (SharedMap, Heap)) {
    if list == [] then (shared, heap)
    else
      var (s, h) := ActivateAll(shared, heap, list[..|list| - 1]);
      Activate(s, h, list[|list| - 1])
  }

  lemma KeepsViewsTwice(s0: SharedMap, h0: Heap, s1: SharedMap, h1: Heap, s2: SharedMap, h2: Heap)
    requires KeepsViews(s0, h0, s1, h1) && KeepsViews(s1, h1, s2, h2)
    ensures KeepsViews(s0, h0, s2, h2)
  {
    forall p
      ensures SameView(s0, h0, s2, h2, p)
    {
      assert SameView(s0, h0, s1, h1, p) && SameView(s1, h1, s2, h2, p);
    }
  }

  /** A context switch changes nothing that any process can observe. */
  lemma {:induction false} SwitchKeepsViews(libs: map<LibId, Library>, shared: SharedMap, heap: Heap,
                                            list: seq<ModulePtr>)
    requires SharedOk(libs, shared, heap, multiset{})
    requires forall i | 0 <= i < |list| :: list[i] in heap
    ensures var (shared', heap') := ActivateAll(shared, heap, list);
            && SharedOk(libs, shared', heap', multiset{})
            && SameCounts(shared, shared') && SameModules(heap, heap')
            && KeepsViews(shared, heap, shared', heap')
  {
    if list == [] {
    } else {
      var most, p := list[..|list| - 1], list[|list| - 1];
      SwitchKeepsViews(libs, shared, heap, most);
      var (s, h) := ActivateAll(shared, heap, most);
      ActivateKeepsViews(libs, s, h, p);
      var (s', h') := Activate(s, h, p);
      KeepsViewsTwice(shared, heap, s, h, s', h');
    }
  }

  /** A context switch makes every module of the process live. */
  lemma {:induction false} SwitchMakesLive(libs: map<LibId, Library>, shared: SharedMap, heap: Heap,
                                           list: seq<ModulePtr>, i: nat)
    requires SharedOk(libs, shared, heap, multiset{})
    requires forall j | 0 <= j < |list| :: list[j] in heap
    requires i < |list| && forall k | i < k < |list| :: heap[list[k]].lib != heap[list[i]].lib
    ensures var (shared', heap') := ActivateAll(shared, heap, list); IsLive(shared', heap', list[i])
  {
    var most, p := list[..|list| - 1], list[|list| - 1];
    SwitchKeepsViews(libs, shared, heap, most);
    hide SharedOk, Activate, KeepsViews;
    var (s, h) := ActivateAll(shared, heap, most);
    if i < |most| {
      SwitchMakesLive(libs, shared, heap, most, i);
      assert most[i] == list[i];
      ActivateKeepsLive(s, h, p, list[i]);
    } else {
      ActivateKeepsViews(libs, s, h, p);
    }
  }

  /** Assigning to the live section of a library is seen by the process that is current
      for it and by nobody else. */
  lemma WriteChangesOneView(libs: map<LibId, Library>, shared: SharedMap, heap: Heap, x: LibId, section: Section)
    requires SharedOk(libs, shared, heap, multiset{})
    requires x in shared
    ensures var shared' := shared[x := shared[x].(data := section)];
            && SharedOk(libs, shared', heap, multiset{}) && SameCounts(shared, shared')
            && WritesView(shared, heap, shared', x, section)
  {
    var shared' := shared[x := shared[x].(data := section)];
    assert SharedShaped(libs, shared, heap, x);
    forall y | y in shared' && shared'[y].current.Some?
      ensures shared'[y].current.value in heap && heap[shared'[y].current.value].lib == y
    {
      assert SharedShaped(libs, shared, heap, y);
    }
    RewriteSections(libs, shared, shared', heap, heap, multiset{});
  }

  lemma SwitchStarts(shared: SharedMap, heap: Heap, list: seq<ModulePtr>)
    ensures ActivateAll(shared, heap, list[..0]) == (shared, heap)
  {
  }

  lemma SwitchNext(libs: map<LibId, Library>, shared: SharedMap, heap: Heap, list: seq<ModulePtr>, i: nat)
    requires SharedOk(libs, shared, heap, multiset{}) && i < |list|
    requires forall j | 0 <= j < |list| :: list[j] in heap
    ensures var (s, h) := ActivateAll(shared, heap, list[..i]);
            && list[i] in h && h[list[i]].lib in s
            && (var current := s[h[list[i]].lib].current; current.Some? ==> current.value in h)
            && ActivateAll(shared, heap, list[..i + 1]) == Activate(s, h, list[i])
  {
    SwitchKeepsViews(libs, shared, heap, list[..i]);
    assert list[..i + 1][..i] == list[..i];
    var (s, h) := ActivateAll(shared, heap, list[..i]);
    assert SharedShaped(libs, s, h, h[list[i]].lib);
  }

  /** What a whole switch leaves: the modules of the process are live, and nobody else can
      tell. */
  lemma SwitchDone(libs: map<LibId, Library>, shared: SharedMap, heap: Heap, lists: Lists, clients: Clients,
                   excess: map<ModulePtr, nat>, who: LoaderId)
    requires SharedOk(libs, shared, heap, multiset{}) && InUse(shared) && who in lists
    requires ModulesOk(libs, lists, heap, clients, excess, multiset{})
    requires ListShaped(lists, heap, who)
    ensures var (shared', heap') := ActivateAll(shared, heap, lists[who]);
            && SharedOk(libs, shared', heap', multiset{}) && InUse(shared')
            && ModulesOk(libs, lists, heap', clients, excess, multiset{})
            && (forall i | 0 <= i < |lists[who]| :: IsLive(shared', heap', lists[who][i]))
            && KeepsViews(shared, heap, shared', heap')
            && SameModules(heap, heap') && SameCounts(shared, shared')
  {
    hide ActivateAll, IsLive, SharedOk, ShapesOk, CountsOk, KeepsViews;
    var list := lists[who];
    var (shared', heap') := ActivateAll(shared, heap, list);
    SwitchKeepsViews(libs, shared, heap, list);
    forall i | 0 <= i < |list|
      ensures IsLive(shared', heap', list[i])
    {
      SwitchMakesLive(libs, shared, heap, list, i);
    }
    SameLinksShape(libs, lists, heap, heap', clients);
    SameCountsModules(heap, heap', clients, excess, multiset{});
  }

  /** Records below x may have lost references or gone; the others are untouched, and
      nothing but counts has changed. */
  ghost predicate OnlyBelow(shared: SharedMap, shared': SharedMap, x: LibId) {
    && shared'.Keys <= shared.Keys
    && (forall y | y in shared' :: shared'[y] == shared[y].(refcount := shared'[y].refcount))
    && (forall y | y in shared && y > x :: y in shared' && shared'[y] == shared[y])
  }

  lemma OnlyBelowTwice(s0: SharedMap, s1: SharedMap, s2: SharedMap, x: LibId, y: LibId)
    requires OnlyBelow(s0, s1, x) && OnlyBelow(s1, s2, y) && y <= x
    ensures OnlyBelow(s0, s2, x)
  {
  }

  /** A record loses a reference; with its last one go, later, the references it held. */
  lemma UnrefBelow(s0: SharedMap, s1: SharedMap, s2: SharedMap, x: LibId)
    requires x in s0 && s1 == s0[x := s0[x].(refcount := s0[x].refcount - 1)]
    requires if x > 0 then OnlyBelow(s1, s2, x - 1) else s2 == s1
    ensures OnlyBelow(s0, Without(s2, x), x)
  {
  }

  lemma LoweredBelow(s0: SharedMap, x: LibId)
    requires x in s0
    ensures OnlyBelow(s0, s0[x := s0[x].(refcount := s0[x].refcount - 1)], x)
  {
  }

  lemma MinusLaws<V>(m: map<nat, V>, flight: set<nat>, x: nat, v: V)
    requires x !in flight
    ensures Minus(m[x := v], flight + {x}) == Without(Minus(m, flight), x)
    ensures Minus(m, flight + {x}) == Minus(Without(m, x), flight)
    ensures Minus(m[x := v], flight) == Minus(m, flight)[x := v]
  {
  }

  lemma DropFirst(deps: seq<nat>, k: nat)
    requires k < |deps|
    ensures multiset(deps[k..]) == multiset(deps[k + 1..]) + multiset{deps[k]}
  {
    assert deps[k..] == [deps[k]] + deps[k + 1..];
  }

  /** If p's variables are in place, they are declared nobody's. */
  function Forget(shared: SharedMap, x: LibId, p: ModulePtr): SharedMap {
    if x in shared && shared[x].current == Some(p) then shared[x := shared[x].(current := None)] else shared
  }

  lemma ForgetKeepsCounts(libs: map<LibId, Library>, shared: SharedMap, heap: Heap, p: ModulePtr)
    requires SharedOk(libs, shared, heap, multiset{}) && InUse(shared) && p in heap
    ensures var x := heap[p].lib;
            && x in shared && InUse(Forget(shared, x, p))
            && SharedOk(libs, Forget(shared, x, p), Without(heap, p), multiset{x})
  {
    var x := heap[p].lib;
    var shared' := Forget(shared, x, p);
    forall y | y in shared' && shared'[y].current.Some?
      ensures shared'[y].current.value in heap && heap[shared'[y].current.value].lib == y
    {
      assert SharedShaped(libs, shared, heap, y);
    }
    RewriteSections(libs, shared, shared', heap, heap, multiset{});
    ReleaseUser(libs, shared', heap, multiset{}, p);
    assert multiset{} + multiset{x} == multiset{x};
  }

  ghost predicate Survives(shared: SharedMap, heap: Heap, shared': SharedMap, heap': Heap, q: ModulePtr) {
    q in heap' ==>
      && q in heap && heap'[q] == heap[q].(refcount := heap'[q].refcount)
      && heap[q].lib in shared && heap[q].lib in shared'
      && View(shared', heap', q) == View(shared, heap, q)
      && (IsLive(shared, heap, q) ==> IsLive(shared', heap', q))
  }

  ghost predicate Untouched(heap: Heap, heap': Heap, who: LoaderId, x: int, q: ModulePtr) {
    q in heap && (heap[q].owner != who || heap[q].lib > x) ==> q in heap' && heap'[q] == heap[q]
  }

  /** The effect on the store of unloading by `who`, starting at library x: modules may
      go, only of that process and only for libraries up to x; the remaining ones keep
      everything but their counts, stay live if they were, and are read as before. */
  ghost predicate Unloaded(shared: SharedMap, heap: Heap, shared': SharedMap, heap': Heap, who: LoaderId, x: int) {
    && (forall q {:trigger Survives(shared, heap, shared', heap', q)} :: Survives(shared, heap, shared', heap', q))
    && (forall q {:trigger Untouched(heap, heap', who, x, q)} :: Untouched(heap, heap', who, x, q))
  }

  lemma UnloadedTwice(s0: SharedMap, h0: Heap, s1: SharedMap, h1: Heap, s2: SharedMap, h2: Heap, who: LoaderId,
                      x: int, y: int)
    requires Unloaded(s0, h0, s1, h1, who, x) && Unloaded(s1, h1, s2, h2, who, y)
    ensures Unloaded(s0, h0, s2, h2, who, if x < y then y else x)
  {
    var z := if x < y then y else x;
    forall q
      ensures Survives(s0, h0, s2, h2, q)
    {
      assert Survives(s0, h0, s1, h1, q) && Survives(s1, h1, s2, h2, q);
    }
    forall q
      ensures Untouched(h0, h2, who, z, q)
    {
      assert Untouched(h0, h1, who, x, q) && Untouched(h1, h2, who, y, q);
    }
  }

  lemma UnloadedRefl(libs: map<LibId, Library>, shared: SharedMap, heap: Heap, who: LoaderId, x: int)
    requires SharedOk(libs, shared, heap, multiset{})
    ensures Unloaded(shared, heap, shared, heap, who, x)
  {
  }

  /** An unload starting below x leaves the records for x and above alone. */
  lemma UnloadedSpares(s1: SharedMap, h1: Heap, s2: SharedMap, h2: Heap, who: LoaderId, y: int, kept: set<ModulePtr>)
    requires Unloaded(s1, h1, s2, h2, who, y) && forall f | f in kept :: f in h1 && h1[f].lib > y
    ensures forall f | f in kept :: f in h2 && h2[f] == h1[f]
  {
    forall f | f in kept
      ensures f in h2 && h2[f] == h1[f]
    {
      assert Untouched(h1, h2, who, y, f);
    }
  }

  lemma UnloadedSurvivor(s1: SharedMap, h1: Heap, s2: SharedMap, h2: Heap, who: LoaderId, y: int, q: ModulePtr)
    requires Unloaded(s1, h1, s2, h2, who, y) && q in h2
    ensures q in h1 && h2[q].owner == h1[q].owner && h2[q].lib == h1[q].lib
  {
    assert Survives(s1, h1, s2, h2, q);
  }

  lemma UnloadedNothing(libs: map<LibId, Library>, shared: SharedMap, heap: Heap, heap': Heap, p: ModulePtr, x: int)
    requires SharedOk(libs, shared, heap, multiset{}) && p in heap && heap[p].lib <= x
    requires heap' == heap[p := heap[p].(refcount := heap[p].refcount - 1)]
    ensures Unloaded(shared, heap, shared, heap', heap[p].owner, x)
  {
  }

  lemma ReleaseUnloads(libs: map<LibId, Library>, shared: SharedMap, shared': SharedMap, heap: Heap, p: ModulePtr)
    requires SharedOk(libs, shared, heap, multiset{}) && p in heap
    requires SharedOk(libs, shared', Without(heap, p), multiset{})
    requires OnlyBelow(Forget(shared, heap[p].lib, p), shared', heap[p].lib)
    ensures Unloaded(shared, heap, shared', Without(heap, p), heap[p].owner, heap[p].lib)
  {
    forall q
      ensures Survives(shared, heap, shared', Without(heap, p), q)
    {
      if q in heap && q != p {
        assert SharedShaped(libs, shared, heap, heap[q].lib);
      }
    }
  }

  lemma OwedIsListed(libs: map<LibId, Library>, lists: Lists, live: Heap, clients: Clients,
                     excess: map<ModulePtr, nat>, debt: multiset<ModulePtr>, d: ModulePtr)
    requires ModulesOk(libs, lists, live, clients, excess, debt) && d in debt
    ensures d in live && live[d].owner in lists && d in lists[live[d].owner]
  {
    assert d in live && ModuleShaped(libs, lists, live, d);
  }

  ghost predicate ListShrinks(lists: Lists, lists': Lists, who: LoaderId, k: LoaderId) {
    k in lists && k in lists' ==> if k == who then forall q | q in lists'[k] :: q in lists[k] else lists'[k] == lists[k]
  }

  ghost predicate OnlyShrinks(lists: Lists, lists': Lists, who: LoaderId) {
    && lists'.Keys == lists.Keys
    && forall k {:trigger ListShrinks(lists, lists', who, k)} :: ListShrinks(lists, lists', who, k)
  }

  lemma OnlyShrinksTwice(l0: Lists, l1: Lists, l2: Lists, who: LoaderId)
    requires OnlyShrinks(l0, l1, who) && OnlyShrinks(l1, l2, who)
    ensures OnlyShrinks(l0, l2, who)
  {
    forall k
      ensures ListShrinks(l0, l2, who, k)
    {
      assert ListShrinks(l0, l1, who, k) && ListShrinks(l1, l2, who, k);
    }
  }

  /** One dependency more has been unloaded. */
  lemma UnloadedOneMore(s0: SharedMap, h0: Heap, l0: Lists, s1: SharedMap, h1: Heap, l1: Lists, s2: SharedMap,
                        h2: Heap, l2: Lists,
                        who: LoaderId, x: int, y: int, flight: set<ModulePtr>)
    requires Unloaded(s0, h0, s1, h1, who, x) && Unloaded(s1, h1, s2, h2, who, y) && y <= x
    requires OnlyShrinks(l0, l1, who) && OnlyShrinks(l1, l2, who)
    requires forall f | f in flight :: f in h0 && h0[f].lib > x && f in h1 && h1[f] == h0[f]
    ensures Unloaded(s0, h0, s2, h2, who, x) && OnlyShrinks(l0, l2, who)
    ensures forall f | f in flight :: f in h2 && h2[f] == h0[f]
  {
    UnloadedTwice(s0, h0, s1, h1, s2, h2, who, x, y);
    OnlyShrinksTwice(l0, l1, l2, who);
    UnloadedSpares(s1, h1, s2, h2, who, y, flight);
  }

  lemma OnlyOnePerLibrary(lists: Lists, live: Heap, who: LoaderId, p: ModulePtr, i: nat)
    requires who in lists && ListShaped(lists, live, who) && p in lists[who]
    requires i < |lists[who]| && p in live && lists[who][i] in live && live[lists[who][i]].lib == live[p].lib
    ensures lists[who][i] == p
  {
    var j :| 0 <= j < |lists[who]| && lists[who][j] == p;
    if j < i {
    } else if i < j {
    }
  }

  lemma ShrinksRefl(lists: Lists, who: LoaderId)
    ensures OnlyShrinks(lists, lists, who)
  {
  }

  lemma RemoveShrinks(lists: Lists, who: LoaderId, i: nat)
    requires who in lists && i < |lists[who]|
    ensures OnlyShrinks(lists, lists[who := RemoveAt(lists[who], i)], who)
  {
  }

  /** A search by library finds the very module meant. */
  lemma SearchFinds(libs: map<LibId, Library>, lists: Lists, live: Heap, clients: Clients, excess: map<ModulePtr, nat>,
                    debt: multiset<ModulePtr>, who: LoaderId, p: ModulePtr)
    requires ModulesOk(libs, lists, live, clients, excess, debt)
    requires who in lists && p in lists[who] && p in live
    ensures forall i | 0 <= i < |lists[who]| && lists[who][i] in live && live[lists[who][i]].lib == live[p].lib ::
              lists[who][i] == p
  {
    assert ListShaped(lists, live, who);
    forall i | 0 <= i < |lists[who]| && live[lists[who][i]].lib == live[p].lib
      ensures lists[who][i] == p
    {
      OnlyOnePerLibrary(lists, live, who, p, i);
    }
  }

  /** The dependencies a detached module still has to give up. */
  ghost predicate Pending(heap: Heap, flight: set<ModulePtr>, who: LoaderId, x: LibId, deps: seq<ModulePtr>) {
    forall k | 0 <= k < |deps| ::
      deps[k] in heap && deps[k] !in flight && heap[deps[k]].owner == who && heap[deps[k]].lib < x
  }

  function Lowered(heap: Heap, p: ModulePtr): Heap
    requires p in heap
  {
    heap[p := heap[p].(refcount := heap[p].refcount - 1)]
  }

  /** The shared side does not depend on the counts of modules. */
  lemma LowerKeepsShared(libs: map<LibId, Library>, shared: SharedMap, heap: Heap, p: ModulePtr)
    requires SharedOk(libs, shared, heap, multiset{}) && p in heap
    ensures SharedOk(libs, shared, Lowered(heap, p), multiset{})
    ensures Unloaded(shared, heap, shared, Lowered(heap, p), heap[p].owner, heap[p].lib)
  {
    UnloadedNothing(libs, shared, heap, Lowered(heap, p), p, heap[p].lib);
    SharedCurrents(libs, shared, heap);
    hide SharedOk;
    RewriteSections(libs, shared, shared, heap, Lowered(heap, p), multiset{});
  }

  lemma OwedIsCounted(libs: map<LibId, Library>, lists: Lists, live: Heap, clients: Clients,
                      excess: map<ModulePtr, nat>, debt: multiset<ModulePtr>, who: LoaderId, i: nat)
    requires who in lists && i < |lists[who]| && lists[who][i] in live
    requires ModulesOk(libs, lists, live, clients, excess, debt + multiset{lists[who][i]})
    ensures var p := lists[who][i];
            && live[p].owner == who && live[p].refcount > 0
            && (live[p].refcount == 1 ==> p in excess && excess[p] == 0)
  {
    var p := lists[who][i];
    assert ListShaped(lists, live, who) && ModuleCounted(live, clients, excess, debt + multiset{p}, p);
  }

  lemma DetachedIsPending(libs: map<LibId, Library>, lists: Lists, heap: Heap, clients: Clients,
                          excess: map<ModulePtr, nat>, flight: set<ModulePtr>, debt: multiset<ModulePtr>, p: ModulePtr)
    requires p in heap && p !in flight && Ranked(libs)
    requires ModulesOk(libs, lists, Minus(heap, flight), clients, excess, debt)
    ensures Pending(Lowered(heap, p), flight + {p}, heap[p].owner, heap[p].lib, heap[p].deps)
  {
    assert ModuleShaped(libs, lists, Minus(heap, flight), p) && RankedAt(libs, heap[p].lib);
  }

  /** Lowering one module's count: either it is still referenced, or it comes off its
      list and its dependencies are owed. */
  lemma LowerCount(libs: map<LibId, Library>, shared: SharedMap, lists: Lists, heap: Heap, clients: Clients,
                   excess: map<ModulePtr, nat>, flight: set<ModulePtr>, debt: multiset<ModulePtr>, who: LoaderId,
                   i: nat)
    requires who in lists && i < |lists[who]| && lists[who][i] in heap && lists[who][i] !in flight
    requires SharedOk(libs, shared, heap, multiset{})
    requires ModulesOk(libs, lists, Minus(heap, flight), clients, excess, debt + multiset{lists[who][i]})
    ensures var p := lists[who][i]; var m := heap[p]; var heap' := Lowered(heap, p);
            && m.owner == who && m.refcount > 0 && (m.refcount == 1 ==> p in excess && excess[p] == 0)
            && SharedOk(libs, shared, heap', multiset{})
            && Unloaded(shared, heap, shared, heap', who, m.lib)
            && (m.refcount != 1 ==> ModulesOk(libs, lists, Minus(heap', flight), clients, excess, debt))
            && (m.refcount == 1 ==>
                  && ModulesOk(libs, lists[who := RemoveAt(lists[who], i)], Minus(heap', flight + {p}), clients, excess,
                               debt + multiset(m.deps))
                  && Pending(heap', flight + {p}, who, m.lib, m.deps))
  {
    assert Ranked(libs);
    hide SharedOk, ModulesOk, Unloaded, Pending;
    var p := lists[who][i];
    var live := Minus(heap, flight);
    LowerKeepsShared(libs, shared, heap, p);
    OwedIsCounted(libs, lists, live, clients, excess, debt, who, i);
    DetachedIsPending(libs, lists, heap, clients, excess, flight, debt + multiset{p}, p);
    MinusLaws(heap, flight, p, Lowered(heap, p)[p]);
    if heap[p].refcount == 1 {
      DetachModule(libs, lists, live, clients, excess, debt, who, i);
    } else {
      DropModule(libs, lists, live, clients, excess, debt, p);
    }
  }

  lemma SharedCurrents(libs: map<LibId, Library>, shared: SharedMap, users: Heap)
    requires SharedOk(libs, shared, users, multiset{})
    ensures forall x | x in shared && shared[x].current.Some? ::
              shared[x].current.value in users && users[shared[x].current.value].lib == x
  {
    forall x | x in shared && shared[x].current.Some?
      ensures shared[x].current.value in users && users[shared[x].current.value].lib == x
    {
      assert SharedShaped(libs, shared, users, x);
    }
  }

  /** A client gives a reference back: it becomes a debt until the module is unloaded. */
  lemma ClientGivesBack(libs: map<LibId, Library>, lists: Lists, live: Heap, clients: Clients,
                        excess: map<ModulePtr, nat>, who: LoaderId, p: ModulePtr)
    requires ModulesOk(libs, lists, live, clients, excess, multiset{})
    requires who in clients && p in live && live[p].owner == who && live[p].lib in clients[who]
    ensures ModulesOk(libs, lists, live, clients[who := clients[who] - multiset{live[p].lib}], excess, multiset{p})
  {
    var x := live[p].lib;
    var clients' := clients[who := clients[who] - multiset{x}];
    forall q | q in live
      ensures ModuleCounted(live, clients', excess, multiset{p}, q)
    {
      assert ModuleCounted(live, clients, excess, multiset{}, q);
      SameOwnerSameLib(libs, lists, live, p, q);
    }
    forall k, y | k in clients' && y in clients'[k]
      ensures Loaded(lists, live, k, y)
    {
      assert Loaded(lists, live, k, y);
    }
  }

  lemma SameOwnerSameLib(libs: map<LibId, Library>, lists: Lists, live: Heap, p: ModulePtr, q: ModulePtr)
    requires ShapesOk(libs, lists, live) && p in live && q in live
    ensures live[p].owner == live[q].owner && live[p].lib == live[q].lib ==> p == q
  {
    assert ModuleShaped(libs, lists, live, p) && ModuleShaped(libs, lists, live, q);
    if live[p].owner == live[q].owner && live[p].lib == live[q].lib {
      assert ListShaped(lists, live, live[p].owner);
      var i :| 0 <= i < |lists[live[p].owner]| && lists[live[p].owner][i] == q;
      OnlyOnePerLibrary(lists, live, live[p].owner, p, i);
    }
  }

  /** A client takes a reference. */
  lemma ClientTakes(libs: map<LibId, Library>, lists: Lists, live: Heap, clients: Clients,
                    excess: map<ModulePtr, nat>, p: ModulePtr)
    requires ModulesOk(libs, lists, live, clients, excess, multiset{})
    requires p in live && live[p].owner in clients
    ensures var who := live[p].owner;
            ModulesOk(libs, lists, live[p := live[p].(refcount := live[p].refcount + 1)],
                      clients[who := clients[who] + multiset{live[p].lib}], excess, multiset{})
  {
    var who, x := live[p].owner, live[p].lib;
    var after := live[p := live[p].(refcount := live[p].refcount + 1)];
    var clients' := clients[who := clients[who] + multiset{x}];
    SameLinksShape(libs, lists, live, after, clients);
    assert Links(after) == Links(live);
    forall q | q in after
      ensures ModuleCounted(after, clients', excess, multiset{}, q)
    {
      assert ModuleCounted(live, clients, excess, multiset{}, q);
      SameOwnerSameLib(libs, lists, live, p, q);
    }
    assert ModuleShaped(libs, lists, live, p);
    forall k, y | k in clients' && y in clients'[k]
      ensures Loaded(lists, after, k, y)
    {
      if k == who && y == x {
        assert p in lists[who] && p in after && after[p].lib == x;
      } else {
        assert Loaded(lists, live, k, y);
      }
    }
  }

  /** The surplus recorded for pointers that are not in use does not matter. */
  lemma UnusedExcess(live: Heap, clients: Clients, excess: map<ModulePtr, nat>, debt: multiset<ModulePtr>,
                     p: ModulePtr, n: nat)
    requires CountsOk(live, clients, excess, debt) && p !in live
    ensures CountsOk(live, clients, excess[p := n], debt)
  {
    forall q | q in live
      ensures ModuleCounted(live, clients, excess[p := n], debt, q)
    {
      assert ModuleCounted(live, clients, excess, debt, q);
    }
  }

  ghost predicate Grew(shared: SharedMap, heap: Heap, shared': SharedMap, heap': Heap, q: ModulePtr) {
    q in heap ==>
      && q in heap' && heap'[q] == heap[q].(refcount := heap'[q].refcount, buffer := heap'[q].buffer)
      && heap[q].lib in shared && heap[q].lib in shared'
      && View(shared', heap', q) == View(shared, heap, q)
  }

  /** Loading adds modules; every module that was there is still there, with the same
      owner, library and dependencies, and is read as before. */
  ghost predicate Extends(shared: SharedMap, heap: Heap, shared': SharedMap, heap': Heap) {
    forall q {:trigger Grew(shared, heap, shared', heap', q)} :: Grew(shared, heap, shared', heap', q)
  }

  lemma ExtendsTwice(s0: SharedMap, h0: Heap, s1: SharedMap, h1: Heap, s2: SharedMap, h2: Heap)
    requires Extends(s0, h0, s1, h1) && Extends(s1, h1, s2, h2)
    ensures Extends(s0, h0, s2, h2)
  {
    forall q
      ensures Grew(s0, h0, s2, h2, q)
    {
      assert Grew(s0, h0, s1, h1, q) && Grew(s1, h1, s2, h2, q);
    }
  }

  lemma ExtendsRefl(libs: map<LibId, Library>, shared: SharedMap, heap: Heap)
    requires SharedOk(libs, shared, heap, multiset{})
    ensures Extends(shared, heap, shared, heap)
  {
  }

  /** A new module takes over the live section of its library: the values of whoever was
      current are saved, and the section is refilled from the pristine copy. */
  function Install(shared: SharedMap, heap: Heap, x: LibId, p: ModulePtr, m: Module): (SharedMap, Heap)
    requires x in shared
  {
    var s := shared[x];
    var saved := if s.current.Some? && s.current.value in heap
                 then heap[s.current.value := heap[s.current.value].(buffer := s.data)]
                 else heap;
    (shared[x := s.(refcount := s.refcount + 1, data := s.image, current := Some(p))], saved[p := m])
  }

  lemma InstallExtends(libs: map<LibId, Library>, shared: SharedMap, heap: Heap, x: LibId, p: ModulePtr, m: Module)
    requires SharedOk(libs, shared, heap, multiset{})
    requires x in shared && p !in heap && m.lib == x
    ensures var (shared', heap') := Install(shared, heap, x, p, m);
            && SharedOk(libs, shared', heap', multiset{})
            && Extends(shared, heap, shared', heap')
            && IsLive(shared', heap', p) && View(shared', heap', p) == shared[x].image
  {
    var (shared', heap') := Install(shared, heap, x, p, m);
    var s := shared[x];
    var saved := Without(heap', p);
    assert SharedShaped(libs, shared, heap, x);
    var counted := shared[x := s.(refcount := s.refcount + 1)];
    AddSharedRef(libs, shared, heap, multiset{}, x);
    AttachUser(libs, counted, heap, multiset{}, p, m) by {
      assert multiset{} + multiset{m.lib} == multiset{m.lib};
      assert multiset{} + multiset{x} == multiset{x};
    }
    InstallSections(libs, shared, heap, x, p, m);
    forall q
      ensures Grew(shared, heap, shared', heap', q)
    {
      if q in heap {
        assert SharedShaped(libs, shared, heap, heap[q].lib);
      }
    }
  }

  lemma InstallSections(libs: map<LibId, Library>, shared: SharedMap, heap: Heap, x: LibId, p: ModulePtr, m: Module)
    requires x in shared && p !in heap && m.lib == x
    requires SharedOk(libs, shared[x := shared[x].(refcount := shared[x].refcount + 1)], heap[p := m], multiset{})
    ensures var (shared', heap') := Install(shared, heap, x, p, m);
            SharedOk(libs, shared', heap', multiset{})
  {
    var (shared', heap') := Install(shared, heap, x, p, m);
    var counted := shared[x := shared[x].(refcount := shared[x].refcount + 1)];
    assert SharedShaped(libs, counted, heap[p := m], x);
    SharedCurrents(libs, counted, heap[p := m]);
    RewriteSections(libs, counted, shared', heap[p := m], heap', multiset{});
  }

  /** Only counts differ between the two stores. */
  ghost predicate CountsOnly(heap: Heap, heap': Heap) {
    heap'.Keys == heap.Keys && forall q | q in heap :: heap'[q] == heap[q].(refcount := heap'[q].refcount)
  }

  lemma CountsOnlyExtends(libs: map<LibId, Library>, shared: SharedMap, heap: Heap, heap': Heap)
    requires SharedOk(libs, shared, heap, multiset{}) && CountsOnly(heap, heap')
    ensures SharedOk(libs, shared, heap', multiset{})
    ensures Extends(shared, heap, shared, heap')
  {
    SharedCurrents(libs, shared, heap);
    RewriteSections(libs, shared, shared, heap, heap', multiset{});
  }

  lemma InstallKeepsModules(libs: map<LibId, Library>, lists: Lists, shared: SharedMap, heap: Heap, clients: Clients,
                            excess: map<ModulePtr, nat>, x: LibId, p: ModulePtr, m: Module)
    requires ModulesOk(libs, lists, heap, clients, excess, multiset{})
    requires x in shared && p !in heap
    ensures ModulesOk(libs, lists, Without(Install(shared, heap, x, p, m).1, p), clients, excess[p := 0], multiset{})
  {
    var rest := Without(Install(shared, heap, x, p, m).1, p);
    assert SameLinks(heap, rest);
    SameLinksShape(libs, lists, heap, rest, clients);
    SameCountsModules(heap, rest, clients, excess, multiset{});
    UnusedExcess(rest, clients, excess, multiset{}, p, 0);
  }

  ghost predicate OwnModule(live: Heap, who: LoaderId, x: LibId, p: ModulePtr) {
    p in live && live[p].owner == who && live[p].lib == x
  }

  lemma Listed(libs: map<LibId, Library>, lists: Lists, live: Heap, clients: Clients,
               excess: map<ModulePtr, nat>, debt: multiset<ModulePtr>, who: LoaderId)
    requires ModulesOk(libs, lists, live, clients, excess, debt) && who in lists
    ensures who in clients
    ensures forall i | 0 <= i < |lists[who]| :: lists[who][i] in live && live[lists[who][i]].owner == who
  {
    assert ListShaped(lists, live, who);
  }

  lemma ClientIsLoaded(libs: map<LibId, Library>, lists: Lists, live: Heap, clients: Clients,
                       excess: map<ModulePtr, nat>, who: LoaderId, x: LibId)
    requires ModulesOk(libs, lists, live, clients, excess, multiset{}) && who in clients && x in clients[who]
    ensures Loaded(lists, live, who, x)
  {
  }

  lemma WithoutUpdate<V>(m: map<nat, V>, p: nat, d: nat, v: V)
    requires d != p
    ensures Without(m[d := v], p) == Without(m, p)[d := v]
  {
  }

  lemma StillLoaded(s0: SharedMap, h0: Heap, s1: SharedMap, h1: Heap, p: ModulePtr, lists: Lists, who: LoaderId,
                    y: LibId)
    requires Loaded(lists, h0, who, y) && Extends(s0, h0, s1, h1) && p !in h0
    ensures Loaded(lists, Without(h1, p), who, y)
  {
    var q :| q in lists[who] && q in h0 && h0[q].lib == y;
    assert Grew(s0, h0, s1, h1, q);
    assert q in Without(h1, p);
  }

  /** The last step of adding a module: its dependencies are filled in. */
  lemma FinishModules(libs: map<LibId, Library>, lists: Lists, clients: Clients, excess: map<ModulePtr, nat>,
                      h2: Heap, p: ModulePtr, deps: seq<ModulePtr>)
    requires p in h2 && p in excess && excess[p] == h2[p].refcount
    requires ModulesOk(libs, lists, Without(h2, p), clients, excess, multiset(deps))
    requires var m := h2[p]; && m.lib in libs && m.owner in lists && |deps| == |libs[m.lib].deps|
                             && !Loaded(lists, Without(h2, p), m.owner, m.lib)
                             && forall i | 0 <= i < |deps| ::
                                  OwnModule(Without(h2, p), m.owner, libs[m.lib].deps[i], deps[i])
    ensures var m := h2[p];
            ModulesOk(libs, lists[m.owner := lists[m.owner] + [p]], h2[p := m.(deps := deps)], clients, excess,
                      multiset{})
  {
    hide ModulesOk;
    var m := h2[p].(deps := deps);
    var live := Without(h2, p);
    Listed(libs, lists, live, clients, excess, multiset(deps), m.owner);
    NotLoadedNoClient(libs, lists, live, clients, excess, multiset(deps), m.owner, m.lib);
    assert multiset{} + multiset(deps) == multiset(deps);
    AttachModule(libs, lists, live, clients, excess, multiset{}, p, m);
    assert live[p := m] == h2[p := m];
  }

  lemma NotLoadedNoClient(libs: map<LibId, Library>, lists: Lists, live: Heap, clients: Clients,
                          excess: map<ModulePtr, nat>, debt: multiset<ModulePtr>, who: LoaderId, x: LibId)
    requires ModulesOk(libs, lists, live, clients, excess, debt) && who in clients && !Loaded(lists, live, who, x)
    ensures x !in clients[who]
  {
  }

  lemma NotLoadedStill(s0: SharedMap, h0: Heap, s1: SharedMap, h1: Heap, h2: Heap, lists: Lists, p: ModulePtr,
                       who: LoaderId, y: LibId)
    requires Extends(s0, h0, s1, h1) && CountsOnly(h1, h2) && h1.Keys == h0.Keys + {p}
    requires !Loaded(lists, h0, who, y)
    ensures !Loaded(lists, Without(h2, p), who, y)
  {
    if who in lists {
      forall q | q in lists[who] && q in Without(h2, p)
        ensures h2[q].lib != y
      {
        assert Grew(s0, h0, s1, h1, q);
      }
    }
  }

  lemma SharedImage(libs: map<LibId, Library>, shared: SharedMap, users: Heap, debt: multiset<LibId>, x: LibId)
    requires SharedOk(libs, shared, users, debt) && x in shared
    ensures x in libs && shared[x].image == libs[x].image && shared[x].deps == libs[x].deps
  {
    assert SharedShaped(libs, shared, users, x);
  }

  lemma InstallInUse(shared: SharedMap, heap: Heap, x: LibId, p: ModulePtr, m: Module)
    requires x in shared && shared[x].refcount >= 0 && InUse(Without(shared, x))
    ensures InUse(Install(shared, heap, x, p, m).0)
  {
    var shared' := Install(shared, heap, x, p, m).0;
    forall y | y in shared'
      ensures shared'[y].refcount > 0
    {
      assert y != x ==> y in Without(shared, x);
    }
  }

  /** No surplus arises: known modules keep theirs, new ones have none. */
  ghost predicate NoNewSurplus(h0: Heap, e0: map<ModulePtr, nat>, h1: Heap, e1: map<ModulePtr, nat>) {
    forall q | q in h1 :: q in e1 && if q in h0 then q in e0 && e1[q] == e0[q] else e1[q] == 0
  }

  lemma SurplusKnown(libs: map<LibId, Library>, lists: Lists, live: Heap, clients: Clients, excess: map<ModulePtr, nat>,
                     debt: multiset<ModulePtr>)
    requires ModulesOk(libs, lists, live, clients, excess, debt)
    ensures NoNewSurplus(live, excess, live, excess)
  {
    forall p | p in live
      ensures p in excess
    {
      assert ModuleCounted(live, clients, excess, debt, p);
    }
  }

  lemma NoNewSurplusTwice(s0: SharedMap, h0: Heap, e0: map<ModulePtr, nat>, s1: SharedMap, h1: Heap,
                          e1: map<ModulePtr, nat>,
                          h2: Heap, e2: map<ModulePtr, nat>)
    requires Extends(s0, h0, s1, h1) && NoNewSurplus(h0, e0, h1, e1) && NoNewSurplus(h1, e1, h2, e2)
    ensures NoNewSurplus(h0, e0, h2, e2)
  {
    forall q | q in h2
      ensures q in e2 && if q in h0 then q in e0 && e2[q] == e0[q] else e2[q] == 0
    {
      assert Grew(s0, h0, s1, h1, q);
    }
  }

  /** The modules that were there keep their surplus. */
  ghost predicate OldSurplus(h0: Heap, e0: map<ModulePtr, nat>, e1: map<ModulePtr, nat>) {
    forall q | q in h0 :: q in e0 && q in e1 && e1[q] == e0[q]
  }

  /** A module in its initial state: in place, and reading as the pristine copy. */
  ghost predicate FreshModule(libs: map<LibId, Library>, shared: SharedMap, heap: Heap, who: LoaderId, x: LibId,
                              p: ModulePtr) {
    && x in libs && OwnModule(heap, who, x, p) && IsLive(shared, heap, p)
    && View(shared, heap, p) == libs[x].image
  }

  ghost predicate StaysLiveOne(shared: SharedMap, heap: Heap, shared': SharedMap, heap': Heap, who: LoaderId,
                               q: ModulePtr) {
    q in heap && heap[q].owner == who && IsLive(shared, heap, q) ==> IsLive(shared', heap', q)
  }

  /** What was in place for `who` still is. */
  ghost predicate StaysLive(shared: SharedMap, heap: Heap, shared': SharedMap, heap': Heap, who: LoaderId) {
    forall q {:trigger StaysLiveOne(shared, heap, shared', heap', who, q)} ::
      StaysLiveOne(shared, heap, shared', heap', who, q)
  }

  lemma StaysLiveRefl(shared: SharedMap, heap: Heap, who: LoaderId)
    ensures StaysLive(shared, heap, shared, heap, who)
  {
  }

  lemma LoadedIsShared(libs: map<LibId, Library>, shared: SharedMap, heap: Heap)
    requires SharedOk(libs, shared, heap, multiset{})
    ensures forall q | q in heap :: heap[q].lib in shared
  {
  }

  lemma StillInUse(shared: SharedMap, x: LibId)
    requires InUse(shared)
    ensures InUse(Without(shared, x))
  {
  }

  lemma DependenciesPresent(libs: map<LibId, Library>, shared: SharedMap, lists: Lists, heap: Heap, who: LoaderId,
                            x: LibId)
    requires SharedOk(libs, shared, heap, multiset{})
    requires x in libs && x !in shared
    requires Loaded(lists, heap, who, x)
             || forall i | 0 <= i < |libs[x].deps| :: Loaded(lists, heap, who, libs[x].deps[i])
    ensures forall q | q in heap :: heap[q].lib in shared
    ensures !Loaded(lists, heap, who, x)
    ensures forall i | 0 <= i < |libs[x].deps| :: libs[x].deps[i] in shared
  {
    forall i | 0 <= i < |libs[x].deps|
      ensures libs[x].deps[i] in shared
    {
      assert Loaded(lists, heap, who, libs[x].deps[i]);
    }
  }

  lemma NotLoadedNoModule(libs: map<LibId, Library>, lists: Lists, live: Heap, clients: Clients,
                          excess: map<ModulePtr, nat>, who: LoaderId, x: LibId)
    requires ModulesOk(libs, lists, live, clients, excess, multiset{}) && who in lists
    requires forall i | 0 <= i < |lists[who]| && lists[who][i] in live :: live[lists[who][i]].lib != x
    ensures !Loaded(lists, live, who, x)
    ensures forall q | q in live && live[q].owner == who :: live[q].lib != x
  {
    forall q | q in live && live[q].owner == who
      ensures live[q].lib != x
    {
      assert ModuleShaped(libs, lists, live, q);
      var i :| 0 <= i < |lists[who]| && lists[who][i] == q;
    }
  }

  lemma LoadedKeepsOthers(s0: SharedMap, h0: Heap, s1: SharedMap, s2: SharedMap, h2: Heap, who: LoaderId, x: LibId)
    requires forall y | y in s0 :: y in s1 && s1[y] == s0[y].(refcount := s1[y].refcount)
    requires s2.Keys == s1.Keys && forall y | y in s2 && y != x :: s2[y] == s1[y]
    requires Extends(s1, h0, s2, h2)
    requires forall q | q in h0 :: h0[q].lib in s0
    requires forall q | q in h0 && h0[q].owner == who :: h0[q].lib != x
    ensures Extends(s0, h0, s2, h2) && StaysLive(s0, h0, s2, h2, who)
  {
    forall q
      ensures Grew(s0, h0, s2, h2, q) && StaysLiveOne(s0, h0, s2, h2, who, q)
    {
      assert Grew(s1, h0, s2, h2, q);
    }
  }

  ghost predicate Ready(lists: Lists, heap: Heap, who: LoaderId, before: seq<LibId>, d: LibId) {
    Loaded(lists, heap, who, d) || d in before
  }

  ghost predicate LoadableAt(libs: map<LibId, Library>, lists: Lists, heap: Heap, who: LoaderId, order: seq<LibId>,
                             k: nat)
    requires k < |order|
  {
    && order[k] in libs
    && (Loaded(lists, heap, who, order[k]) ||
        forall i | 0 <= i < |libs[order[k]].deps| :: Ready(lists, heap, who, order[..k], libs[order[k]].deps[i]))
  }

  /** An order in which a process can load libraries: each one after its dependencies,
      unless the process has them already. */
  ghost predicate Loadable(libs: map<LibId, Library>, lists: Lists, heap: Heap, who: LoaderId, order: seq<LibId>) {
    forall k {:trigger LoadableAt(libs, lists, heap, who, order, k)} | 0 <= k < |order| ::
      LoadableAt(libs, lists, heap, who, order, k)
  }

  ghost predicate OnlyAppends(lists: Lists, lists': Lists, who: LoaderId) {
    && lists'.Keys == lists.Keys && who in lists && lists[who] <= lists'[who]
    && forall k | k in lists && k != who :: lists'[k] == lists[k]
  }

  ghost predicate FreshAt(libs: map<LibId, Library>, shared: SharedMap, heap: Heap, lists: Lists, who: LoaderId, i: nat)
    requires who in lists && i < |lists[who]|
  {
    var p := lists[who][i];
    p in heap && FreshModule(libs, shared, heap, who, heap[p].lib, p)
  }

  ghost predicate FreshFrom(libs: map<LibId, Library>, shared: SharedMap, heap: Heap, lists: Lists, who: LoaderId,
                            n: nat)
    requires who in lists
  {
    forall i: nat {:trigger FreshAt(libs, shared, heap, lists, who, i)} | n <= i < |lists[who]| ::
      FreshAt(libs, shared, heap, lists, who, i)
  }

  /** Modules from position n on are for libraries of the given order. */
  ghost predicate NewAmong(heap: Heap, lists: Lists, who: LoaderId, n: nat, order: seq<LibId>)
    requires who in lists
  {
    forall i: nat | n <= i < |lists[who]| :: lists[who][i] in heap && heap[lists[who][i]].lib in order
  }

  lemma LoadedIsListed(lists: Lists, heap: Heap, who: LoaderId, x: LibId)
    requires Loaded(lists, heap, who, x)
    ensures who in lists && exists i :: 0 <= i < |lists[who]| && lists[who][i] in heap && heap[lists[who][i]].lib == x
  {
  }

  lemma NothingNew(libs: map<LibId, Library>, shared: SharedMap, heap: Heap, lists: Lists, who: LoaderId,
                   order: seq<LibId>)
    requires SharedOk(libs, shared, heap, multiset{}) && who in lists
    ensures Extends(shared, heap, shared, heap) && StaysLive(shared, heap, shared, heap, who)
    ensures OnlyAppends(lists, lists, who)
    ensures FreshFrom(libs, shared, heap, lists, who, |lists[who]|) && NewAmong(heap, lists, who, |lists[who]|, order)
  {
  }

  /** One more entry of the order has been dealt with. */
  lemma LoadedOne(libs: map<LibId, Library>, l0: Lists, s0: SharedMap, h0: Heap, e0: map<ModulePtr, nat>,
                  l1: Lists, s1: SharedMap, h1: Heap, e1: map<ModulePtr, nat>, l2: Lists, s2: SharedMap, h2: Heap,
                  e2: map<ModulePtr, nat>,
                  who: LoaderId, order: seq<LibId>, k: nat, p: ModulePtr)
    requires OnlyAppends(l0, l1, who) && Extends(s0, h0, s1, h1) && StaysLive(s0, h0, s1, h1, who)
    requires NoNewSurplus(h0, e0, h1, e1) && NoNewSurplus(h1, e1, h2, e2)
    requires Extends(s1, h1, s2, h2) && StaysLive(s1, h1, s2, h2, who)
    requires FreshFrom(libs, s1, h1, l1, who, |l0[who]|) && NewAmong(h1, l1, who, |l0[who]|, order)
    requires k < |order| && Loaded(l2, h2, who, order[k])
    requires forall j | 0 <= j < k :: Loaded(l1, h1, who, order[j])
    requires l2 == l1 || (l2 == l1[who := l1[who] + [p]] && FreshModule(libs, s2, h2, who, order[k], p))
    ensures OnlyAppends(l0, l2, who) && Extends(s0, h0, s2, h2) && StaysLive(s0, h0, s2, h2, who)
    ensures NoNewSurplus(h0, e0, h2, e2)
    ensures FreshFrom(libs, s2, h2, l2, who, |l0[who]|) && NewAmong(h2, l2, who, |l0[who]|, order)
    ensures forall j | 0 <= j < k + 1 :: Loaded(l2, h2, who, order[j])
  {
    LoadStep(libs, l0, s0, h0, l1, s1, h1, l2, s2, h2, who);
    NoNewSurplusTwice(s0, h0, e0, s1, h1, e1, h2, e2);
    NewAmongStep(s1, h1, s2, h2, l1, l2, who, |l0[who]|, order, p);
    forall j | 0 <= j < k
      ensures Loaded(l2, h2, who, order[j])
    {
      LoadedLater(l1, s1, h1, l2, s2, h2, who, order[j]);
    }
  }

  lemma LoadedLater(l0: Lists, s0: SharedMap, h0: Heap, l1: Lists, s1: SharedMap, h1: Heap, who: LoaderId, y: LibId)
    requires Loaded(l0, h0, who, y) && Extends(s0, h0, s1, h1) && OnlyAppends(l0, l1, who)
    ensures Loaded(l1, h1, who, y)
  {
    var q :| q in l0[who] && q in h0 && h0[q].lib == y;
    assert Grew(s0, h0, s1, h1, q);
    assert q in l1[who];
  }

  lemma LoadableNow(libs: map<LibId, Library>, l0: Lists, s0: SharedMap, h0: Heap, l1: Lists, s1: SharedMap, h1: Heap,
                    who: LoaderId, order: seq<LibId>, k: nat)
    requires k < |order| && Loadable(libs, l0, h0, who, order)
    requires Extends(s0, h0, s1, h1) && OnlyAppends(l0, l1, who)
    requires forall j | 0 <= j < k :: Loaded(l1, h1, who, order[j])
    ensures order[k] in libs
    ensures Loaded(l1, h1, who, order[k])
            || forall i | 0 <= i < |libs[order[k]].deps| :: Loaded(l1, h1, who, libs[order[k]].deps[i])
  {
    assert LoadableAt(libs, l0, h0, who, order, k);
    if Loaded(l0, h0, who, order[k]) {
      LoadedLater(l0, s0, h0, l1, s1, h1, who, order[k]);
    } else {
      forall i | 0 <= i < |libs[order[k]].deps|
        ensures Loaded(l1, h1, who, libs[order[k]].deps[i])
      {
        var d := libs[order[k]].deps[i];
        assert Ready(l0, h0, who, order[..k], d);
        if Loaded(l0, h0, who, d) {
          LoadedLater(l0, s0, h0, l1, s1, h1, who, d);
        } else {
          var j :| 0 <= j < k && order[..k][j] == d;
          assert order[j] == d;
        }
      }
    }
  }

  lemma LoadStep(libs: map<LibId, Library>, l0: Lists, s0: SharedMap, h0: Heap, l1: Lists, s1: SharedMap, h1: Heap,
                 l2: Lists, s2: SharedMap, h2: Heap, who: LoaderId)
    requires OnlyAppends(l0, l1, who) && Extends(s0, h0, s1, h1) && StaysLive(s0, h0, s1, h1, who)
    requires Extends(s1, h1, s2, h2) && StaysLive(s1, h1, s2, h2, who)
    requires FreshFrom(libs, s1, h1, l1, who, |l0[who]|)
    requires l2 == l1 ||
             exists p, x :: l2 == l1[who := l1[who] + [p]] && FreshModule(libs, s2, h2, who, x, p)
    ensures OnlyAppends(l0, l2, who) && Extends(s0, h0, s2, h2) && StaysLive(s0, h0, s2, h2, who)
    ensures OnlyAppends(l1, l2, who)
    ensures FreshFrom(libs, s2, h2, l2, who, |l0[who]|)
  {
    ExtendsTwice(s0, h0, s1, h1, s2, h2);
    forall q
      ensures StaysLiveOne(s0, h0, s2, h2, who, q)
    {
      assert StaysLiveOne(s0, h0, s1, h1, who, q) && StaysLiveOne(s1, h1, s2, h2, who, q) && Grew(s0, h0, s1, h1, q);
    }
    forall i: nat | |l0[who]| <= i < |l2[who]|
      ensures FreshAt(libs, s2, h2, l2, who, i)
    {
      if i < |l1[who]| {
        var q := l1[who][i];
        assert l2[who][i] == q;
        assert FreshAt(libs, s1, h1, l1, who, i);
        assert Grew(s1, h1, s2, h2, q) && StaysLiveOne(s1, h1, s2, h2, who, q);
      }
    }
  }

  lemma CountsOnlyLoads(libs: map<LibId, Library>, s0: SharedMap, h0: Heap, s1: SharedMap, h1: Heap, h2: Heap,
                        lists: Lists, who: LoaderId, n: nat)
    requires Extends(s0, h0, s1, h1) && StaysLive(s0, h0, s1, h1, who) && CountsOnly(h1, h2)
    requires who in lists && FreshFrom(libs, s1, h1, lists, who, n)
    ensures Extends(s0, h0, s1, h2) && StaysLive(s0, h0, s1, h2, who)
    ensures FreshFrom(libs, s1, h2, lists, who, n)
  {
    forall q
      ensures Grew(s0, h0, s1, h2, q) && StaysLiveOne(s0, h0, s1, h2, who, q)
    {
      assert Grew(s0, h0, s1, h1, q) && StaysLiveOne(s0, h0, s1, h1, who, q);
    }
    forall i: nat | n <= i < |lists[who]|
      ensures FreshAt(libs, s1, h2, lists, who, i)
    {
      assert FreshAt(libs, s1, h1, lists, who, i);
    }
  }

  ghost predicate Spared(heap: Heap, heap': Heap, who: LoaderId, q: ModulePtr) {
    q in heap && heap[q].owner != who ==> q in heap' && heap'[q] == heap[q]
  }

  /** Modules of `who` may be gone; all other processes keep theirs and read the same. */
  ghost predicate Evicted(shared: SharedMap, heap: Heap, shared': SharedMap, heap': Heap, who: LoaderId) {
    && (forall q {:trigger Survives(shared, heap, shared', heap', q)} :: Survives(shared, heap, shared', heap', q))
    && (forall q {:trigger Spared(heap, heap', who, q)} :: Spared(heap, heap', who, q))
  }

  lemma EvictedStep(s0: SharedMap, h0: Heap, s1: SharedMap, h1: Heap, s2: SharedMap, h2: Heap, who: LoaderId, x: int)
    requires Evicted(s0, h0, s1, h1, who) && Unloaded(s1, h1, s2, h2, who, x)
    ensures Evicted(s0, h0, s2, h2, who)
  {
    forall q
      ensures Survives(s0, h0, s2, h2, q) && Spared(h0, h2, who, q)
    {
      assert Survives(s0, h0, s1, h1, q) && Survives(s1, h1, s2, h2, q);
      assert Spared(h0, h1, who, q) && Untouched(h1, h2, who, x, q);
    }
  }

  /** The first i modules of the process have been released. */
  ghost predicate Evicting(s0: SharedMap, h0: Heap, s1: SharedMap, h1: Heap, list: seq<ModulePtr>, who: LoaderId,
                           i: nat) {
    && Evicted(s0, h0, s1, h1, who) && i <= |list|
    && (forall j | 0 <= j < i :: list[j] !in h1)
    && (forall j | i <= j < |list| :: list[j] in h1 && h1[list[j]].owner == who)
  }

  lemma EvictingStarts(libs: map<LibId, Library>, lists: Lists, shared: SharedMap, heap: Heap, clients: Clients,
                       excess: map<ModulePtr, nat>, who: LoaderId)
    requires SharedOk(libs, shared, heap, multiset{}) && ModulesOk(libs, lists, heap, clients, excess, multiset{})
    requires who in lists
    ensures Evicting(shared, heap, shared, heap, lists[who], who, 0)
    ensures forall j, k | 0 <= j < k < |lists[who]| :: lists[who][j] != lists[who][k]
  {
    Listed(libs, lists, heap, clients, excess, multiset{}, who);
    DistinctList(libs, lists, heap, clients, excess, who);
    UnloadedRefl(libs, shared, heap, who, 0);
  }

  lemma EvictingAt(s0: SharedMap, h0: Heap, s1: SharedMap, h1: Heap, list: seq<ModulePtr>, who: LoaderId, i: nat)
    requires Evicting(s0, h0, s1, h1, list, who, i) && i < |list|
    ensures list[i] in h1 && h1[list[i]].owner == who
  {
  }

  lemma WithoutLess(heap: Heap, p: ModulePtr)
    ensures forall q | q in Without(heap, p) :: q in heap
  {
  }

  lemma EvictingNext(s0: SharedMap, h0: Heap, s1: SharedMap, h1: Heap, s2: SharedMap, h2: Heap, list: seq<ModulePtr>,
                     who: LoaderId, i: nat)
    requires Evicting(s0, h0, s1, h1, list, who, i) && i < |list|
    requires forall j, k | 0 <= j < k < |list| :: list[j] != list[k]
    requires list[i] in h1 && h2 == Without(h1, list[i]) && Unloaded(s1, h1, s2, h2, who, h1[list[i]].lib)
    ensures Evicting(s0, h0, s2, h2, list, who, i + 1)
  {
    hide Unloaded, Evicted;
    EvictedStep(s0, h0, s1, h1, s2, h2, who, h1[list[i]].lib);
  }

  lemma EvictingDone(libs: map<LibId, Library>, lists: Lists, s0: SharedMap, h0: Heap, s1: SharedMap, h1: Heap,
                     clients: Clients, excess: map<ModulePtr, nat>, who: LoaderId)
    requires ModulesOk(libs, lists, h0, clients, excess, multiset{}) && who in lists
    requires Evicting(s0, h0, s1, h1, lists[who], who, |lists[who]|)
    ensures Evicted(s0, h0, s1, h1, who) && forall q | q in h1 :: q in h0 && h1[q].owner != who
    ensures ModulesOk(libs, lists[who := []], h1, clients[who := multiset{}], excess, multiset{})
  {
    forall q | q in h1
      ensures q in h0 && h1[q].owner == h0[q].owner
    {
      assert Survives(s0, h0, s1, h1, q);
    }
    EvictModules(libs, lists, h0, h1, clients, excess, who);
  }

  lemma DistinctList(libs: map<LibId, Library>, lists: Lists, live: Heap, clients: Clients,
                     excess: map<ModulePtr, nat>, who: LoaderId)
    requires ModulesOk(libs, lists, live, clients, excess, multiset{}) && who in lists
    ensures forall i, j | 0 <= i < j < |lists[who]| :: lists[who][i] != lists[who][j]
    ensures forall q | q in live && live[q].owner == who :: q in lists[who]
  {
    assert ListShaped(lists, live, who);
    forall q | q in live && live[q].owner == who
      ensures q in lists[who]
    {
      assert ModuleShaped(libs, lists, live, q);
    }
  }

  /** With all modules of one process gone, the others are as consistent as before. */
  lemma EvictModules(libs: map<LibId, Library>, lists: Lists, h0: Heap, h1: Heap, clients: Clients,
                     excess: map<ModulePtr, nat>, who: LoaderId)
    requires ModulesOk(libs, lists, h0, clients, excess, multiset{}) && who in lists
    requires forall q | q in h1 :: q in h0 && h1[q].owner == h0[q].owner
    requires forall q {:trigger Spared(h0, h1, who, q)} :: Spared(h0, h1, who, q)
    requires forall j | 0 <= j < |lists[who]| :: lists[who][j] !in h1
    ensures ModulesOk(libs, lists[who := []], h1, clients[who := multiset{}], excess, multiset{})
    ensures forall q | q in h1 :: h1[q].owner != who
  {
    DistinctList(libs, lists, h0, clients, excess, who);
    forall q | q in h1
      ensures h1[q].owner != who && h1[q] == h0[q]
    {
      assert Spared(h0, h1, who, q);
    }
    var lists' := lists[who := []];
    forall q | q in h1
      ensures ModuleShaped(libs, lists', h1, q)
    {
      assert ModuleShaped(libs, lists, h0, q);
      forall i | 0 <= i < |h0[q].deps|
        ensures h0[q].deps[i] in h1
      {
        assert Spared(h0, h1, who, h0[q].deps[i]);
      }
    }
    forall q | q in h1
      ensures ModuleCounted(h1, clients[who := multiset{}], excess, multiset{}, q)
    {
      EvictCount(libs, lists, h0, h1, clients, excess, who, q);
    }
    forall k | k in lists'
      ensures ListShaped(lists', h1, k)
    {
      assert ListShaped(lists, h0, k);
      if k != who {
        forall j | 0 <= j < |lists[k]|
          ensures lists[k][j] in h1
        {
          assert Spared(h0, h1, who, lists[k][j]);
        }
      }
    }
    forall k, x | k in clients[who := multiset{}] && x in clients[who := multiset{}][k]
      ensures Loaded(lists', h1, k, x)
    {
      assert Loaded(lists, h0, k, x) && ListShaped(lists, h0, k);
      var q :| q in lists[k] && q in h0 && h0[q].lib == x;
      assert Spared(h0, h1, who, q);
      assert q in lists'[k] && q in h1;
    }
  }

  lemma EvictCount(libs: map<LibId, Library>, lists: Lists, h0: Heap, h1: Heap, clients: Clients,
                   excess: map<ModulePtr, nat>, who: LoaderId, q: ModulePtr)
    requires ModulesOk(libs, lists, h0, clients, excess, multiset{})
    requires q in h1 && forall p | p in h1 :: p in h0 && h1[p] == h0[p]
    requires forall p {:trigger Spared(h0, h1, who, p)} :: Spared(h0, h1, who, p)
    requires h0[q].owner != who
    ensures ModuleCounted(h1, clients[who := multiset{}], excess, multiset{}, q)
  {
    assert ModuleCounted(h0, clients, excess, multiset{}, q);
    forall s, i
      ensures (s, i) in InEdges(Links(h0), q) <==> (s, i) in InEdges(Links(h1), q)
    {
      if s in h0 && 0 <= i < |h0[s].deps| && h0[s].deps[i] == q {
        assert ModuleShaped(libs, lists, h0, s) && Spared(h0, h1, who, s);
      }
    }
    assert InEdges(Links(h0), q) == InEdges(Links(h1), q);
  }

  /** The address space is as it was, except for counts. */
  ghost predicate SameLive(shared: SharedMap, shared': SharedMap) {
    shared'.Keys == shared.Keys && forall x | x in shared :: shared'[x] == shared[x].(refcount := shared'[x].refcount)
  }

  lemma OneMoreReference(shared: SharedMap, x: LibId)
    requires x in shared
    ensures SameLive(shared, shared[x := shared[x].(refcount := shared[x].refcount + 1)])
  {
  }

  ghost predicate DepsLoaded(lists: Lists, heap: Heap, who: LoaderId, q: ModulePtr)
    requires q in heap
  {
    forall i | 0 <= i < |heap[q].deps| ::
      heap[q].deps[i] in heap && Loaded(lists, heap, who, heap[heap[q].deps[i]].lib)
  }

  /** c is the copy that process `who` has of module q: same library, the values that were
      in place, and for each dependency of q the process's own module of that library. */
  ghost predicate CopyOf(s0: SharedMap, h0: Heap, heap: Heap, who: LoaderId, q: ModulePtr, c: ModulePtr) {
    && q in h0 && h0[q].lib in s0 && c !in h0
    && OwnModule(heap, who, h0[q].lib, c)
    && heap[c].buffer == s0[h0[q].lib].data
    && |heap[c].deps| == |h0[q].deps|
    && forall i | 0 <= i < |h0[q].deps| ::
         h0[q].deps[i] in h0 && OwnModule(heap, who, h0[h0[q].deps[i]].lib, heap[c].deps[i])
  }

  lemma ShapeOf(libs: map<LibId, Library>, lists: Lists, live: Heap, clients: Clients, excess: map<ModulePtr, nat>,
                q: ModulePtr)
    requires ModulesOk(libs, lists, live, clients, excess, multiset{}) && q in live
    ensures live[q].owner in lists && q in lists[live[q].owner]
    ensures live[q].lib in libs && |live[q].deps| == |libs[live[q].lib].deps|
    ensures forall i | 0 <= i < |live[q].deps| ::
              live[q].deps[i] in live && live[live[q].deps[i]].lib == libs[live[q].lib].deps[i]
    ensures live[q].refcount >= 0
  {
    assert ModuleShaped(libs, lists, live, q) && ModuleCounted(live, clients, excess, multiset{}, q);
  }

  lemma CopyInstall(libs: map<LibId, Library>, lists: Lists, shared: SharedMap, heap: Heap, clients: Clients,
                    excess: map<ModulePtr, nat>, c: ModulePtr, m: Module)
    requires SharedOk(libs, shared, heap, multiset{}) && InUse(shared)
    requires ModulesOk(libs, lists, heap, clients, excess, multiset{})
    requires m.lib in shared && c !in heap && m.refcount >= 0
    ensures var shared' := shared[m.lib := shared[m.lib].(refcount := shared[m.lib].refcount + 1)];
            SharedOk(libs, shared', heap[c := m], multiset{}) && InUse(shared')
    ensures ModulesOk(libs, lists, Without(heap[c := m], c), clients, excess[c := m.refcount], multiset{})
  {
    AddSharedRef(libs, shared, heap, multiset{}, m.lib);
    var shared' := shared[m.lib := shared[m.lib].(refcount := shared[m.lib].refcount + 1)];
    assert multiset{} + multiset{m.lib} == multiset{m.lib};
    AttachUser(libs, shared', heap, multiset{}, c, m);
    assert Without(heap[c := m], c) == heap;
    UnusedExcess(heap, clients, excess, multiset{}, c, m.refcount);
  }

  function LibrariesOf(heap: Heap, deps: seq<ModulePtr>): (names: seq<LibId>)
    requires forall i | 0 <= i < |deps| :: deps[i] in heap
    ensures |names| == |deps| && forall i | 0 <= i < |deps| :: names[i] == heap[deps[i]].lib
  {
    if deps == [] then [] else LibrariesOf(heap, deps[..|deps| - 1]) + [heap[deps[|deps| - 1]].lib]
  }

  /** What has to be linked to a copy of q, and that `child` has it. */
  lemma NamesToLink(libs: map<LibId, Library>, shared: SharedMap, lists: Lists, heap: Heap, clients: Clients,
                    excess: map<ModulePtr, nat>,
                    child: LoaderId, q: ModulePtr)
    requires SharedOk(libs, shared, heap, multiset{}) && ModulesOk(libs, lists, heap, clients, excess, multiset{})
    requires q in heap && DepsLoaded(lists, heap, child, q)
    ensures heap[q].lib in shared && heap[q].lib in libs
    ensures forall i | 0 <= i < |heap[q].deps| :: heap[q].deps[i] in heap
    ensures var names := LibrariesOf(heap, heap[q].deps);
            names == libs[heap[q].lib].deps && forall i | 0 <= i < |names| :: Loaded(lists, heap, child, names[i])
  {
    LoadedIsShared(libs, shared, heap);
    ShapeOf(libs, lists, heap, clients, excess, q);
    var names := LibrariesOf(heap, heap[q].deps);
    assert names == libs[heap[q].lib].deps;
  }

  lemma NotLoadedAfterCounts(lists: Lists, h0: Heap, h1: Heap, who: LoaderId, y: LibId)
    requires !Loaded(lists, h0, who, y) && CountsOnly(h0, h1)
    ensures !Loaded(lists, h1, who, y)
  {
    if who in lists {
      forall q | q in lists[who] && q in h1
        ensures h1[q].lib != y
      {
        assert q in h0;
      }
    }
  }

  lemma CopyStore(libs: map<LibId, Library>, shared: SharedMap, h1: Heap, h2: Heap, c: ModulePtr, deps: seq<ModulePtr>)
    requires SharedOk(libs, shared, h1, multiset{}) && CountsOnly(h1, h2) && c in h2
    ensures SharedOk(libs, shared, h2[c := h2[c].(deps := deps)], multiset{})
  {
    SharedCurrents(libs, shared, h1);
    RewriteSections(libs, shared, shared, h1, h2[c := h2[c].(deps := deps)], multiset{});
  }

  ghost function CopyBlank(shared: SharedMap, heap: Heap, child: LoaderId, q: ModulePtr): Module
    requires q in heap && heap[q].lib in shared
  {
    Module(heap[q].lib, child, [], heap[q].refcount, shared[heap[q].lib].data)
  }

  lemma WithoutCounts(h1: Heap, h2: Heap, c: ModulePtr)
    requires CountsOnly(h1, h2)
    ensures CountsOnly(Without(h1, c), Without(h2, c))
  {
  }

  ghost predicate LinkedAt(h1: Heap, h2: Heap, c: ModulePtr, p: ModulePtr)
    requires c in h1
  {
    p in h1 && p != c ==>
      && p in h2 && h2[p] == h1[p].(refcount := h2[p].refcount)
      && (h1[p].owner != h1[c].owner ==> h2[p] == h1[p])
  }

  /** Module c got its dependencies, the process's own modules of the named libraries;
      apart from that only counts of the process's modules changed. */
  ghost predicate Linked(h1: Heap, h2: Heap, c: ModulePtr, names: seq<LibId>) {
    && h2.Keys == h1.Keys && c in h1
    && (forall p {:trigger LinkedAt(h1, h2, c, p)} :: LinkedAt(h1, h2, c, p))
    && h2[c] == h1[c].(deps := h2[c].deps) && |h2[c].deps| == |names|
    && forall i | 0 <= i < |names| :: OwnModule(h2, h1[c].owner, names[i], h2[c].deps[i])
  }

  lemma LinkedDone(h1: Heap, h2: Heap, c: ModulePtr, names: seq<LibId>, deps: seq<ModulePtr>)
    requires CountsOnly(h1, h2) && c in h1 && h2[c] == h1[c]
    requires forall p | p in h2 && h2[p].owner != h1[c].owner :: h2[p] == h1[p]
    requires |deps| == |names|
    requires forall i | 0 <= i < |deps| :: OwnModule(Without(h2, c), h1[c].owner, names[i], deps[i])
    ensures Linked(h1, h2[c := h2[c].(deps := deps)], c, names)
  {
  }

  lemma LinkedExtends(s0: SharedMap, h0: Heap, s1: SharedMap, h1: Heap, h2: Heap, c: ModulePtr, names: seq<LibId>)
    requires Extends(s0, h0, s1, h1) && c !in h0 && Linked(h1, h2, c, names)
    ensures Extends(s0, h0, s1, h2)
    ensures IsLive(s1, h1, c) ==> IsLive(s1, h2, c) && View(s1, h2, c) == View(s1, h1, c)
  {
    forall q
      ensures Grew(s0, h0, s1, h2, q)
    {
      assert Grew(s0, h0, s1, h1, q) && LinkedAt(h1, h2, c, q);
    }
  }

  ghost predicate CopiedAt(h0: Heap, h1: Heap, child: LoaderId, p: ModulePtr) {
    p in h0 ==>
      && p in h1 && h1[p] == h0[p].(refcount := h1[p].refcount)
      && (h0[p].owner != child ==> h1[p] == h0[p])
  }

  /** One module was added for `child`; only counts of the child's own modules changed. */
  ghost predicate CopiedHeap(h0: Heap, h1: Heap, child: LoaderId, c: ModulePtr) {
    && c !in h0 && h1.Keys == h0.Keys + {c}
    && forall p {:trigger CopiedAt(h0, h1, child, p)} :: CopiedAt(h0, h1, child, p)
  }

  lemma CopyDone(s0: SharedMap, h0: Heap, h3: Heap, child: LoaderId, q: ModulePtr, c: ModulePtr, names: seq<LibId>)
    requires q in h0 && h0[q].lib in s0 && c !in h0
    requires |names| == |h0[q].deps|
    requires forall i | 0 <= i < |names| :: h0[q].deps[i] in h0 && names[i] == h0[h0[q].deps[i]].lib
    requires Linked(h0[c := CopyBlank(s0, h0, child, q)], h3, c, names)
    ensures CopiedHeap(h0, h3, child, c) && CopyOf(s0, h0, h3, child, q, c)
  {
    forall p
      ensures CopiedAt(h0, h3, child, p)
    {
      assert LinkedAt(h0[c := CopyBlank(s0, h0, child, q)], h3, c, p);
    }
  }

  ghost predicate CopyAt(l0: Lists, s0: SharedMap, h0: Heap, lists: Lists, heap: Heap, parent: LoaderId,
                         child: LoaderId, j: nat)
    requires parent in l0 && child in lists && j < |l0[parent]| && j < |lists[child]|
  {
    CopyOf(s0, h0, heap, child, l0[parent][j], lists[child][j])
  }

  ghost predicate KeptAt(h0: Heap, heap: Heap, child: LoaderId, p: ModulePtr) {
    p in h0 ==> p in heap && heap[p] == h0[p] && h0[p].owner != child
  }

  /** The first n modules of `parent` have been copied for `child`; no module that was
      there before has changed in any way, and the live sections are as they were. */
  ghost predicate ForkedTo(l0: Lists, s0: SharedMap, h0: Heap, lists: Lists, shared: SharedMap, heap: Heap,
                           parent: LoaderId, child: LoaderId, n: nat) {
    && parent in l0 && child !in l0 && child in lists && n == |lists[child]| <= |l0[parent]|
    && lists == l0[child := lists[child]]
    && SameLive(s0, shared)
    && (forall j | 0 <= j < |l0[parent]| :: l0[parent][j] in h0)
    && (forall p {:trigger KeptAt(h0, heap, child, p)} :: KeptAt(h0, heap, child, p))
    && (forall p | p in heap && p !in h0 :: p in lists[child])
    && (forall j: nat {:trigger CopyAt(l0, s0, h0, lists, heap, parent, child, j)} | j < n ::
          CopyAt(l0, s0, h0, lists, heap, parent, child, j))
  }

  /** For now each copy's count is booked as surplus. */
  ghost predicate Surplus(h0: Heap, list: seq<ModulePtr>, lists: Lists, excess: map<ModulePtr, nat>, child: LoaderId,
                          n: nat) {
    && child in lists && n == |lists[child]| <= |list|
    && forall j: nat | j < n ::
         list[j] in h0 && lists[child][j] in excess && excess[lists[child][j]] == h0[list[j]].refcount
  }

  /** A process that starts without modules. */
  lemma NewLoaderShapes(libs: map<LibId, Library>, lists: Lists, heap: Heap, child: LoaderId)
    requires ShapesOk(libs, lists, heap) && child !in lists
    ensures ShapesOk(libs, lists[child := []], heap)
  {
    var lists' := lists[child := []];
    forall p | p in heap
      ensures ModuleShaped(libs, lists', heap, p)
    {
      assert ModuleShaped(libs, lists, heap, p);
    }
    forall k | k in lists'
      ensures ListShaped(lists', heap, k)
    {
      assert k != child ==> ListShaped(lists, heap, k);
    }
  }

  lemma NewLoader(libs: map<LibId, Library>, lists: Lists, heap: Heap, clients: Clients, excess: map<ModulePtr, nat>,
                  child: LoaderId)
    requires ModulesOk(libs, lists, heap, clients, excess, multiset{}) && child !in lists
    ensures ModulesOk(libs, lists[child := []], heap, clients[child := multiset{}], excess, multiset{})
  {
    NewLoaderShapes(libs, lists, heap, child);
    hide ShapesOk;
    var lists', clients' := lists[child := []], clients[child := multiset{}];
    forall p | p in heap
      ensures ModuleCounted(heap, clients', excess, multiset{}, p)
    {
      assert ModuleCounted(heap, clients, excess, multiset{}, p);
    }
    forall k, x | k in clients' && x in clients'[k]
      ensures Loaded(lists', heap, k, x)
    {
      assert Loaded(lists, heap, k, x);
    }
  }

  lemma ForkBegins(libs: map<LibId, Library>, lists: Lists, shared: SharedMap, heap: Heap, clients: Clients,
                   excess: map<ModulePtr, nat>, parent: LoaderId, child: LoaderId)
    requires ModulesOk(libs, lists, heap, clients, excess, multiset{})
    requires parent in lists && child !in lists
    ensures ForkedTo(lists, shared, heap, lists[child := []], shared, heap, parent, child, 0)
    ensures Surplus(heap, lists[parent], lists[child := []], excess, child, 0)
  {
    forall p | p in heap
      ensures KeptAt(heap, heap, child, p)
    {
      assert ModuleShaped(libs, lists, heap, p);
    }
    assert ListShaped(lists, heap, parent);
  }

  lemma NextToClone(libs: map<LibId, Library>, l0: Lists, s0: SharedMap, h0: Heap, lists: Lists, shared: SharedMap,
                    heap: Heap,
                    clients: Clients, excess: map<ModulePtr, nat>, parent: LoaderId, child: LoaderId, i: nat)
    requires ForkedTo(l0, s0, h0, lists, shared, heap, parent, child, i) && i < |l0[parent]|
    requires ModulesOk(libs, lists, heap, clients, excess, multiset{})
    ensures var q := l0[parent][i];
            && q in heap && heap[q] == h0[q] && heap[q].owner != child && heap[q].refcount >= 0
            && !Loaded(lists, heap, child, heap[q].lib) && DepsLoaded(lists, heap, child, q)
            && forall n | 0 <= n < |h0[q].deps| :: h0[q].deps[n] in h0
  {
    var list := l0[parent];
    var q := list[i];
    assert KeptAt(h0, heap, child, q);
    ShapeOf(libs, lists, heap, clients, excess, q);
    assert ListShaped(lists, heap, parent);
    forall c | c in lists[child] && c in heap
      ensures heap[c].lib != heap[q].lib
    {
      var j: nat :| j < i && lists[child][j] == c;
      assert CopyAt(l0, s0, h0, lists, heap, parent, child, j) && KeptAt(h0, heap, child, list[j]);
    }
    forall n | 0 <= n < |h0[q].deps|
      ensures h0[q].deps[n] in h0 && Loaded(lists, heap, child, heap[heap[q].deps[n]].lib)
    {
      var j: nat :| j < i && list[j] == heap[q].deps[n];
      assert CopyAt(l0, s0, h0, lists, heap, parent, child, j) && KeptAt(h0, heap, child, list[j]);
      assert lists[child][j] in lists[child];
    }
  }

  lemma StillCopy(s0: SharedMap, h0: Heap, h1: Heap, h2: Heap, child: LoaderId, q: ModulePtr, c: ModulePtr,
                  d: ModulePtr)
    requires CopyOf(s0, h0, h1, child, q, c) && CopiedHeap(h1, h2, child, d)
    ensures CopyOf(s0, h0, h2, child, q, c)
  {
    assert CopiedAt(h1, h2, child, c);
    forall i | 0 <= i < |h0[q].deps|
      ensures OwnModule(h2, child, h0[h0[q].deps[i]].lib, h2[c].deps[i])
    {
      assert CopiedAt(h1, h2, child, h1[c].deps[i]);
    }
  }

  lemma ClonedOne(l0: Lists, s0: SharedMap, h0: Heap, l1: Lists, s1: SharedMap, h1: Heap, e1: map<ModulePtr, nat>,
                  l2: Lists, s2: SharedMap, h2: Heap, e2: map<ModulePtr, nat>, parent: LoaderId, child: LoaderId,
                  i: nat, c: ModulePtr)
    requires ForkedTo(l0, s0, h0, l1, s1, h1, parent, child, i) && i < |l0[parent]|
    requires Surplus(h0, l0[parent], l1, e1, child, i)
    requires var q := l0[parent][i];
             && q in h1 && h1[q] == h0[q] && h0[q].refcount >= 0
             && (forall n | 0 <= n < |h0[q].deps| :: h0[q].deps[n] in h0)
             && CopyOf(s1, h1, h2, child, q, c) && CopiedHeap(h1, h2, child, c)
             && e2 == e1[c := h0[q].refcount]
    requires SameLive(s1, s2) && l2 == l1[child := l1[child] + [c]]
    ensures ForkedTo(l0, s0, h0, l2, s2, h2, parent, child, i + 1)
    ensures Surplus(h0, l0[parent], l2, e2, child, i + 1)
  {
    forall p
      ensures KeptAt(h0, h2, child, p)
    {
      assert KeptAt(h0, h1, child, p) && CopiedAt(h1, h2, child, p);
    }
    assert KeptAt(h0, h1, child, c);
    forall j: nat | j <= i
      ensures CopyAt(l0, s0, h0, l2, h2, parent, child, j)
    {
      if j < i {
        assert CopyAt(l0, s0, h0, l1, h1, parent, child, j);
        StillCopy(s0, h0, h1, h2, child, l0[parent][j], l1[child][j], c);
      } else {
        NewCopy(s0, h0, s1, h1, h2, child, l0[parent][i], c);
      }
    }
    forall j: nat | j < i
      ensures l1[child][j] in h1
    {
      assert CopyAt(l0, s0, h0, l1, h1, parent, child, j);
    }
  }

  lemma NewCopy(s0: SharedMap, h0: Heap, s1: SharedMap, h1: Heap, h2: Heap, child: LoaderId, q: ModulePtr, c: ModulePtr)
    requires CopyOf(s1, h1, h2, child, q, c) && SameLive(s0, s1)
    requires forall p {:trigger KeptAt(h0, h1, child, p)} :: KeptAt(h0, h1, child, p)
    requires q in h0 && forall n | 0 <= n < |h0[q].deps| :: h0[q].deps[n] in h0
    ensures CopyOf(s0, h0, h2, child, q, c)
  {
    assert KeptAt(h0, h1, child, q) && KeptAt(h0, h1, child, c);
    forall i | 0 <= i < |h0[q].deps|
      ensures OwnModule(h2, child, h0[h0[q].deps[i]].lib, h2[c].deps[i])
    {
      assert KeptAt(h0, h1, child, h0[q].deps[i]);
    }
  }

  /** What a forked process reads: for each library, the values that were in place when
      it was forked. */
  ghost predicate ChildReadsAt(l0: Lists, s0: SharedMap, h0: Heap, lists: Lists, shared: SharedMap, heap: Heap,
                               parent: LoaderId, child: LoaderId, j: nat) {
    parent in l0 && child in lists && j < |l0[parent]| && |lists[child]| == |l0[parent]| ==>
      var q, c := l0[parent][j], lists[child][j];
      && q in h0 && h0[q].lib in s0 && h0[q].lib in shared && c in heap && heap[c].lib == h0[q].lib
      && View(shared, heap, c) == s0[h0[q].lib].data
      && (IsLive(s0, h0, q) ==> View(shared, heap, c) == View(s0, h0, q))
  }

  ghost predicate ChildReads(l0: Lists, s0: SharedMap, h0: Heap, lists: Lists, shared: SharedMap, heap: Heap,
                             parent: LoaderId, child: LoaderId) {
    forall j: nat {:trigger ChildReadsAt(l0, s0, h0, lists, shared, heap, parent, child, j)} ::
      ChildReadsAt(l0, s0, h0, lists, shared, heap, parent, child, j)
  }

  lemma ForkReads(libs: map<LibId, Library>, l0: Lists, s0: SharedMap, h0: Heap, lists: Lists, shared: SharedMap,
                  heap: Heap,
                  parent: LoaderId, child: LoaderId)
    requires SharedOk(libs, s0, h0, multiset{}) && parent in l0
    requires ForkedTo(l0, s0, h0, lists, shared, heap, parent, child, |l0[parent]|)
    ensures Extends(s0, h0, shared, heap)
    ensures ChildReads(l0, s0, h0, lists, shared, heap, parent, child)
  {
    SharedCurrents(libs, s0, h0);
    forall q
      ensures Grew(s0, h0, shared, heap, q)
    {
      assert KeptAt(h0, heap, child, q);
    }
    forall j: nat
      ensures ChildReadsAt(l0, s0, h0, lists, shared, heap, parent, child, j)
    {
      if j < |l0[parent]| {
        assert CopyAt(l0, s0, h0, lists, heap, parent, child, j);
      }
    }
  }

  lemma CopiesOwned(libs: map<LibId, Library>, l0: Lists, s0: SharedMap, h0: Heap, lists: Lists, shared: SharedMap,
                    heap: Heap,
                    clients: Clients, excess: map<ModulePtr, nat>, parent: LoaderId, child: LoaderId,
                    c: ModulePtr) returns (j: nat)
    requires parent in l0 && ForkedTo(l0, s0, h0, lists, shared, heap, parent, child, |l0[parent]|)
    requires ModulesOk(libs, lists, heap, clients, excess, multiset{})
    requires c in heap && heap[c].owner == child
    ensures j < |l0[parent]| && |lists[child]| == |l0[parent]| && lists[child][j] == c && l0[parent][j] in h0
    ensures h0[l0[parent][j]].lib == heap[c].lib && parent in clients
    ensures h0[l0[parent][j]].refcount >= clients[parent][heap[c].lib]
  {
    ShapeOf(libs, lists, heap, clients, excess, c);
    j :| j < |l0[parent]| && lists[child][j] == c;
    var q := l0[parent][j];
    assert CopyAt(l0, s0, h0, lists, heap, parent, child, j) && KeptAt(h0, heap, child, q);
    assert ListShaped(lists, heap, parent) && ModuleCounted(heap, clients, excess, multiset{}, q);
  }

  /** The first i modules have been copied, and the surplus of the others is what it was. */
  ghost predicate Cloning(l0: Lists, s0: SharedMap, h0: Heap, e0: map<ModulePtr, nat>, lists: Lists, shared: SharedMap,
                          heap: Heap, excess: map<ModulePtr, nat>, parent: LoaderId, child: LoaderId, i: nat) {
    && ForkedTo(l0, s0, h0, lists, shared, heap, parent, child, i)
    && Surplus(h0, l0[parent], lists, excess, child, i) && OldSurplus(h0, e0, excess)
  }

  lemma CloningStarts(libs: map<LibId, Library>, lists: Lists, shared: SharedMap, heap: Heap, clients: Clients,
                      excess: map<ModulePtr, nat>, parent: LoaderId, child: LoaderId)
    requires parent in lists && child in lists && ModulesOk(libs, lists, heap, clients, excess, multiset{})
    requires ForkedTo(Without(lists, child), shared, heap, lists, shared, heap, parent, child, 0)
    requires Surplus(heap, lists[parent], lists, excess, child, 0)
    ensures var l0 := Without(lists, child);
            && parent in l0 && l0[parent] == lists[parent]
            && Cloning(l0, shared, heap, excess, lists, shared, heap, excess, parent, child, 0)
  {
    SurplusKnown(libs, lists, heap, clients, excess, multiset{});
  }

  lemma CloningMeans(l0: Lists, s0: SharedMap, h0: Heap, e0: map<ModulePtr, nat>, lists: Lists, shared: SharedMap,
                     heap: Heap, excess: map<ModulePtr, nat>, parent: LoaderId, child: LoaderId, i: nat)
    requires Cloning(l0, s0, h0, e0, lists, shared, heap, excess, parent, child, i)
    ensures ForkedTo(l0, s0, h0, lists, shared, heap, parent, child, i)
    ensures parent in l0 && Surplus(h0, l0[parent], lists, excess, child, i) && OldSurplus(h0, e0, excess)
  {
  }

  lemma CloningStep(libs: map<LibId, Library>, l0: Lists, s0: SharedMap, h0: Heap, e0: map<ModulePtr, nat>, l1: Lists,
                    s1: SharedMap, h1: Heap, e1: map<ModulePtr, nat>, clients: Clients, l2: Lists, s2: SharedMap,
                    h2: Heap, e2: map<ModulePtr, nat>, parent: LoaderId, child: LoaderId, i: nat, c: ModulePtr)
    requires Cloning(l0, s0, h0, e0, l1, s1, h1, e1, parent, child, i) && i < |l0[parent]|
    requires ModulesOk(libs, l1, h1, clients, e1, multiset{}) && c !in h1
    requires var q := l0[parent][i];
             && q in h1 && CopyOf(s1, h1, h2, child, q, c) && CopiedHeap(h1, h2, child, c)
             && h1[q].refcount >= 0 && e2 == e1[c := h1[q].refcount]
    requires child in l1 && SameLive(s1, s2) && l2 == l1[child := l1[child] + [c]]
    ensures Cloning(l0, s0, h0, e0, l2, s2, h2, e2, parent, child, i + 1)
  {
    hide ModulesOk, ForkedTo, Surplus, CopyOf, CopiedHeap, SameLive;
    NextToClone(libs, l0, s0, h0, l1, s1, h1, clients, e1, parent, child, i);
    ClonedOne(l0, s0, h0, l1, s1, h1, e1, l2, s2, h2, e2, parent, child, i, c);
    KeptBelow(l0, s0, h0, l1, s1, h1, parent, child, i, c);
  }

  lemma CloningNext(libs: map<LibId, Library>, l0: Lists, s0: SharedMap, h0: Heap, e0: map<ModulePtr, nat>,
                    lists: Lists, shared: SharedMap, heap: Heap, excess: map<ModulePtr, nat>, clients: Clients,
                    parent: LoaderId, child: LoaderId, i: nat)
    requires Cloning(l0, s0, h0, e0, lists, shared, heap, excess, parent, child, i) && i < |l0[parent]|
    requires ModulesOk(libs, lists, heap, clients, excess, multiset{})
    ensures var q := l0[parent][i];
            && q in heap && heap[q].owner != child && heap[q].refcount >= 0
            && child in lists && !Loaded(lists, heap, child, heap[q].lib) && DepsLoaded(lists, heap, child, q)
  {
    NextToClone(libs, l0, s0, h0, lists, shared, heap, clients, excess, parent, child, i);
  }

  lemma KeptBelow(l0: Lists, s0: SharedMap, h0: Heap, lists: Lists, shared: SharedMap, heap: Heap,
                  parent: LoaderId, child: LoaderId, n: nat, c: ModulePtr)
    requires ForkedTo(l0, s0, h0, lists, shared, heap, parent, child, n) && c !in heap
    ensures c !in h0
  {
    assert KeptAt(h0, heap, child, c);
  }

  ghost function Settled(heap: Heap, clients0: Clients, excess: map<ModulePtr, nat>, parent: LoaderId,
                         child: LoaderId): map<ModulePtr, nat>
    requires parent in clients0
  {
    map c | c in excess ::
      if c in heap && heap[c].owner == child && excess[c] >= clients0[parent][heap[c].lib]
      then excess[c] - clients0[parent][heap[c].lib]
      else excess[c]
  }

  /** The new process is a client of whatever its parent was a client of; the rest of the
      counts it inherited is surplus. */
  lemma SettleExcess(libs: map<LibId, Library>, l0: Lists, s0: SharedMap, h0: Heap, lists: Lists, shared: SharedMap,
                     heap: Heap,
                     clients0: Clients, clients: Clients, excess: map<ModulePtr, nat>, parent: LoaderId,
                     child: LoaderId)
    requires parent in l0 && ForkedTo(l0, s0, h0, lists, shared, heap, parent, child, |l0[parent]|)
    requires ModulesOk(libs, lists, heap, clients, excess, multiset{})
    requires ClientsOk(l0, h0, clients0) && clients == clients0[child := multiset{}]
    requires Surplus(h0, l0[parent], lists, excess, child, |l0[parent]|)
    ensures ModulesOk(libs, lists, heap, clients0[child := clients0[parent]],
                      Settled(heap, clients0, excess, parent, child), multiset{})
  {
    var settled := Settled(heap, clients0, excess, parent, child);
    var clients' := clients0[child := clients0[parent]];
    forall q | q in heap
      ensures ModuleCounted(heap, clients', settled, multiset{}, q)
    {
      assert ModuleCounted(heap, clients, excess, multiset{}, q);
      if heap[q].owner == child {
        var j := CopiesOwned(libs, l0, s0, h0, lists, shared, heap, clients, excess, parent, child, q);
      }
    }
    forall k, x | k in clients' && x in clients'[k]
      ensures Loaded(lists, heap, k, x)
    {
      if k == child {
        assert Loaded(l0, h0, parent, x);
        CopyIsLoaded(l0, s0, h0, lists, shared, heap, parent, child, x);
      } else {
        assert Loaded(lists, heap, k, x);
      }
    }
  }

  lemma SettledShares(libs: map<LibId, Library>, l0: Lists, s0: SharedMap, h0: Heap, lists: Lists, shared: SharedMap,
                      heap: Heap,
                      clients0: Clients, clients: Clients, excess: map<ModulePtr, nat>, parent: LoaderId,
                      child: LoaderId)
    requires parent in l0 && ForkedTo(l0, s0, h0, lists, shared, heap, parent, child, |l0[parent]|)
    requires ModulesOk(libs, lists, heap, clients, excess, multiset{})
    requires ClientsOk(l0, h0, clients0) && clients == clients0[child := multiset{}]
    requires Surplus(h0, l0[parent], lists, excess, child, |l0[parent]|)
    ensures OldSurplus(h0, excess, Settled(heap, clients0, excess, parent, child))
    ensures Inherits(l0, h0, clients0, lists, Settled(heap, clients0, excess, parent, child), parent, child)
  {
    var settled := Settled(heap, clients0, excess, parent, child);
    forall p | p in h0
      ensures p in excess && settled[p] == excess[p]
    {
      assert KeptAt(h0, heap, child, p) && ModuleCounted(heap, clients, excess, multiset{}, p);
    }
    forall j: nat | j < |l0[parent]|
      ensures InheritsAt(l0, h0, clients0, lists, settled, parent, child, j)
    {
      var q, c := l0[parent][j], lists[child][j];
      assert CopyAt(l0, s0, h0, lists, heap, parent, child, j) && KeptAt(h0, heap, child, q);
      assert ListShaped(lists, heap, parent) && ModuleCounted(heap, clients, excess, multiset{}, q);
    }
  }

  /** The surplus of a copy: all of the original's count that is not a client's. */
  ghost predicate InheritsAt(l0: Lists, h0: Heap, clients0: Clients, lists: Lists, excess: map<ModulePtr, nat>,
                             parent: LoaderId, child: LoaderId, j: nat) {
    parent in l0 && parent in clients0 && child in lists && j < |l0[parent]| && |lists[child]| == |l0[parent]| ==>
      var q, c := l0[parent][j], lists[child][j];
      q in h0 && c in excess && excess[c] == h0[q].refcount - clients0[parent][h0[q].lib]
  }

  ghost predicate Inherits(l0: Lists, h0: Heap, clients0: Clients, lists: Lists, excess: map<ModulePtr, nat>,
                           parent: LoaderId, child: LoaderId)
    requires parent in l0
  {
    forall j: nat {:trigger InheritsAt(l0, h0, clients0, lists, excess, parent, child, j)} | j < |l0[parent]| ::
      InheritsAt(l0, h0, clients0, lists, excess, parent, child, j)
  }

  lemma CopyIsLoaded(l0: Lists, s0: SharedMap, h0: Heap, lists: Lists, shared: SharedMap, heap: Heap,
                     parent: LoaderId, child: LoaderId, x: LibId)
    requires parent in l0 && ForkedTo(l0, s0, h0, lists, shared, heap, parent, child, |l0[parent]|)
    requires Loaded(l0, h0, parent, x)
    ensures Loaded(lists, heap, child, x)
  {
    var q :| q in l0[parent] && q in h0 && h0[q].lib == x;
    var j: nat :| j < |l0[parent]| && l0[parent][j] == q;
    assert CopyAt(l0, s0, h0, lists, heap, parent, child, j);
    assert lists[child][j] in lists[child];
  }

  lemma NewAmongStep(s1: SharedMap, h1: Heap, s2: SharedMap, h2: Heap, l1: Lists, l2: Lists, who: LoaderId, n: nat,
                     order: seq<LibId>, p: ModulePtr)
    requires who in l1 && n <= |l1[who]| && NewAmong(h1, l1, who, n, order) && Extends(s1, h1, s2, h2)
    requires l2 == l1 || (l2 == l1[who := l1[who] + [p]] && p in h2 && h2[p].lib in order)
    ensures NewAmong(h2, l2, who, n, order)
  {
    forall i: nat | n <= i < |l2[who]|
      ensures l2[who][i] in h2 && h2[l2[who][i]].lib in order
    {
      if i < |l1[who]| {
        assert Grew(s1, h1, s2, h2, l1[who][i]);
      }
    }
  }

  /** Nothing is kept without a reference to it. */
  ghost predicate AllReferenced(heap: Heap, flight: set<ModulePtr>) {
    forall q | q in heap && q !in flight :: heap[q].refcount > 0
  }

  /** Nothing that a process has is kept without a reference to it. */
  ghost predicate Referenced(heap: Heap, flight: set<ModulePtr>, who: LoaderId) {
    forall q | q in heap && q !in flight && heap[q].owner == who :: heap[q].refcount > 0
  }

  lemma EverybodyReferenced(heap: Heap)
    ensures AllReferenced(heap, {}) <==> forall who :: Referenced(heap, {}, who)
  {
    if forall who :: Referenced(heap, {}, who) {
      forall q | q in heap
        ensures heap[q].refcount > 0
      {
        assert Referenced(heap, {}, heap[q].owner);
      }
    }
  }

  /** The first dependencies of a new module have been found and counted. */
  ghost predicate LinkedSoFar(h0: Heap, h1: Heap, p: ModulePtr, who: LoaderId, names: seq<LibId>,
                              deps: seq<ModulePtr>) {
    && CountsOnly(h0, h1) && p in h0 && h1[p] == h0[p] && |deps| <= |names|
    && (forall q | q in h1 && h1[q].owner != who :: h1[q] == h0[q])
    && forall i | 0 <= i < |deps| :: OwnModule(Without(h1, p), who, names[i], deps[i])
  }

  lemma LinkNothing(heap: Heap, p: ModulePtr, who: LoaderId, names: seq<LibId>)
    requires p in heap
    ensures LinkedSoFar(heap, heap, p, who, names, [])
  {
  }

  function CountedOnceMore(heap: Heap, d: ModulePtr): Heap
    requires d in heap
  {
    heap[d := heap[d].(refcount := heap[d].refcount + 1)]
  }

  lemma LinkNext(h0: Heap, h1: Heap, p: ModulePtr, who: LoaderId, names: seq<LibId>, deps: seq<ModulePtr>, d: ModulePtr)
    requires LinkedSoFar(h0, h1, p, who, names, deps) && |deps| < |names|
    requires d in h1 && d != p && h1[d].owner == who && h1[d].lib == names[|deps|]
    ensures LinkedSoFar(h0, CountedOnceMore(h1, d), p, who, names, deps + [d])
  {
    var h2 := h1[d := h1[d].(refcount := h1[d].refcount + 1)];
    forall i | 0 <= i < |deps + [d]|
      ensures OwnModule(Without(h2, p), who, names[i], (deps + [d])[i])
    {
      if i < |deps| {
        assert OwnModule(Without(h1, p), who, names[i], deps[i]);
      }
    }
  }

  lemma LinkMeans(h0: Heap, h1: Heap, p: ModulePtr, who: LoaderId, names: seq<LibId>, deps: seq<ModulePtr>)
    requires LinkedSoFar(h0, h1, p, who, names, deps)
    ensures CountsOnly(h0, h1) && p in h1 && h1[p] == h0[p]
    ensures forall q | q in h1 && h1[q].owner != who :: h1[q] == h0[q]
    ensures |deps| <= |names| && forall i | 0 <= i < |deps| :: OwnModule(Without(h1, p), who, names[i], deps[i])
  {
  }

  ghost predicate AllLoaded(lists: Lists, heap: Heap, who: LoaderId, names: seq<LibId>) {
    forall i | 0 <= i < |names| :: Loaded(lists, heap, who, names[i])
  }

  ghost predicate HasModule(lists: Lists, heap: Heap, who: LoaderId, x: LibId)
    requires who in lists
  {
    exists i :: 0 <= i < |lists[who]| && lists[who][i] in heap && heap[lists[who][i]].lib == x
  }

  /** The next name is that of a library the process has. */
  lemma NextToLink(lists: Lists, h0: Heap, h1: Heap, p: ModulePtr, who: LoaderId, names: seq<LibId>,
                   deps: seq<ModulePtr>)
    requires LinkedSoFar(h0, h1, p, who, names, deps) && |deps| < |names| && who in lists
    requires AllLoaded(lists, Without(h0, p), who, names)
    ensures p in h1 && HasModule(lists, h1, who, names[|deps|])
  {
    assert Loaded(lists, Without(h0, p), who, names[|deps|]);
    var q :| q in lists[who] && q in Without(h0, p) && Without(h0, p)[q].lib == names[|deps|];
    var i :| 0 <= i < |lists[who]| && lists[who][i] == q;
  }

  /** Unloading leaves no process with a module without a reference if it had none; modules
      it finds without one stay, and so do those with a surplus. */
  ghost predicate Settles(h0: Heap, h1: Heap, excess: map<ModulePtr, nat>, flight: set<ModulePtr>) {
    && (forall who | Referenced(h0, flight, who) :: Referenced(h1, flight, who))
    && forall q | q in h0 && q !in flight && (h0[q].refcount == 0 || (q in excess && excess[q] > 0)) ::
         q in h1 && (h0[q].refcount == 0 ==> h1[q].refcount == 0)
  }

  lemma SettlesTwice(h0: Heap, h1: Heap, h2: Heap, excess: map<ModulePtr, nat>, flight: set<ModulePtr>)
    requires Settles(h0, h1, excess, flight) && Settles(h1, h2, excess, flight)
    ensures Settles(h0, h2, excess, flight)
  {
  }

  lemma SettlesRefl(h: Heap, excess: map<ModulePtr, nat>, flight: set<ModulePtr>)
    ensures Settles(h, h, excess, flight)
  {
  }

  /** A module loses a reference that is not its last. */
  lemma SettlesLower(h: Heap, excess: map<ModulePtr, nat>, flight: set<ModulePtr>, p: ModulePtr)
    requires p in h && h[p].refcount > 1
    ensures Settles(h, h[p := h[p].(refcount := h[p].refcount - 1)], excess, flight)
  {
  }

  /** It loses its last one, and is gone in the end. */
  lemma SettlesDetach(h0: Heap, h1: Heap, h2: Heap, excess: map<ModulePtr, nat>, flight: set<ModulePtr>, p: ModulePtr)
    requires p in h0 && h0[p].refcount > 0 && p in excess && excess[p] == 0 && p !in flight
    requires h1 == h0[p := h0[p].(refcount := h0[p].refcount - 1)]
    requires Settles(h1, h2, excess, flight + {p}) && p !in h2
    ensures Settles(h0, h2, excess, flight)
  {
    forall who | Referenced(h0, flight, who)
      ensures Referenced(h2, flight, who)
    {
      assert Referenced(h1, flight + {p}, who);
    }
  }

  lemma SettlesRelease(h0: Heap, h1: Heap, excess: map<ModulePtr, nat>, flight: set<ModulePtr>, p: ModulePtr)
    requires Settles(h0, h1, excess, flight) && p in flight
    ensures Settles(h0, Without(h1, p), excess, flight)
  {
  }

  /** What has happened so far, in an unload, to the modules that are not in flight. */
  ghost predicate Unloading(s0: SharedMap, h0: Heap, l0: Lists, s1: SharedMap, h1: Heap, l1: Lists, who: LoaderId,
                            x: int, excess: map<ModulePtr, nat>, flight: set<ModulePtr>) {
    && Unloaded(s0, h0, s1, h1, who, x) && OnlyShrinks(l0, l1, who) && Settles(h0, h1, excess, flight)
    && forall f | f in flight :: f in h0 && h0[f].lib > x && f in h1 && h1[f] == h0[f]
  }

  lemma UnloadingRefl(libs: map<LibId, Library>, shared: SharedMap, heap: Heap, lists: Lists, who: LoaderId, x: int,
                      excess: map<ModulePtr, nat>, flight: set<ModulePtr>)
    requires SharedOk(libs, shared, heap, multiset{}) && forall f | f in flight :: f in heap && heap[f].lib > x
    ensures Unloading(shared, heap, lists, shared, heap, lists, who, x, excess, flight)
  {
    UnloadedRefl(libs, shared, heap, who, x);
    ShrinksRefl(lists, who);
    SettlesRefl(heap, excess, flight);
  }

  lemma UnloadingOneMore(s0: SharedMap, h0: Heap, l0: Lists, s1: SharedMap, h1: Heap, l1: Lists, s2: SharedMap,
                         h2: Heap, l2: Lists, who: LoaderId, x: int, y: int, excess: map<ModulePtr, nat>,
                         flight: set<ModulePtr>)
    requires Unloading(s0, h0, l0, s1, h1, l1, who, x, excess, flight) && y <= x
    requires Unloaded(s1, h1, s2, h2, who, y) && OnlyShrinks(l1, l2, who) && Settles(h1, h2, excess, flight)
    ensures Unloading(s0, h0, l0, s2, h2, l2, who, x, excess, flight)
  {
    UnloadedOneMore(s0, h0, l0, s1, h1, l1, s2, h2, l2, who, x, y, flight);
    SettlesTwice(h0, h1, h2, excess, flight);
  }

  lemma UnloadingMeans(s0: SharedMap, h0: Heap, l0: Lists, s1: SharedMap, h1: Heap, l1: Lists, who: LoaderId, x: int,
                       excess: map<ModulePtr, nat>, flight: set<ModulePtr>)
    requires Unloading(s0, h0, l0, s1, h1, l1, who, x, excess, flight)
    ensures Unloaded(s0, h0, s1, h1, who, x) && OnlyShrinks(l0, l1, who) && Settles(h0, h1, excess, flight)
    ensures flight <= h1.Keys && forall f | f in flight :: f in h1 && h1[f].lib > x
  {
  }

  lemma AllOwed(deps: seq<ModulePtr>, debt: multiset<ModulePtr>)
    ensures deps[0..] == deps && debt + multiset(deps[|deps|..]) == debt
  {
  }

  /** The next reference to be given up is one to a module of the process, for a library
      below. */
  lemma NextOwed(libs: map<LibId, Library>, s0: SharedMap, h0: Heap, l0: Lists, s1: SharedMap, h1: Heap, l1: Lists,
                 clients: Clients, excess: map<ModulePtr, nat>, flight: set<ModulePtr>, debt: multiset<ModulePtr>,
                 who: LoaderId, x: LibId, deps: seq<ModulePtr>, k: nat)
    requires k < |deps| && ModulesOk(libs, l1, Minus(h1, flight), clients, excess, debt + multiset(deps[k..]))
    requires Unloading(s0, h0, l0, s1, h1, l1, who, x - 1, excess, flight) && Pending(h0, flight, who, x, deps)
    ensures var d := deps[k];
            && debt + multiset(deps[k..]) == debt + multiset(deps[k + 1..]) + multiset{d}
            && d in h1 && d !in flight && who in l1 && d in l1[who] && h1[d].lib < x
    ensures forall f | f in flight :: f in h1 && h1[f].lib >= x
  {
    hide ModulesOk, Unloaded;
    var d := deps[k];
    DropFirst(deps, k);
    assert d in debt + multiset(deps[k..]);
    OwedIsListed(libs, l1, Minus(h1, flight), clients, excess, debt + multiset(deps[k..]), d);
    UnloadedSurvivor(s0, h0, s1, h1, who, x - 1, d);
  }

  /** More files are known; what was known about the others stands. */
  ghost predicate Grows(libs: map<LibId, Library>, libs': map<LibId, Library>) {
    forall x | x in libs :: x in libs' && libs'[x] == libs[x]
  }

  lemma GrowsShared(libs: map<LibId, Library>, libs': map<LibId, Library>, live: SharedMap, users: Heap,
                    debt: multiset<LibId>)
    requires SharedOk(libs, live, users, debt) && Ranked(libs') && Grows(libs, libs')
    ensures SharedOk(libs', live, users, debt)
  {
    forall x | x in live
      ensures SharedShaped(libs', live, users, x)
    {
      assert SharedShaped(libs, live, users, x);
    }
  }

  lemma GrowsModules(libs: map<LibId, Library>, libs': map<LibId, Library>, lists: Lists, live: Heap, clients: Clients,
                     excess: map<ModulePtr, nat>, debt: multiset<ModulePtr>)
    requires ModulesOk(libs, lists, live, clients, excess, debt) && Grows(libs, libs')
    ensures ModulesOk(libs', lists, live, clients, excess, debt)
  {
    forall p | p in live
      ensures ModuleShaped(libs', lists, live, p)
    {
      assert ModuleShaped(libs, lists, live, p);
    }
  }
}
