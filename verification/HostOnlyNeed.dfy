/** A program linked against libm, on a host whose own libm needs x.  In the simulation libm
    is replaced (model/elf-cache.cc:22-34), by a library that needs nothing; x is loaded all
    the same, and for nobody. */
module HostOnlyNeed {
  import opened Options
  import opened Chains
  import opened DepthWalk
  import opened ElfLdd
  import opened SmallDirectories
  import ElfCache
  import ElfDependencies
  import LoadOrder
  import opened CoojaLoader
  import opened LoaderStore
  import opened LoaderRuns

  const HOST := Files({At("libm.so.6"), At("x")},
                      map[At("prog") := Needing(["libm.so.6"]), At("libm.so.6") := Needing(["x"]),
                          At("x") := Needing([])])

  lemma Apart()
    ensures At("prog") != At("libm.so.6") && At("prog") != At("x") && At("libm.so.6") != At("x")
  {
    AtApart("prog", "libm.so.6");
    AtApart("prog", "x");
    AtApart("libm.so.6", "x");
  }

  lemma HostNeeds(needs: Needs)
    requires GivenBy(HOST, At("prog"), needs)
    ensures needs.Keys == {At("prog"), At("libm.so.6"), At("x")} && |needs| == 3
    ensures needs[At("prog")] == {("libm.so.6", At("libm.so.6"))} && needs[At("libm.so.6")] == {("x", At("x"))}
    ensures needs[At("x")] == {}
  {
    hide At, ReachedIn, Found, AllFound, GivenBy;
    Apart();
    UsableHere(HOST, At("prog"));
    RootReached(HOST, At("prog"));
    LeadsTo(HOST, At("prog"), At("prog"), "libm.so.6");
    LeadsTo(HOST, At("prog"), At("libm.so.6"), "x");
    AllScanned(HOST, At("prog"), needs);
    assert HOST.elf.Keys == {At("prog"), At("libm.so.6"), At("x")};
  }

  lemma HostSettled(needs: Needs)
    requires GivenBy(HOST, At("prog"), needs)
    ensures At("prog") in needs && Walk(needs, At("prog"), |needs|) == Noted
  {
    hide At, GivenBy, Walk, Clean;
    HostNeeds(needs);
    CleanAbove(needs, At("x"));
    CleanAbove(needs, At("libm.so.6"));
    CleanAbove(needs, At("prog"));
    WalkDecides(needs, At("prog"));
  }

  // ---------- the list ----------

  const ORDERED := [Dependency("x", At("x")), Dependency("libm.so.6", At("libm.so.6")), Dependency("prog", At("prog"))]

  /** What is handed to the loader; the program stands in it twice. */
  const LISTED := ORDERED + [Dependency("prog", At("prog"))]

  const DEPTHS: map<string, nat> := map[At("x") := 0, At("libm.so.6") := 1, At("prog") := 2]

  lemma HostDepths(needs: Needs)
    requires GivenBy(HOST, At("prog"), needs)
    ensures DEPTHS.Keys == needs.Keys && forall p | p in needs :: Longest(Edges(needs), p, DEPTHS[p])
  {
    hide At, GivenBy, Longest;
    Apart();
    HostNeeds(needs);
    var g := Edges(needs);
    LongestLeaf(g, At("x"));
    assert g[At("libm.so.6")] == {At("x")} && g[At("prog")] == {At("libm.so.6")};
    LongestStep(g, At("libm.so.6"), map[At("x") := 0], 1);
    LongestStep(g, At("prog"), map[At("libm.so.6") := 1], 2);
  }

  /** A file found in the one directory was asked for by its own name. */
  lemma AskedByOwnName(u: Files, f: string, needs: Needs, r: string, n: string)
    requires OneDirectory(u) && GivenBy(u, At(f), needs) && needs.Keys <= u.elf.Keys
    requires AskedFor(u, f, At(f), needs.Keys, (r, At(n)))
    ensures r == n
  {
    if (r, At(n)) != (f, At(f)) {
      var q :| q in needs.Keys && (r, At(n)) in LibsOf(u, q);
      UsableHere(u, q);
      AtApart(r, n);
    } else {
      AtApart(f, n);
    }
  }

  lemma HostAsked(needs: Needs)
    requires GivenBy(HOST, At("prog"), needs)
    ensures forall i | 0 <= i < |ORDERED| ::
              AskedFor(HOST, "prog", At("prog"), needs.Keys, (ORDERED[i].required, ORDERED[i].found))
  {
    hide At, LibsOf;
    HostNeeds(needs);
    assert ("x", At("x")) in LibsOf(HOST, At("libm.so.6"));
    assert ("libm.so.6", At("libm.so.6")) in LibsOf(HOST, At("prog"));
  }

  lemma HostOrdered(needs: Needs)
    requires GivenBy(HOST, At("prog"), needs)
    ensures LoadingOrder(HOST, "prog", At("prog"), Edges(needs), DEPTHS, ORDERED)
  {
    hide At, GivenBy, Longest, AskedFor;
    Apart();
    HostNeeds(needs);
    HostDepths(needs);
    HostAsked(needs);
    assert ORDERED[0].found == At("x") && ORDERED[1].found == At("libm.so.6") && ORDERED[2].found == At("prog");
  }

  /** The resolver has no choice. */
  lemma HostList(needs: Needs, depths: map<string, nat>, list: seq<Dependency>)
    requires GivenBy(HOST, At("prog"), needs)
    requires LoadingOrder(HOST, "prog", At("prog"), Edges(needs), depths, list)
    ensures list == ORDERED
  {
    var s, f, g := "prog", At("prog"), Edges(needs);
    HostOrdered(needs);
    OneLoadingOrder(HOST, s, f, g, depths, list, DEPTHS, ORDERED, |list|);
    OneLoadingOrder(HOST, s, f, g, DEPTHS, ORDERED, depths, list, |ORDERED|);
    forall i | 0 <= i < |list|
      ensures list[i] == ORDERED[i]
    {
      EntryIsOwn(needs, depths, list, i);
    }
  }

  lemma EntryIsOwn(needs: Needs, depths: map<string, nat>, list: seq<Dependency>, i: nat)
    requires GivenBy(HOST, At("prog"), needs) && i < |list| && i < |ORDERED| && list[i].found == ORDERED[i].found
    requires LoadingOrder(HOST, "prog", At("prog"), Edges(needs), depths, list)
    ensures list[i] == ORDERED[i]
  {
    hide At, GivenBy, SortedBy, AskedFor, Longest;
    HostNeeds(needs);
    assert Edges(needs).Keys == needs.Keys;
    assert AskedFor(HOST, "prog", At("prog"), needs.Keys, (list[i].required, list[i].found));
    assert ORDERED[i].found == At(ORDERED[i].required);
    AskedByOwnName(HOST, "prog", needs, list[i].required, ORDERED[i].required);
  }

  lemma {:induction false} NothingIgnored(list: seq<Dependency>)
    requires forall k | 0 <= k < |list| :: !ElfDependencies.Ignored(list[k].required)
    ensures ElfDependencies.Filtered(list) == list
  {
    if list != [] {
      NothingIgnored(list[..|list| - 1]);
    }
  }

  lemma HostKept()
    ensures ElfDependencies.Filtered(ORDERED) == ORDERED
  {
    hide ElfDependencies.Filtered, ElfDependencies.Ignored;
    ElfDependencies.PlainIsKept("x");
    ElfDependencies.PlainIsKept("libm.so.6");
    ElfDependencies.PlainIsKept("prog");
    NothingIgnored(ORDERED);
  }

  /** What the resolver makes of the host's files. */
  method Gathered() returns (deps: seq<Dependency>)
    ensures deps == LISTED
  {
    hide Walk, GivenBy, LoadingOrder, Scans, ElfDependencies.Filtered, ElfDependencies.Tame, ElfDependencies.Ignored,
         ElfDependencies.SuppliedAt, At;
    ghost var r, needs, depths, list;
    r, deps, needs, depths, list := ElfDependencies.GatherDependencies(HOST, "prog", At("prog"));
    HostSettled(needs);
    HostList(needs, depths, list);
    HostKept();
  }

  // ---------- on a running system ----------

  lemma HostReached(p: string)
    ensures Reached(HOST, At("prog"), p) <==> p in HOST.elf
  {
    hide At, ReachedIn, Found, AllFound;
    Apart();
    UsableHere(HOST, At("prog"));
    RootReached(HOST, At("prog"));
    LeadsTo(HOST, At("prog"), At("prog"), "libm.so.6");
    LeadsTo(HOST, At("prog"), At("libm.so.6"), "x");
    ReachedCanBeRead(HOST, At("prog"), p);
    assert HOST.elf.Keys == {At("prog"), At("libm.so.6"), At("x")};
  }

  lemma ReachedCanBeRead(u: Files, f: string, p: string)
    ensures Reached(u, f, p) ==> p in u.elf
  {
    if Reached(u, f, p) {
      var n: nat :| ReachedIn(u, f, p, n);
    }
  }

  lemma HostGiven() returns (needs: Needs)
    ensures GivenBy(HOST, At("prog"), needs)
  {
    hide At, Reached;
    needs := NeedsOf(HOST, HOST.elf.Keys);
    forall p
      ensures p in needs <==> Reached(HOST, At("prog"), p)
    {
      HostReached(p);
    }
  }

  lemma HostTame()
    ensures ElfDependencies.Tame(HOST, "prog", At("prog"))
  {
    hide At, Reached, ElfDependencies.Ignored;
    ElfDependencies.PlainIsKept("prog");
    forall p | Reached(HOST, At("prog"), p)
      ensures p in HOST.elf && ElfDependencies.Plain(HOST.elf[p])
    {
      HostReached(p);
    }
  }

  lemma HostRunnable()
    ensures LoadOrder.Runnable(HOST, "prog", At("prog"))
  {
    var f := At("prog");
    hide At, Reached, Clean, Walk, GivenBy, Complete, Scans, CycleFrom, ElfDependencies.Tame;
    HostTame();
    UsableHere(HOST, f);
    var needs := HostGiven();
    HostSettled(needs);
    MissingWhen(HOST, f, needs);
    GivenGraph(HOST, f, needs);
    forall g | GraphOf(HOST, f, g)
      ensures g == Edges(needs)
    {
    }
  }

  type NeedsByName = map<string, seq<string>>

  lemma ReplacedMath()
    ensures ElfCache.Canon(ElfCache.OVERRIDDEN, "libm.so.6") == "libm-ns3.so"
  {
    hide ElfCache.Canon;
    ElfCache.CanonFirst(ElfCache.OVERRIDDEN, 3, "libm.so.6");
  }

  lemma NamesHere()
    ensures forall n | n in {"x", "libm.so.6", "prog"} :: ElfCache.GetBasename(At(n)) == n
    ensures forall n | n in {"x", "prog"} ::
              !ElfCache.Overrides(ElfCache.OVERRIDDEN, n) && ElfCache.Canon(ElfCache.OVERRIDDEN, n) == n
    ensures ElfCache.Canon(ElfCache.OVERRIDDEN, "libm.so.6") == "libm-ns3.so"
  {
    hide ElfCache.GetBasename, ElfCache.Canon;
    ElfCache.OverriddenLengths();
    ElfCache.NotReplaced(ElfCache.OVERRIDDEN, "x");
    ElfCache.NotReplaced(ElfCache.OVERRIDDEN, "prog");
    ReplacedMath();
    ElfCache.BasenameInDirectory(DIRECTORY, "x");
    ElfCache.BasenameInDirectory(DIRECTORY, "libm.so.6");
    ElfCache.BasenameInDirectory(DIRECTORY, "prog");
  }

  lemma OneId(files: LoadOrder.Stored, overridden: seq<ElfCache.Overriden>, origin: NeedsByName, last: nat, b: string,
              c: string)
    requires ElfCache.StoreOk(files, overridden, origin, last)
    requires ElfCache.IdOf(files, b).Some? && ElfCache.IdOf(files, b) == ElfCache.IdOf(files, c)
    ensures b == c
  {
    hide ElfCache.StoreOk, ElfCache.IdOf, ElfCache.Linked;
    LoadOrder.StoreAscends(files, overridden, origin, last);
    var i := LoadOrder.StoredAs(files, overridden, origin, last, b);
    var j := LoadOrder.StoredAs(files, overridden, origin, last, c);
  }

  /** A library is linked only to what its file names. */
  lemma NotNamed(files: LoadOrder.Stored, images: map<string, Section>, overridden: seq<ElfCache.Overriden>,
                 origin: NeedsByName, last: nat, b: string, c: string)
    requires ElfCache.StoreOk(files, overridden, origin, last)
    requires ElfCache.IdOf(files, b).Some? && ElfCache.IdOf(files, c).Some?
    requires b in origin ==> forall n | n in ElfCache.Kept(origin[b]) :: ElfCache.Canon(overridden, n) != c
    ensures var y, libs := ElfCache.IdOf(files, b).value, LoadOrder.Catalog(files, images);
            y in libs && ElfCache.IdOf(files, c).value !in libs[y].deps
  {
    hide ElfCache.StoreOk, ElfCache.IdOf, ElfCache.Canon, ElfCache.Kept, LoadOrder.Catalog;
    LoadOrder.StoreAscends(files, overridden, origin, last);
    var i := LoadOrder.StoredAs(files, overridden, origin, last, b);
    LoadOrder.CatalogAt(files, images, i);
    var deps := files[i].deps;
    forall m | 0 <= m < |deps|
      ensures deps[m] != ElfCache.IdOf(files, c).value
    {
      LoadOrder.LinkedGrows(files, i, overridden, deps, origin[b], m);
      var n := ElfCache.Canon(overridden, ElfCache.Kept(origin[b])[m]);
      if deps[m] == ElfCache.IdOf(files, c).value {
        OneId(files, overridden, origin, last, n, c);
      }
    }
  }

  /** What is not in store has not been loaded. */
  lemma NewIsNotLoaded(files: LoadOrder.Stored, more: LoadOrder.Stored, images: map<string, Section>,
                       origin: NeedsByName, last: nat, shared: SharedMap, lists: Lists, heap: Heap, who: LoaderId,
                       name: string)
    requires files <= more && ElfCache.StoreOk(more, ElfCache.OVERRIDDEN, origin, last)
    requires SharedOk(LoadOrder.Catalog(files, images), shared, heap, multiset{})
    requires !ElfCache.Has(files, name) && ElfCache.IdOf(more, name).Some?
    ensures !Loaded(lists, heap, who, ElfCache.IdOf(more, name).value)
  {
    hide ElfCache.StoreOk, ElfCache.IdOf, LoadOrder.Catalog;
    var x := ElfCache.IdOf(more, name).value;
    if Loaded(lists, heap, who, x) {
      assert SharedShaped(LoadOrder.Catalog(files, images), shared, heap, x);
      var i := LoadOrder.CatalogFrom(files, images, x);
      LoadOrder.StoreAscends(more, ElfCache.OVERRIDDEN, origin, last);
      var j := LoadOrder.StoredAs(more, ElfCache.OVERRIDDEN, origin, last, name);
    }
  }

  /** No file that comes to be linked needs x. */
  ghost predicate NobodyNeedsX(origin: NeedsByName) {
    && ("x" in origin ==> origin["x"] == []) && ("prog" in origin ==> origin["prog"] == ["libm.so.6"])
    && ("libm-ns3.so" in origin ==>
          forall n | n in ElfCache.Kept(origin["libm-ns3.so"]) :: ElfCache.Canon(ElfCache.OVERRIDDEN, n) != "x")
  }

  lemma HostIds(files: LoadOrder.Stored, order: seq<LibId>)
    requires LoadOrder.AllAdded(files, ElfCache.OVERRIDDEN, LISTED, order) && |order| == |LISTED|
    ensures ElfCache.IdOf(files, "x") == Some(order[0])
    ensures ElfCache.IdOf(files, "libm-ns3.so") == Some(order[1])
    ensures ElfCache.IdOf(files, "prog") == Some(order[2]) == Some(order[3])
  {
    hide At, ElfCache.IdOf, ElfCache.Canon, ElfCache.GetBasename;
    NamesHere();
    assert LoadOrder.AddedAt(files, ElfCache.OVERRIDDEN, LISTED, order, 0);
    assert LoadOrder.AddedAt(files, ElfCache.OVERRIDDEN, LISTED, order, 1);
    assert LoadOrder.AddedAt(files, ElfCache.OVERRIDDEN, LISTED, order, 2);
    assert LoadOrder.AddedAt(files, ElfCache.OVERRIDDEN, LISTED, order, 3);
  }

  lemma HostNotRooted(files: LoadOrder.Stored, images: map<string, Section>, origin: NeedsByName, last: nat,
                      order: seq<LibId>, lists: Lists, heap: Heap, who: LoaderId)
    requires ElfCache.StoreOk(files, ElfCache.OVERRIDDEN, origin, last) && NobodyNeedsX(origin)
    requires LoadOrder.AllAdded(files, ElfCache.OVERRIDDEN, LISTED, order) && |order| == |LISTED|
    requires !Loaded(lists, heap, who, order[0])
    ensures !Rooted(LoadOrder.Catalog(files, images), lists, heap, who, order)
  {
    hide At, ElfCache.StoreOk, ElfCache.IdOf, ElfCache.Canon, ElfCache.Kept, ElfCache.GetBasename, LoadOrder.Catalog,
         LoadOrder.AllAdded, Loaded;
    HostIds(files, order);
    NamesHere();
    NotNamed(files, images, ElfCache.OVERRIDDEN, origin, last, "x", "x");
    NotNamed(files, images, ElfCache.OVERRIDDEN, origin, last, "prog", "x");
    NotNamed(files, images, ElfCache.OVERRIDDEN, origin, last, "libm-ns3.so", "x");
    if order[0] == order[3] {
      OneId(files, ElfCache.OVERRIDDEN, origin, last, "x", "prog");
    }
    assert !NeededIn(LoadOrder.Catalog(files, images), order, order[0]);
  }

  /** A process that has the replacement of libm starts the program; nobody needs x for
      anything else.  The resolver's list is loaded as it stands, and afterwards there is a
      module that nobody holds. */
  method LoadHostProgram(session: Session, cache: ElfCache.ElfCache, images: map<string, Section>,
                         ghost needs: NeedsByName) returns (handle: LibId)
    requires session.Valid() && LoadOrder.InStep(session.rt, cache, images) && cache.overridden == ElfCache.OVERRIDDEN
    requires LoadOrder.Named(HOST, At("prog"), needs) && LoadOrder.Remembered(cache.origin, needs)
    requires LoadOrder.HasCopy(session.rt, cache, session.running, "libm-ns3.so") && !ElfCache.Has(cache.files, "x")
    requires "libm-ns3.so" in needs
             && forall n | n in ElfCache.Kept(needs["libm-ns3.so"]) :: ElfCache.Canon(ElfCache.OVERRIDDEN, n) != "x"
    requires AllReferenced(session.rt.heap, {})
    modifies session, session.rt, cache
    ensures session.Valid() && LoadOrder.InStep(session.rt, cache, images)
    ensures LoadOrder.Finds(cache, At("prog"), handle)
    ensures Loaded(session.rt.lists, session.rt.heap, session.running, handle)
    ensures !AllReferenced(session.rt.heap, {})
  {
    hide At, ElfCache.IdOf, ElfCache.Canon, ElfCache.Kept, ElfCache.GetBasename, ElfCache.StoreOk, LoadOrder.Catalog,
         LoadOrder.AllAdded, LoadOrder.Runnable, LoadOrder.Named, LoadOrder.Remembered, LoadOrder.Passive, Loaded,
         Rooted, AllReferenced, SharedOk, ModulesOk, InUse, IsRun, StepAgrees, ElfDependencies.Gathered, NobodyNeedsX,
         Reached;
    HostRunnable();
    HostProvided(session.rt, cache, session.running);
    ghost var files, rt := cache.files, session.rt;
    ghost var deps, order;
    handle, deps, order := LoadOrder.LoadFile(session, cache, HOST, "prog", At("prog"), images, needs);
    HostGathered(deps);
    HostOrigin(cache.origin, needs);
    HostIds(cache.files, order);
    NewIsNotLoaded(files, cache.files, images, cache.origin, cache.last, old(rt.shared), old(rt.lists), old(rt.heap),
                   session.running, "x");
    HostNotRooted(cache.files, images, cache.origin, cache.last, order, old(rt.lists), old(rt.heap), session.running);
  }

  lemma HostProvided(rt: CoojaRuntime, cache: ElfCache.ElfCache, who: LoaderId)
    requires cache.overridden == ElfCache.OVERRIDDEN && LoadOrder.HasCopy(rt, cache, who, "libm-ns3.so")
    ensures forall p | Reached(HOST, At("prog"), p) :: LoadOrder.ProvidedFor(rt, cache, who, ElfCache.GetBasename(p))
  {
    hide At, Reached, ElfCache.IdOf, ElfCache.Canon, ElfCache.GetBasename, ElfCache.Overrides, Loaded;
    NamesHere();
    forall p | Reached(HOST, At("prog"), p)
      ensures LoadOrder.ProvidedFor(rt, cache, who, ElfCache.GetBasename(p))
    {
      HostReached(p);
    }
  }

  lemma HostGathered(deps: seq<Dependency>)
    requires ElfDependencies.Gathered(HOST, "prog", At("prog"), deps)
    ensures deps == LISTED
  {
    hide At, GivenBy, LoadingOrder, ElfDependencies.Filtered;
    var needs, depths, list :| GivenBy(HOST, At("prog"), needs)
                               && LoadingOrder(HOST, "prog", At("prog"), Edges(needs), depths, list)
                               && deps == ElfDependencies.Filtered(list) + [Dependency("prog", At("prog"))];
    HostList(needs, depths, list);
    HostKept();
  }

  lemma HostOrigin(origin: NeedsByName, needs: NeedsByName)
    requires LoadOrder.Named(HOST, At("prog"), needs) && LoadOrder.Remembered(origin, needs)
    requires "libm-ns3.so" in needs
             && forall n | n in ElfCache.Kept(needs["libm-ns3.so"]) :: ElfCache.Canon(ElfCache.OVERRIDDEN, n) != "x"
    ensures NobodyNeedsX(origin)
  {
    hide At, Reached, ElfCache.GetBasename, ElfCache.Canon, ElfCache.Kept;
    NamesHere();
    Apart();
    HostReached(At("x"));
    HostReached(At("prog"));
    assert LoadOrder.NamedAt(HOST, needs, At("x")) && LoadOrder.NamedAt(HOST, needs, At("prog"));
  }

  const HOST_NAMES: NeedsByName := map["libm-ns3.so" := [], "x" := [], "libm.so.6" := ["x"], "prog" := ["libm.so.6"]]

  lemma HostNamed()
    ensures LoadOrder.Named(HOST, At("prog"), HOST_NAMES)
  {
    hide At, Reached, ElfCache.GetBasename;
    NamesHere();
    Apart();
    forall p | Reached(HOST, At("prog"), p)
      ensures LoadOrder.NamedAt(HOST, HOST_NAMES, p)
    {
      HostReached(p);
    }
  }

  /** The cache with the replacement of libm, added first. */
  method ReplacementStored() returns (cache: ElfCache.ElfCache, id: LibId)
    ensures fresh(cache) && cache.Valid() && cache.overridden == ElfCache.OVERRIDDEN
    ensures |cache.files| == 1 && cache.files[0].basename == "libm-ns3.so" && cache.files[0].id == id
    ensures cache.files[0].deps == [] && cache.origin == map["libm-ns3.so" := []]
    ensures ElfCache.IdOf(cache.files, "libm-ns3.so") == Some(id)
  {
    hide At, ElfCache.Canon, ElfCache.GetBasename;
    cache := new ElfCache.ElfCache();
    ElfCache.OverriddenLengths();
    ElfCache.NotReplaced(ElfCache.OVERRIDDEN, "libm-ns3.so");
    ElfCache.BasenameInDirectory(DIRECTORY, "libm-ns3.so");
    var added := cache.Add(DIRECTORY + "libm-ns3.so", []);
    assert added.Some? && cache.files == [added.value];
    assert ElfCache.FileOk(cache.files, cache.overridden, cache.origin, cache.last, 0);
    id := added.value.id;
  }

  /** It does happen, from the very beginning. */
  method FromTheBeginning(images: map<string, Section>) returns (session: Session)
    ensures session.Valid() && !AllReferenced(session.rt.heap, {})
  {
    hide At, ElfCache.IdOf, ElfCache.Canon, ElfCache.GetBasename, ElfCache.StoreOk, LoadOrder.Named, Loaded, Rooted,
         SharedOk, ModulesOk, InUse, IsRun, StepAgrees, LoadOrder.Catalog;
    session := new Session(0);
    NothingUnreferenced();
    var cache, id := ReplacementStored();
    OneLibrary(cache.files, images, cache.origin, cache.last, id, session.rt.lists, session.rt.heap, 0);
    var h := LoadOrder.EditAndLoad(session, LoadOrder.Catalog(cache.files, images), [id]);
    HostNamed();
    var handle := LoadHostProgram(session, cache, images, HOST_NAMES);
  }

  lemma NothingUnreferenced()
    ensures AllReferenced(map[], {})
  {
  }

  lemma OneLibrary(files: LoadOrder.Stored, images: map<string, Section>, origin: NeedsByName, last: nat, id: LibId,
                   lists: Lists, heap: Heap, who: LoaderId)
    requires |files| == 1 && files[0].id == id && files[0].deps == []
    requires ElfCache.StoreOk(files, ElfCache.OVERRIDDEN, origin, last)
    ensures var libs := LoadOrder.Catalog(files, images);
            Ranked(libs) && Grows(map[], libs) && Loadable(libs, lists, heap, who, [id])
            && Rooted(libs, lists, heap, who, [id])
  {
    hide ElfCache.StoreOk, LoadOrder.Catalog, Loaded;
    LoadOrder.CatalogRanked(files, images, ElfCache.OVERRIDDEN, origin, last);
    LoadOrder.StoreAscends(files, ElfCache.OVERRIDDEN, origin, last);
    LoadOrder.CatalogAt(files, images, 0);
    assert LoadableAt(LoadOrder.Catalog(files, images), lists, heap, who, [id], 0);
  }
}
