/** From a file name to a running copy.  The list of a file's dependencies is added to the
    cache entry by entry and loaded in the same order; every look-up of a dependency on the
    way - in the cache, among the shared modules, among the modules of the process - finds
    what it looks for (model/cooja-loader-factory.cc:219-288, model/dce-manager.cc:1191-1282). */
module LoadOrder {
  import opened Options
  import Chains
  import DepthWalk
  import ElfLdd
  import ElfDependencies
  import ElfCache
  import opened LoaderStore
  import opened CoojaLoader
  import opened LoaderRuns

  type Stored = seq<ElfCache.CachedFile>
  type NeedsByName = map<string, seq<string>>

  /** What the loader is told about the stored files; a library is in its pristine state
      after it was opened. */
  function Catalog(files: Stored, images: map<string, Section>): map<LibId, Library> {
    if files == [] then map[]
    else
      var e := files[|files| - 1];
      var image := if e.basename in images then images[e.basename] else Section([]);
      Catalog(files[..|files| - 1], images)[e.id := Library(image, e.deps)]
  }

  lemma {:induction false} CatalogFrom(files: Stored, images: map<string, Section>, x: LibId) returns (i: nat)
    requires x in Catalog(files, images)
    ensures i < |files| && files[i].id == x && Catalog(files, images)[x].deps == files[i].deps
  {
    if x == files[|files| - 1].id {
      i := |files| - 1;
    } else {
      i := CatalogFrom(files[..|files| - 1], images, x);
    }
  }

  ghost predicate Ascending(files: Stored) {
    forall i, j | 0 <= i < j < |files| :: files[i].id < files[j].id
  }

  lemma {:induction false} CatalogAt(files: Stored, images: map<string, Section>, i: nat)
    requires Ascending(files) && i < |files|
    ensures files[i].id in Catalog(files, images) && Catalog(files, images)[files[i].id].deps == files[i].deps
    ensures files[i].basename in images ==> Catalog(files, images)[files[i].id].image == images[files[i].basename]
    ensures files[i].basename !in images ==> Catalog(files, images)[files[i].id].image == Section([])
  {
    if i < |files| - 1 {
      assert Ascending(files[..|files| - 1]);
      CatalogAt(files[..|files| - 1], images, i);
    }
  }

  lemma StoreAscends(files: Stored, overridden: seq<ElfCache.Overriden>, origin: NeedsByName, last: nat)
    requires ElfCache.StoreOk(files, overridden, origin, last)
    ensures Ascending(files)
  {
    forall i, j | 0 <= i < j < |files|
      ensures files[i].id < files[j].id
    {
      assert ElfCache.FileOk(files, overridden, origin, last, j);
    }
  }

  /** Ids are handed out before, and dependencies looked up among, what comes later: so
      the ids of dependencies are smaller. */
  lemma CatalogRanked(files: Stored, images: map<string, Section>, overridden: seq<ElfCache.Overriden>,
                      origin: NeedsByName, last: nat)
    requires ElfCache.StoreOk(files, overridden, origin, last)
    ensures Ranked(Catalog(files, images))
  {
    StoreAscends(files, overridden, origin, last);
    var libs := Catalog(files, images);
    forall x
      ensures RankedAt(libs, x)
    {
      if x in libs {
        var i := CatalogFrom(files, images, x);
        assert ElfCache.FileOk(files, overridden, origin, last, i);
        forall k | 0 <= k < |libs[x].deps|
          ensures libs[x].deps[k] < x && libs[x].deps[k] in libs
        {
          var name := ElfCache.Canon(overridden, ElfCache.Kept(origin[files[i].basename])[k]);
          var j :| 0 <= j < i && files[..i][j].basename == name && files[..i][j].id == libs[x].deps[k];
          CatalogAt(files, images, j);
        }
      }
    }
  }

  lemma {:induction false} CatalogGrows(files: Stored, more: Stored, images: map<string, Section>)
    requires files <= more && Ascending(more)
    ensures Grows(Catalog(files, images), Catalog(more, images))
  {
    if |files| < |more| {
      var init := more[..|more| - 1];
      assert Ascending(init);
      CatalogGrows(files, init, images);
      forall x | x in Catalog(init, images)
        ensures x != more[|more| - 1].id
      {
        var i := CatalogFrom(init, images, x);
      }
    } else {
      assert files == more;
    }
  }

  // ---------- adding a list to the cache ----------

  /** If a name is overridden, the replacement was stored before. */
  ghost predicate Replaced(files: Stored, overridden: seq<ElfCache.Overriden>, name: string) {
    ElfCache.Overrides(overridden, name) ==> ElfCache.Has(files, ElfCache.Canon(overridden, name))
  }

  ghost predicate NamedAt(u: ElfLdd.Files, needs: NeedsByName, p: string) {
    p in u.elf ==> ElfCache.GetBasename(p) in needs && needs[ElfCache.GetBasename(p)] == u.elf[p].needed
  }

  /** Everybody agrees on what a file of a given basename needs, among those that f leads
      to. */
  ghost predicate Named(u: ElfLdd.Files, f: string, needs: NeedsByName) {
    forall p | ElfLdd.Reached(u, f, p) :: NamedAt(u, needs, p)
  }

  ghost predicate Remembered(origin: NeedsByName, needs: NeedsByName) {
    forall b | b in origin :: b in needs && origin[b] == needs[b]
  }

  ghost predicate AddedAt(files: Stored, overridden: seq<ElfCache.Overriden>, deps: seq<ElfLdd.Dependency>,
                          order: seq<LibId>, k: nat)
    requires k < |order| <= |deps|
  {
    ElfCache.IdOf(files, ElfCache.Canon(overridden, ElfCache.GetBasename(deps[k].found))) == Some(order[k])
  }

  ghost predicate AllAdded(files: Stored, overridden: seq<ElfCache.Overriden>, deps: seq<ElfLdd.Dependency>,
                           order: seq<LibId>) {
    |order| <= |deps| &&
    forall k: nat {:trigger AddedAt(files, overridden, deps, order, k)} | k < |order| ::
      AddedAt(files, overridden, deps, order, k)
  }

  ghost predicate AllReplaced(files: Stored, overridden: seq<ElfCache.Overriden>, deps: seq<ElfLdd.Dependency>) {
    forall k | 0 <= k < |deps| :: Replaced(files, overridden, ElfCache.GetBasename(deps[k].found))
  }

  lemma HasGrows(files: Stored, more: Stored, name: string)
    requires ElfCache.Has(files, name) && files <= more
    ensures ElfCache.Has(more, name) && ElfCache.IdOf(more, name) == ElfCache.IdOf(files, name)
  {
    assert more == files + more[|files|..];
    ElfCache.IdOfGrows(files, more[|files|..], name);
    var i :| 0 <= i < |files| && files[i].basename == name;
    assert more[i].basename == name;
  }

  lemma AllAddedGrows(files: Stored, more: Stored, overridden: seq<ElfCache.Overriden>, deps: seq<ElfLdd.Dependency>,
                      order: seq<LibId>)
    requires AllAdded(files, overridden, deps, order) && files <= more
    ensures AllAdded(more, overridden, deps, order)
  {
    forall k: nat {:trigger AddedAt(more, overridden, deps, order, k)} | k < |order|
      ensures AddedAt(more, overridden, deps, order, k)
    {
      assert AddedAt(files, overridden, deps, order, k);
      HasGrows(files, more, ElfCache.Canon(overridden, ElfCache.GetBasename(deps[k].found)));
    }
  }

  /** When its turn comes, everything a file needs is in store, or its replacement is. */
  lemma TurnHasCome(u: ElfLdd.Files, files: Stored, overridden: seq<ElfCache.Overriden>, deps: seq<ElfLdd.Dependency>,
                    order: seq<LibId>)
    requires AllAdded(files, overridden, deps, order) && |order| < |deps|
    requires ElfDependencies.SuppliedAt(u, deps, |order|)
    ensures ElfCache.Editable(files, overridden, u.elf[deps[|order|].found].needed)
  {
    var k := |order|;
    forall n | n in ElfCache.Kept(u.elf[deps[k].found].needed)
      ensures ElfCache.Has(files, ElfCache.Canon(overridden, n))
    {
      assert ElfDependencies.EarlierHas(deps, k, n);
      var j: nat :| j < k && ElfCache.GetBasename(deps[j].found) == n;
      assert AddedAt(files, overridden, deps, order, j);
    }
  }

  /** Adds the files of a list to the cache, in order; no assertion can fail. */
  method AddAll(cache: ElfCache.ElfCache, u: ElfLdd.Files, deps: seq<ElfLdd.Dependency>,
                ghost needs: NeedsByName) returns (order: seq<LibId>)
    requires cache.Valid() && AllReplaced(cache.files, cache.overridden, deps)
    requires forall k | 0 <= k < |deps| :: ElfDependencies.SuppliedAt(u, deps, k) && NamedAt(u, needs, deps[k].found)
    requires Remembered(cache.origin, needs)
    modifies cache
    ensures cache.Valid() && old(cache.files) <= cache.files && Remembered(cache.origin, needs)
    ensures |order| == |deps| && AllAdded(cache.files, cache.overridden, deps, order)
  {
    order := [];
    for k := 0 to |deps|
      invariant cache.Valid() && old(cache.files) <= cache.files && Remembered(cache.origin, needs)
      invariant |order| == k && AllAdded(cache.files, cache.overridden, deps, order)
    {
      assert ElfDependencies.SuppliedAt(u, deps, k);
      TurnHasCome(u, cache.files, cache.overridden, deps, order);
      label before:
      var cached := AddOne(cache, u, deps[k].found, old(cache.files), needs);
      AllAddedGrows(old@before(cache.files), cache.files, cache.overridden, deps, order);
      ghost var sofar := order;
      order := order + [cached.id];
      AllAddedNext(cache.files, cache.overridden, deps, sofar, cached.id);
    }
  }

  method AddOne(cache: ElfCache.ElfCache, u: ElfLdd.Files, found: string, ghost base: Stored, ghost needs: NeedsByName)
    returns (cached: ElfCache.CachedFile)
    requires cache.Valid() && base <= cache.files && found in u.elf
    requires Replaced(base, cache.overridden, ElfCache.GetBasename(found))
    requires ElfCache.Editable(cache.files, cache.overridden, u.elf[found].needed)
    requires NamedAt(u, needs, found) && Remembered(cache.origin, needs)
    modifies cache
    ensures cache.Valid() && old(cache.files) <= cache.files && Remembered(cache.origin, needs)
    ensures ElfCache.IdOf(cache.files, ElfCache.Canon(cache.overridden, ElfCache.GetBasename(found))) == Some(cached.id)
  {
    hide ElfCache.StoreOk, ElfCache.Editable, ElfCache.IdOf, ElfCache.Canon, ElfCache.GetBasename, ElfCache.Overrides;
    ghost var name := ElfCache.Canon(cache.overridden, ElfCache.GetBasename(found));
    if ElfCache.Overrides(cache.overridden, ElfCache.GetBasename(found)) {
      HasGrows(base, cache.files, name);
    }
    var added := cache.Add(found, u.elf[found].needed);
    cached := added.value;
  }

  lemma AllAddedNext(files: Stored, overridden: seq<ElfCache.Overriden>, deps: seq<ElfLdd.Dependency>,
                     order: seq<LibId>, id: LibId)
    requires AllAdded(files, overridden, deps, order) && |order| < |deps|
    requires ElfCache.IdOf(files, ElfCache.Canon(overridden, ElfCache.GetBasename(deps[|order|].found))) == Some(id)
    ensures AllAdded(files, overridden, deps, order + [id])
  {
    var order' := order + [id];
    forall k: nat {:trigger AddedAt(files, overridden, deps, order', k)} | k < |order'|
      ensures AddedAt(files, overridden, deps, order', k)
    {
      if k < |order| {
        assert AddedAt(files, overridden, deps, order, k);
      }
    }
  }

  // ---------- the order can be loaded ----------

  /** The process has a copy of whatever replaces the file. */
  ghost predicate Provided(files: Stored, overridden: seq<ElfCache.Overriden>, lists: Lists, heap: Heap,
                           who: LoaderId, name: string) {
    ElfCache.Overrides(overridden, name) ==>
      ElfCache.IdOf(files, ElfCache.Canon(overridden, name)).Some? &&
      Loaded(lists, heap, who, ElfCache.IdOf(files, ElfCache.Canon(overridden, name)).value)
  }

  ghost predicate AllProvided(files: Stored, overridden: seq<ElfCache.Overriden>, deps: seq<ElfLdd.Dependency>,
                              lists: Lists, heap: Heap, who: LoaderId) {
    forall k | 0 <= k < |deps| :: Provided(files, overridden, lists, heap, who, ElfCache.GetBasename(deps[k].found))
  }

  lemma StoredAs(files: Stored, overridden: seq<ElfCache.Overriden>, origin: NeedsByName, last: nat,
                 name: string) returns (i: nat)
    requires ElfCache.StoreOk(files, overridden, origin, last) && ElfCache.Has(files, name)
    ensures i < |files| && files[i].basename == name && ElfCache.IdOf(files, name) == Some(files[i].id)
    ensures name in origin && ElfCache.Linked(files[..i], overridden, files[i].deps, origin[name])
  {
    i :| 0 <= i < |files| && files[i].basename == name;
    assert ElfCache.FileOk(files, overridden, origin, last, i);
    ElfCache.IdOfAt(files, i);
  }

  lemma LinkedGrows(files: Stored, i: nat, overridden: seq<ElfCache.Overriden>, deps: seq<nat>, needed: seq<string>,
                    m: nat)
    requires i <= |files| && ElfCache.Linked(files[..i], overridden, deps, needed) && m < |deps|
    ensures ElfCache.IdOf(files, ElfCache.Canon(overridden, ElfCache.Kept(needed)[m])) == Some(deps[m])
  {
    HasGrows(files[..i], files, ElfCache.Canon(overridden, ElfCache.Kept(needed)[m]));
  }

  /** The dependencies of the k-th library are earlier in the order, unless they are
      replacements, which the process has already. */
  lemma OrderIsLoadableAt(u: ElfLdd.Files, files: Stored, overridden: seq<ElfCache.Overriden>, origin: NeedsByName,
                          last: nat, needs: NeedsByName, images: map<string, Section>, deps: seq<ElfLdd.Dependency>,
                          order: seq<LibId>, lists: Lists, heap: Heap, who: LoaderId, k: nat)
    requires ElfCache.StoreOk(files, overridden, origin, last) && Remembered(origin, needs)
    requires AllAdded(files, overridden, deps, order) && |order| == |deps| && k < |deps|
    requires ElfDependencies.SuppliedAt(u, deps, k) && NamedAt(u, needs, deps[k].found)
    requires AllProvided(files, overridden, deps, lists, heap, who)
    ensures LoadableAt(Catalog(files, images), lists, heap, who, order, k)
  {
    hide ElfCache.StoreOk, ElfCache.Canon, ElfCache.IdOf, ElfCache.GetBasename, ElfCache.Linked, Loaded, ElfCache.Kept;
    StoreAscends(files, overridden, origin, last);
    assert AddedAt(files, overridden, deps, order, k);
    var p := deps[k].found;
    var basename := ElfCache.GetBasename(p);
    var name := ElfCache.Canon(overridden, basename);
    var i := StoredAs(files, overridden, origin, last, name);
    CatalogAt(files, images, i);
    assert Provided(files, overridden, lists, heap, who, basename);
    if !ElfCache.Overrides(overridden, basename) {
      ElfCache.CanonCases(overridden, basename);
      var needed := u.elf[p].needed;
      assert origin[name] == needed;
      forall m | 0 <= m < |files[i].deps|
        ensures Ready(lists, heap, who, order[..k], files[i].deps[m])
      {
        DependencyReady(u, files, overridden, deps, order, lists, heap, who, k, i, needed, m);
      }
    }
  }

  lemma DependencyReady(u: ElfLdd.Files, files: Stored, overridden: seq<ElfCache.Overriden>,
                        deps: seq<ElfLdd.Dependency>, order: seq<LibId>, lists: Lists, heap: Heap, who: LoaderId,
                        k: nat, i: nat, needed: seq<string>, m: nat)
    requires AllAdded(files, overridden, deps, order) && |order| == |deps| && k < |deps|
    requires ElfDependencies.SuppliedAt(u, deps, k) && needed == u.elf[deps[k].found].needed
    requires AllProvided(files, overridden, deps, lists, heap, who)
    requires i < |files| && ElfCache.Linked(files[..i], overridden, files[i].deps, needed) && m < |files[i].deps|
    ensures Ready(lists, heap, who, order[..k], files[i].deps[m])
  {
    hide ElfCache.Canon, ElfCache.IdOf, ElfCache.GetBasename, Loaded, ElfCache.Kept;
    var n := ElfCache.Kept(needed)[m];
    LinkedGrows(files, i, overridden, files[i].deps, needed, m);
    assert ElfDependencies.EarlierHas(deps, k, n);
    var j: nat :| j < k && ElfCache.GetBasename(deps[j].found) == n;
    assert AddedAt(files, overridden, deps, order, j);
    assert order[..k][j] == order[j];
  }

  lemma OrderIsLoadable(u: ElfLdd.Files, files: Stored, overridden: seq<ElfCache.Overriden>, origin: NeedsByName,
                        last: nat, needs: NeedsByName, images: map<string, Section>, deps: seq<ElfLdd.Dependency>,
                        order: seq<LibId>, lists: Lists, heap: Heap, who: LoaderId)
    requires ElfCache.StoreOk(files, overridden, origin, last) && Remembered(origin, needs)
    requires AllAdded(files, overridden, deps, order) && |order| == |deps|
    requires forall k | 0 <= k < |deps| :: ElfDependencies.SuppliedAt(u, deps, k) && NamedAt(u, needs, deps[k].found)
    requires AllProvided(files, overridden, deps, lists, heap, who)
    ensures Loadable(Catalog(files, images), lists, heap, who, order)
  {
    forall k: nat {:trigger LoadableAt(Catalog(files, images), lists, heap, who, order, k)} | k < |order|
      ensures LoadableAt(Catalog(files, images), lists, heap, who, order, k)
    {
      assert ElfDependencies.SuppliedAt(u, deps, k);
      OrderIsLoadableAt(u, files, overridden, origin, last, needs, images, deps, order, lists, heap, who, k);
    }
  }

  // ---------- nothing is loaded for nobody ----------

  /** What a file needs for itself is replaced too. */
  ghost predicate StandsAside(u: ElfLdd.Files, overridden: seq<ElfCache.Overriden>, p: string) {
    p in u.elf ==> forall n | n in ElfCache.Kept(u.elf[p].needed) :: ElfCache.Overrides(overridden, n)
  }

  /** Files that are replaced, and the dynamic linker, bring in no library of their own. */
  ghost predicate Passive(u: ElfLdd.Files, f: string, overridden: seq<ElfCache.Overriden>) {
    forall p | ElfLdd.Reached(u, f, p)
             && (ElfCache.Overrides(overridden, ElfCache.GetBasename(p)) ||
                 (p != f && ElfCache.Linker(ElfCache.GetBasename(p)))) ::
      StandsAside(u, overridden, p)
  }

  /** What a file in the list needs is a dependency of its library. */
  lemma NeededOfEntry(u: ElfLdd.Files, files: Stored, overridden: seq<ElfCache.Overriden>, origin: NeedsByName,
                      last: nat, needs: NeedsByName, images: map<string, Section>, deps: seq<ElfLdd.Dependency>,
                      order: seq<LibId>, j: nat, k: nat)
    requires ElfCache.StoreOk(files, overridden, origin, last) && Remembered(origin, needs)
    requires AllAdded(files, overridden, deps, order) && |order| == |deps| && j < |deps| && k < |deps|
    requires deps[j].found in u.elf && NamedAt(u, needs, deps[j].found)
    requires !ElfCache.Overrides(overridden, ElfCache.GetBasename(deps[j].found))
    requires ElfCache.GetBasename(deps[k].found) in ElfCache.Kept(u.elf[deps[j].found].needed)
    ensures NeededIn(Catalog(files, images), order, order[k])
  {
    hide ElfCache.StoreOk, ElfCache.Canon, ElfCache.IdOf, ElfCache.GetBasename, ElfCache.Kept;
    StoreAscends(files, overridden, origin, last);
    assert AddedAt(files, overridden, deps, order, j) && AddedAt(files, overridden, deps, order, k);
    var q := deps[j].found;
    var name := ElfCache.GetBasename(q);
    ElfCache.CanonCases(overridden, name);
    var i := StoredAs(files, overridden, origin, last, name);
    var needed := u.elf[q].needed;
    assert origin[name] == needed;
    var t :| 0 <= t < |ElfCache.Kept(needed)| && ElfCache.Kept(needed)[t] == ElfCache.GetBasename(deps[k].found);
    LinkedGrows(files, i, overridden, files[i].deps, needed, t);
    CatalogAt(files, images, i);
    assert order[k] in files[i].deps;
  }

  lemma EntryIsRooted(u: ElfLdd.Files, s: string, f: string, g: map<string, set<string>>, depths: map<string, nat>,
                      list: seq<ElfLdd.Dependency>, files: Stored, overridden: seq<ElfCache.Overriden>,
                      origin: NeedsByName, last: nat, needs: NeedsByName, images: map<string, Section>,
                      deps: seq<ElfLdd.Dependency>, order: seq<LibId>, lists: Lists, heap: Heap, who: LoaderId,
                      k: nat)
    requires ElfDependencies.Regular(u, s, f) && ElfLdd.GraphOf(u, f, g)
             && ElfLdd.LoadingOrder(u, s, f, g, depths, list)
    requires deps == ElfDependencies.Filtered(list) + [ElfLdd.Dependency(s, f)]
    requires ElfCache.StoreOk(files, overridden, origin, last) && Named(u, f, needs) && Remembered(origin, needs)
    requires AllAdded(files, overridden, deps, order) && |order| == |deps| && k < |deps|
    requires AllProvided(files, overridden, deps, lists, heap, who) && Passive(u, f, overridden)
    ensures Loaded(lists, heap, who, order[k]) || order[k] == order[|order| - 1]
         || NeededIn(Catalog(files, images), order, order[k])
  {
    hide ElfDependencies.Regular, ElfLdd.LoadingOrder, ElfCache.StoreOk, ElfCache.Canon, ElfCache.IdOf,
         ElfCache.GetBasename, ElfCache.Kept, ElfCache.Overrides, ElfCache.Linker, ElfDependencies.Filtered,
         ElfLdd.Reached, Loaded, NeededIn, Remembered, Catalog;
    assert AddedAt(files, overridden, deps, order, k) && AddedAt(files, overridden, deps, order, |deps| - 1);
    var p := deps[k].found;
    if p != f {
      var m := ElfCache.GetBasename(p);
      var q := ElfDependencies.NeededBySomebody(u, s, f, g, depths, list, k);
      assert Provided(files, overridden, lists, heap, who, m);
      if !ElfCache.Overrides(overridden, m) {
        assert NamedAt(u, needs, q);
        assert !StandsAside(u, overridden, q);
        var j := ElfDependencies.ListedUnlessLinker(u, s, f, g, depths, list, q);
        NeededOfEntry(u, files, overridden, origin, last, needs, images, deps, order, j, k);
      }
    }
  }

  /** If replaced files bring in nothing of their own, every library that a load brings in
      is needed by another one of the list, or is the file itself. */
  lemma OrderIsRooted(u: ElfLdd.Files, s: string, f: string, g: map<string, set<string>>, depths: map<string, nat>,
                      list: seq<ElfLdd.Dependency>, files: Stored, overridden: seq<ElfCache.Overriden>,
                      origin: NeedsByName, last: nat, needs: NeedsByName, images: map<string, Section>,
                      deps: seq<ElfLdd.Dependency>, order: seq<LibId>, lists: Lists, heap: Heap, who: LoaderId)
    requires ElfDependencies.Regular(u, s, f) && ElfLdd.GraphOf(u, f, g)
             && ElfLdd.LoadingOrder(u, s, f, g, depths, list)
    requires deps == ElfDependencies.Filtered(list) + [ElfLdd.Dependency(s, f)]
    requires ElfCache.StoreOk(files, overridden, origin, last) && Named(u, f, needs) && Remembered(origin, needs)
    requires AllAdded(files, overridden, deps, order) && |order| == |deps|
    requires AllProvided(files, overridden, deps, lists, heap, who)
    ensures Passive(u, f, overridden) ==> Rooted(Catalog(files, images), lists, heap, who, order)
  {
    hide ElfDependencies.Regular, ElfLdd.GraphOf, ElfLdd.LoadingOrder, ElfCache.StoreOk, AllAdded, AllProvided,
         Passive, Named, ElfDependencies.Filtered, Loaded, NeededIn, Remembered, Catalog;
    if Passive(u, f, overridden) {
      forall k: nat | k < |order| && !Loaded(lists, heap, who, order[k])
        ensures order[k] == order[|order| - 1] || NeededIn(Catalog(files, images), order, order[k])
      {
        EntryIsRooted(u, s, f, g, depths, list, files, overridden, origin, last, needs, images, deps, order, lists,
                      heap, who, k);
      }
    }
  }

  // ---------- loading a program ----------

  /** The loader knows what the cache knows. */
  ghost predicate InStep(rt: CoojaRuntime, cache: ElfCache.ElfCache, images: map<string, Section>)
    reads rt, cache
  {
    rt.Valid() && cache.Valid() && rt.libs == Catalog(cache.files, images)
  }

  ghost predicate ProvidedFor(rt: CoojaRuntime, cache: ElfCache.ElfCache, who: LoaderId, name: string)
    reads rt, cache
  {
    Provided(cache.files, cache.overridden, rt.lists, rt.heap, who, name)
  }

  /** `name` is in store, and the process has a copy of it. */
  ghost predicate HasCopy(rt: CoojaRuntime, cache: ElfCache.ElfCache, who: LoaderId, name: string)
    reads rt, cache
  {
    ElfCache.IdOf(cache.files, name).Some? && Loaded(rt.lists, rt.heap, who, ElfCache.IdOf(cache.files, name).value)
  }

  /** The handle is the id under which the file, or what replaces it, is stored. */
  ghost predicate Finds(cache: ElfCache.ElfCache, f: string, handle: LibId)
    reads cache
  {
    ElfCache.IdOf(cache.files, ElfCache.Canon(cache.overridden, ElfCache.GetBasename(f))) == Some(handle)
  }

  /** The file can be used, and its dependencies do not run in a circle. */
  ghost predicate Runnable(u: ElfLdd.Files, s: string, f: string) {
    ElfDependencies.Regular(u, s, f) && forall g | ElfLdd.GraphOf(u, f, g) :: !Chains.CycleFrom(g, f)
  }

  lemma ListIsReady(u: ElfLdd.Files, s: string, f: string, g: map<string, set<string>>, depths: map<string, nat>,
                    list: seq<ElfLdd.Dependency>, files: Stored, overridden: seq<ElfCache.Overriden>, lists: Lists,
                    heap: Heap, who: LoaderId, needs: NeedsByName)
    requires ElfDependencies.Regular(u, s, f) && ElfLdd.GraphOf(u, f, g)
             && ElfLdd.LoadingOrder(u, s, f, g, depths, list)
    requires forall p | ElfLdd.Reached(u, f, p) ::
               Provided(files, overridden, lists, heap, who, ElfCache.GetBasename(p))
    requires Named(u, f, needs)
    ensures var deps := ElfDependencies.Filtered(list) + [ElfLdd.Dependency(s, f)];
            && (forall k | 0 <= k < |deps| ::
                 ElfDependencies.SuppliedAt(u, deps, k) && NamedAt(u, needs, deps[k].found))
            && AllProvided(files, overridden, deps, lists, heap, who)
            && AllReplaced(files, overridden, deps)
  {
    hide ElfDependencies.Regular, ElfLdd.LoadingOrder, ElfDependencies.SuppliedAt;
    var deps := ElfDependencies.Filtered(list) + [ElfLdd.Dependency(s, f)];
    forall k | 0 <= k < |deps|
      ensures ElfDependencies.SuppliedAt(u, deps, k) && NamedAt(u, needs, deps[k].found)
      ensures Provided(files, overridden, lists, heap, who, ElfCache.GetBasename(deps[k].found))
      ensures Replaced(files, overridden, ElfCache.GetBasename(deps[k].found))
    {
      ElfDependencies.ListSuppliesItself(u, s, f, g, depths, list, k);
      assert ElfLdd.Reached(u, f, deps[k].found);
    }
  }

  lemma IsGathered(u: ElfLdd.Files, s: string, f: string, given: DepthWalk.Needs, depths: map<string, nat>,
                   list: seq<ElfLdd.Dependency>)
    requires ElfLdd.GivenBy(u, f, given) && ElfLdd.LoadingOrder(u, s, f, DepthWalk.Edges(given), depths, list)
    ensures ElfDependencies.Gathered(u, s, f, ElfDependencies.Filtered(list) + [ElfLdd.Dependency(s, f)])
  {
    hide ElfLdd.GivenBy, ElfLdd.LoadingOrder, ElfDependencies.Filtered;
  }

  lemma RunnableIsNoted(u: ElfLdd.Files, s: string, f: string, given: DepthWalk.Needs)
    requires Runnable(u, s, f) && ElfLdd.GivenBy(u, f, given)
    ensures ElfLdd.GraphOf(u, f, DepthWalk.Edges(given)) && ElfDependencies.Regular(u, s, f)
    ensures ElfLdd.Scans(u, f) && f in given && DepthWalk.Walk(given, f, |given|) == DepthWalk.Noted
  {
    hide ElfLdd.GivenBy, ElfLdd.GraphOf, ElfDependencies.Regular, DepthWalk.Walk;
    ElfLdd.GivenGraph(u, f, given);
    ElfDependencies.RegularIsNoted(u, s, f, given);
  }

  function LoadEvents(who: LoaderId, libs: map<LibId, Library>, order: seq<LibId>): seq<Event> {
    [Event(who, Edit(libs)), Event(who, Load(order))]
  }

  /** The two steps of a load: the loader learns of the edited files, and loads them. */
  method EditAndLoad(session: Session, libs: map<LibId, Library>, order: seq<LibId>) returns (handle: LibId)
    requires session.Valid() && Ranked(libs) && Grows(session.rt.libs, libs) && |order| > 0
    requires Loadable(libs, session.rt.lists, session.rt.heap, session.running, order)
    modifies session, session.rt
    ensures session.Valid() && session.rt.libs == libs && session.running == old(session.running)
    ensures handle == order[|order| - 1]
    ensures Loaded(session.rt.lists, session.rt.heap, session.running, handle)
    ensures LoadedAs(session.rt, session.running, order)
    ensures session.events == old(session.events) + LoadEvents(session.running, libs, order)
    ensures |session.states| == |old(session.states)| + 2 && old(session.states) <= session.states
    ensures StepAgrees(libs, session.running, Load(order), old(Now(session.rt)), Now(session.rt))
    ensures old(AllReferenced(session.rt.heap, {})) ==>
              (AllReferenced(session.rt.heap, {}) <==>
               Rooted(libs, old(session.rt.lists), old(session.rt.heap), session.running, order))
    ensures OnlyAppends(old(session.rt.lists), session.rt.lists, session.running)
    ensures Extends(old(session.rt.shared), old(session.rt.heap), session.rt.shared, session.rt.heap)
  {
    hide SharedOk, ModulesOk, InUse, IsLive, StepAgrees, IsRun, Rooted, AllReferenced, Loaded, Loadable, Ranked, Grows,
         OnlyAppends, Extends;
    session.Do(Edit(libs));
    session.Do(Load(order));
    handle := order[|order| - 1];
    LastStep(libs, session.events, session.states);
  }

  lemma EachIsLoaded(rt: CoojaRuntime, who: LoaderId, order: seq<LibId>, k: nat)
    requires LoadedAs(rt, who, order) && k < |order|
    ensures Loaded(rt.lists, rt.heap, who, order[k])
  {
  }

  lemma StoreStands(rt: CoojaRuntime)
    requires rt.Valid()
    ensures SharedOk(rt.libs, rt.shared, rt.heap, multiset{}) && ShapesOk(rt.libs, rt.lists, rt.heap)
  {
  }

  lemma LastStep(libs: map<LibId, Library>, events: seq<Event>, states: seq<Snapshot>)
    requires IsRun(libs, events, states) && events != []
    ensures |states| == |events| + 1
    ensures var n := |events| - 1;
            StepAgrees(libs, events[n].running, events[n].action, states[n], states[n + 1])
  {
    var e := events[|events| - 1];
  }

  lemma AllProvidedGrows(files: Stored, more: Stored, overridden: seq<ElfCache.Overriden>,
                         deps: seq<ElfLdd.Dependency>, lists: Lists, heap: Heap, who: LoaderId)
    requires AllProvided(files, overridden, deps, lists, heap, who) && files <= more
    ensures AllProvided(more, overridden, deps, lists, heap, who)
  {
    hide ElfCache.Canon, ElfCache.IdOf, ElfCache.GetBasename, Loaded;
    forall k | 0 <= k < |deps|
      ensures Provided(more, overridden, lists, heap, who, ElfCache.GetBasename(deps[k].found))
    {
      var name := ElfCache.GetBasename(deps[k].found);
      assert Provided(files, overridden, lists, heap, who, name);
      if ElfCache.Overrides(overridden, name) {
        HasGrows(files, more, ElfCache.Canon(overridden, name));
      }
    }
  }

  lemma LastAdded(files: Stored, overridden: seq<ElfCache.Overriden>, deps: seq<ElfLdd.Dependency>, order: seq<LibId>)
    requires AllAdded(files, overridden, deps, order) && |order| == |deps| > 0
    ensures var name := ElfCache.GetBasename(deps[|deps| - 1].found);
            ElfCache.IdOf(files, ElfCache.Canon(overridden, name)) == Some(order[|order| - 1])
  {
    assert AddedAt(files, overridden, deps, order, |deps| - 1);
  }

  lemma StoredAndLoadedLater(files: Stored, more: Stored, name: string, l0: Lists, s0: SharedMap, h0: Heap, l1: Lists,
                             s1: SharedMap, h1: Heap, who: LoaderId)
    requires ElfCache.IdOf(files, name).Some? && files <= more
    requires Loaded(l0, h0, who, ElfCache.IdOf(files, name).value)
    requires Extends(s0, h0, s1, h1) && OnlyAppends(l0, l1, who)
    ensures ElfCache.IdOf(more, name).Some? && Loaded(l1, h1, who, ElfCache.IdOf(more, name).value)
  {
    HasGrows(files, more, name);
    LoadedLater(l0, s0, h0, l1, s1, h1, who, ElfCache.IdOf(files, name).value);
  }

  // ---------- what a new library reads as ----------

  /** What is read is the data section of the stored file with that id, as the file has it;
      a file without one has nothing there. */
  ghost predicate StandsAs(files: Stored, images: map<string, Section>, x: LibId, r: Option<Section>) {
    exists i :: && 0 <= i < |files| && files[i].id == x && r.Some?
                && r.value == (if files[i].basename in images then images[files[i].basename] else Section([]))
  }

  /** Whatever the process read before it reads still, and a library that was not there
      stands as its file has it. */
  ghost predicate OnlyNew(files: Stored, images: map<string, Section>, s: Snapshot, t: Snapshot, who: LoaderId) {
    forall x {:trigger Reads(t, who, x)} ::
      Reads(t, who, x) == Reads(s, who, x) || (Reads(s, who, x) == None && StandsAs(files, images, x, Reads(t, who, x)))
  }

  lemma NothingNew(files: Stored, images: map<string, Section>, s: Snapshot, who: LoaderId)
    ensures OnlyNew(files, images, s, s, who)
  {
  }

  lemma LoadedAsStored(files: Stored, images: map<string, Section>, s: Snapshot, t: Snapshot, who: LoaderId,
                       order: seq<LibId>)
    requires Ascending(files) && StepAgrees(Catalog(files, images), who, Load(order), s, t)
    ensures OnlyNew(files, images, s, t, who)
  {
    var libs := Catalog(files, images);
    hide Catalog, Reads;
    forall x
      ensures Reads(t, who, x) == Reads(s, who, x)
              || (Reads(s, who, x) == None && StandsAs(files, images, x, Reads(t, who, x)))
    {
      assert StepAgreesAt(libs, who, Load(order), s, t, who, x);
      if x in order && x in libs {
        var i := CatalogFrom(files, images, x);
        CatalogAt(files, images, i);
      }
    }
  }

  lemma NewAndNewer(files: Stored, more: Stored, images: map<string, Section>, s: Snapshot, t: Snapshot, u: Snapshot,
                    who: LoaderId)
    requires files <= more && OnlyNew(files, images, s, t, who) && OnlyNew(more, images, t, u, who)
    ensures OnlyNew(more, images, s, u, who)
  {
    hide Reads;
    forall x
      ensures Reads(u, who, x) == Reads(s, who, x)
              || (Reads(s, who, x) == None && StandsAs(more, images, x, Reads(u, who, x)))
    {
      assert Reads(t, who, x) == Reads(t, who, x);
      if StandsAs(files, images, x, Reads(t, who, x)) {
        StandsLater(files, more, images, x, Reads(t, who, x));
      }
    }
  }

  lemma StandsLater(files: Stored, more: Stored, images: map<string, Section>, x: LibId, r: Option<Section>)
    requires files <= more && StandsAs(files, images, x, r)
    ensures StandsAs(more, images, x, r)
  {
    var i :| && 0 <= i < |files| && files[i].id == x && r.Some?
             && (if files[i].basename in images then r.value == images[files[i].basename] else r.value == Section([]));
    assert more[i] == files[i];
  }

  /** With its basename known, it is known what stands there. */
  lemma StandsByName(files: Stored, images: map<string, Section>, name: string, x: LibId, r: Option<Section>)
    requires Ascending(files) && ElfCache.IdOf(files, name) == Some(x) && StandsAs(files, images, x, r)
    ensures r == Some(if name in images then images[name] else Section([]))
  {
    var i :| && 0 <= i < |files| && files[i].id == x && r.Some?
             && (if files[i].basename in images then r.value == images[files[i].basename] else r.value == Section([]));
    var j :| 0 <= j < |files| && files[j].basename == name && files[j].id == x;
    assert i == j;
  }

  lemma ReadsLoaded(libs: map<LibId, Library>, lists: Lists, s: Snapshot, who: LoaderId, x: LibId)
    requires SharedOk(libs, s.shared, s.heap, multiset{}) && ShapesOk(libs, lists, s.heap)
    requires Loaded(lists, s.heap, who, x)
    ensures Reads(s, who, x).Some?
  {
    LoadedIsHad(libs, lists, s.heap, who, x);
    var p :| OwnModule(s.heap, who, x, p);
    ReadsOwn(libs, lists, s, who, x, p);
  }

  lemma NewByName(files: Stored, images: map<string, Section>, overridden: seq<ElfCache.Overriden>,
                  deps: seq<ElfLdd.Dependency>, order: seq<LibId>, libs: map<LibId, Library>, lists: Lists,
                  s: Snapshot, t: Snapshot, who: LoaderId, k: nat)
    requires Ascending(files) && AllAdded(files, overridden, deps, order) && k < |order| <= |deps|
    requires SharedOk(libs, t.shared, t.heap, multiset{}) && ShapesOk(libs, lists, t.heap)
    requires OnlyNew(files, images, s, t, who) && Reads(s, who, order[k]) == None
    requires Loaded(lists, t.heap, who, order[k])
    ensures var name := ElfCache.Canon(overridden, ElfCache.GetBasename(deps[k].found));
            Reads(t, who, order[k]) == Some(if name in images then images[name] else Section([]))
  {
    hide Reads, Loaded, Ascending, SharedOk, ShapesOk, StandsAs, ElfCache.IdOf, ElfCache.Canon, ElfCache.GetBasename;
    assert AddedAt(files, overridden, deps, order, k);
    var name := ElfCache.Canon(overridden, ElfCache.GetBasename(deps[k].found));
    ReadsLoaded(libs, lists, t, who, order[k]);
    StandsByName(files, images, name, order[k], Reads(t, who, order[k]));
  }

  /** Loads a file for the running process.  The resolver's list is complete and in order,
      so every look-up succeeds, and the process ends up with a copy of the file.  It is two
      more steps of the recorded run, so nobody else can tell. */
  method LoadFile(session: Session, cache: ElfCache.ElfCache, u: ElfLdd.Files, s: string, f: string,
                  images: map<string, Section>, ghost needs: NeedsByName)
    returns (handle: LibId, ghost deps: seq<ElfLdd.Dependency>, ghost order: seq<LibId>)
    requires session.Valid() && InStep(session.rt, cache, images)
    requires Runnable(u, s, f) && Named(u, f, needs) && Remembered(cache.origin, needs)
    requires forall p | ElfLdd.Reached(u, f, p) ::
               ProvidedFor(session.rt, cache, session.running, ElfCache.GetBasename(p))
    modifies session, session.rt, cache
    ensures session.Valid() && InStep(session.rt, cache, images) && session.running == old(session.running)
    ensures Remembered(cache.origin, needs) && old(cache.files) <= cache.files
    ensures ElfDependencies.Gathered(u, s, f, deps) && |order| == |deps|
    ensures AllAdded(cache.files, cache.overridden, deps, order)
    ensures Finds(cache, f, handle) && Loaded(session.rt.lists, session.rt.heap, session.running, handle)
    ensures forall name | old(HasCopy(session.rt, cache, session.running, name)) ::
              HasCopy(session.rt, cache, session.running, name)
    ensures session.events == old(session.events) + LoadEvents(session.running, session.rt.libs, order)
    ensures |session.states| == |old(session.states)| + 2 && old(session.states) <= session.states
    ensures StepAgrees(session.rt.libs, session.running, Load(order), old(Now(session.rt)), Now(session.rt))
    ensures OnlyNew(cache.files, images, old(Now(session.rt)), Now(session.rt), session.running)
    ensures forall k | 0 <= k < |order| && old(Reads(Now(session.rt), session.running, order[k])) == None ::
              var name := ElfCache.Canon(cache.overridden, ElfCache.GetBasename(deps[k].found));
              Reads(Now(session.rt), session.running, order[k]) ==
              Some(if name in images then images[name] else Section([]))
    ensures old(AllReferenced(session.rt.heap, {})) ==>
              (AllReferenced(session.rt.heap, {}) <==>
               Rooted(session.rt.libs, old(session.rt.lists), old(session.rt.heap), session.running, order))
    ensures old(AllReferenced(session.rt.heap, {})) && Passive(u, f, cache.overridden) ==>
              AllReferenced(session.rt.heap, {})
  {
    hide ElfDependencies.Regular, ElfLdd.LoadingOrder, ElfLdd.GivenBy, ElfLdd.GraphOf, ElfLdd.Scans, ElfLdd.Reached,
         ElfCache.StoreOk, SharedOk, ModulesOk, InUse, ElfCache.Canon, ElfCache.IdOf, ElfCache.GetBasename,
         ElfDependencies.Filtered, ElfDependencies.SuppliedAt, AllAdded, AllProvided, AllReplaced, Loaded, Provided,
         Catalog, ElfDependencies.Gathered, Passive, Rooted, AllReferenced, StepAgrees, IsRun, AccountsKept, Named,
         NamedAt, Remembered, Runnable, DepthWalk.Walk, Reads, OnlyNew, LoadedAs, ShapesOk, Ascending;
    var r, listed, given, depths, list := ElfDependencies.GatherDependencies(u, s, f);
    RunnableIsNoted(u, s, f, given);
    deps := listed;
    IsGathered(u, s, f, given, depths, list);
    ghost var g := DepthWalk.Edges(given);
    var rt, who := session.rt, session.running;
    ListIsReady(u, s, f, g, depths, list, cache.files, cache.overridden, rt.lists, rt.heap, who, needs);
    ghost var files := cache.files;
    var added := AddAll(cache, u, listed, needs);
    order := added;
    AllProvidedGrows(files, cache.files, cache.overridden, deps, rt.lists, rt.heap, who);
    OrderIsLoadable(u, cache.files, cache.overridden, cache.origin, cache.last, needs, images, deps, order, rt.lists,
                    rt.heap, who);
    OrderIsRooted(u, s, f, g, depths, list, cache.files, cache.overridden, cache.origin, cache.last, needs, images,
                  deps, order, rt.lists, rt.heap, who);
    CatalogRanked(cache.files, images, cache.overridden, cache.origin, cache.last);
    StoreAscends(cache.files, cache.overridden, cache.origin, cache.last);
    CatalogGrows(files, cache.files, images);
    LastAdded(cache.files, cache.overridden, deps, order);
    handle := EditAndLoad(session, Catalog(cache.files, images), added);
    forall name | old(HasCopy(session.rt, cache, session.running, name))
      ensures HasCopy(session.rt, cache, session.running, name)
    {
      StoredAndLoadedLater(files, cache.files, name, old(rt.lists), old(rt.shared), old(rt.heap), rt.lists, rt.shared,
                           rt.heap, who);
    }
    ghost var before := old(Now(rt));
    LoadedAsStored(cache.files, images, before, Now(rt), who, order);
    StoreStands(rt);
    forall k | 0 <= k < |order| && Reads(before, who, order[k]) == None
      ensures var name := ElfCache.Canon(cache.overridden, ElfCache.GetBasename(deps[k].found));
              Reads(Now(rt), who, order[k]) == Some(if name in images then images[name] else Section([]))
    {
      EachIsLoaded(rt, who, order, k);
      NewByName(cache.files, images, cache.overridden, deps, order, rt.libs, rt.lists, before, Now(rt), who, k);
    }
  }

  /** The replacements, in the order a new process gets them. */
  const REPLACEMENTS: seq<string> := ["libc-ns3.so", "libpthread-ns3.so", "librt-ns3.so", "libm-ns3.so"]

  /** What the file leads to is replaced, if at all, by one of the given libraries. */
  ghost predicate StandsOn(u: ElfLdd.Files, f: string, overridden: seq<ElfCache.Overriden>, replacements: seq<string>) {
    forall p | ElfLdd.Reached(u, f, p) && ElfCache.Overrides(overridden, ElfCache.GetBasename(p)) ::
      ElfCache.Canon(overridden, ElfCache.GetBasename(p)) in replacements
  }

  lemma TargetsSuffice(u: ElfLdd.Files, f: string, overridden: seq<ElfCache.Overriden>, replacements: seq<string>)
    requires |overridden| == |replacements| && forall i | 0 <= i < |overridden| :: overridden[i].to == replacements[i]
    ensures StandsOn(u, f, overridden, replacements)
  {
    forall p | ElfLdd.Reached(u, f, p) && ElfCache.Overrides(overridden, ElfCache.GetBasename(p))
      ensures ElfCache.Canon(overridden, ElfCache.GetBasename(p)) in replacements
    {
      ElfCache.CanonCases(overridden, ElfCache.GetBasename(p));
    }
  }

  /** With all four in place, nothing can lack its replacement. */
  lemma AllStandOnReplacements(u: ElfLdd.Files, f: string)
    ensures StandsOn(u, f, ElfCache.OVERRIDDEN, REPLACEMENTS)
  {
    TargetsSuffice(u, f, ElfCache.OVERRIDDEN, REPLACEMENTS);
  }

  lemma ReplacementStays(k: nat)
    requires k < |REPLACEMENTS|
    ensures ElfCache.Canon(ElfCache.OVERRIDDEN, REPLACEMENTS[k]) == REPLACEMENTS[k]
  {
    ElfCache.OverriddenOneStep();
    assert ElfCache.OVERRIDDEN[k].to == REPLACEMENTS[k];
    ElfCache.CanonCases(ElfCache.OVERRIDDEN, REPLACEMENTS[k]);
  }

  lemma StandingIsProvided(u: ElfLdd.Files, f: string, rt: CoojaRuntime, cache: ElfCache.ElfCache, who: LoaderId,
                           replacements: seq<string>)
    requires StandsOn(u, f, cache.overridden, replacements)
    requires forall j | 0 <= j < |replacements| :: HasCopy(rt, cache, who, replacements[j])
    ensures forall p | ElfLdd.Reached(u, f, p) :: ProvidedFor(rt, cache, who, ElfCache.GetBasename(p))
  {
    hide ElfCache.Canon, ElfCache.IdOf, ElfCache.GetBasename, Loaded, ElfCache.Overrides, ElfLdd.Reached;
  }

  /** Since then only `who` has run, and it has not forked or exited. */
  ghost predicate OnlyOwnSteps(before: seq<Event>, after: seq<Event>, who: LoaderId) {
    && before <= after
    && forall i | |before| <= i < |after| :: after[i].running == who && (after[i].action.Edit? || after[i].action.Load?)
  }

  lemma NoSteps(events: seq<Event>, who: LoaderId)
    ensures OnlyOwnSteps(events, events, who)
  {
  }

  lemma OwnSteps(before: seq<Event>, after: seq<Event>, who: LoaderId, libs: map<LibId, Library>, order: seq<LibId>)
    requires OnlyOwnSteps(before, after, who)
    ensures OnlyOwnSteps(before, after + LoadEvents(who, libs, order), who)
  {
  }

  lemma OthersUndisturbed(session: Session, events: seq<Event>, states: seq<Snapshot>)
    requires session.Valid() && OnlyOwnSteps(events, session.events, session.running)
    requires |states| == |events| + 1 && states <= session.states
    ensures forall other, x | other != session.running ::
              Reads(Now(session.rt), other, x) == Reads(states[|events|], other, x)
  {
    forall other, x | other != session.running
      ensures Reads(Now(session.rt), other, x) == Reads(states[|events|], other, x)
    {
      session.Undisturbed(|events|, other, x);
    }
  }

  lemma NewHandle(rt: CoojaRuntime, cache: ElfCache.ElfCache, images: map<string, Section>, f: string, s: Snapshot,
                  who: LoaderId, handle: LibId)
    requires InStep(rt, cache, images) && Finds(cache, f, handle) && Loaded(rt.lists, rt.heap, who, handle)
    requires OnlyNew(cache.files, images, s, Now(rt), who)
    ensures Reads(s, who, handle) == None ==>
              var name := ElfCache.Canon(cache.overridden, ElfCache.GetBasename(f));
              Reads(Now(rt), who, handle) == Some(if name in images then images[name] else Section([]))
  {
    hide Reads, Loaded, Ascending, SharedOk, ShapesOk, ModulesOk, InUse, StandsAs, Catalog, ElfCache.IdOf,
         ElfCache.Canon, ElfCache.GetBasename, ElfCache.StoreOk;
    StoreStands(rt);
    ReadsLoaded(rt.libs, rt.lists, Now(rt), who, handle);
    StoreAscends(cache.files, cache.overridden, cache.origin, cache.last);
    if Reads(s, who, handle) == None {
      var name := ElfCache.Canon(cache.overridden, ElfCache.GetBasename(f));
      StandsByName(cache.files, images, name, handle, Reads(Now(rt), who, handle));
    }
  }

  /** What a new process gets: the four replacements, each standing on the ones before it,
      then the program, which needs to meet no condition on replaced libraries at all.
      Nobody else can tell that it started. */
  method LoadMain(session: Session, cache: ElfCache.ElfCache, u: ElfLdd.Files, filename: string, fullname: string,
                  found: seq<string>, images: map<string, Section>, ghost needs: NeedsByName) returns (handle: LibId)
    requires session.Valid() && InStep(session.rt, cache, images) && cache.overridden == ElfCache.OVERRIDDEN
    requires Remembered(cache.origin, needs)
    requires |found| == |REPLACEMENTS|
    requires forall k | 0 <= k < |found| ::
               && ElfCache.GetBasename(found[k]) == REPLACEMENTS[k] && Runnable(u, REPLACEMENTS[k], found[k])
               && StandsOn(u, found[k], cache.overridden, REPLACEMENTS[..k]) && Named(u, found[k], needs)
    requires Runnable(u, filename, fullname) && Named(u, fullname, needs)
    modifies session, session.rt, cache
    ensures session.Valid() && InStep(session.rt, cache, images) && session.running == old(session.running)
    ensures forall k | 0 <= k < |REPLACEMENTS| :: HasCopy(session.rt, cache, session.running, REPLACEMENTS[k])
    ensures Finds(cache, fullname, handle) && Loaded(session.rt.lists, session.rt.heap, session.running, handle)
    ensures OnlyNew(cache.files, images, old(Now(session.rt)), Now(session.rt), session.running)
    ensures old(Reads(Now(session.rt), session.running, handle)) == None ==>
              var name := ElfCache.Canon(cache.overridden, ElfCache.GetBasename(fullname));
              Reads(Now(session.rt), session.running, handle) ==
              Some(if name in images then images[name] else Section([]))
    ensures OnlyOwnSteps(old(session.events), session.events, session.running)
    ensures forall other, x | other != session.running ::
              Reads(Now(session.rt), other, x) == Reads(old(Now(session.rt)), other, x)
    ensures old(AllReferenced(session.rt.heap, {})) && Passive(u, fullname, cache.overridden)
            && (forall k | 0 <= k < |found| :: Passive(u, found[k], cache.overridden)) ==>
              AllReferenced(session.rt.heap, {})
  {
    hide Runnable, StandsOn, Named, Remembered, ElfCache.Canon, ElfCache.IdOf, ElfCache.GetBasename, Loaded, Provided,
         Catalog, ElfCache.StoreOk, SharedOk, ModulesOk, InUse, IsRun, StepAgrees, Passive, AllReferenced,
         OnlyOwnSteps, Reads, OnlyNew, Ascending, ShapesOk;
    ghost var events, states := session.events, session.states;
    ghost var start := Now(session.rt);
    NoSteps(events, session.running);
    NothingNew(cache.files, images, start, session.running);
    RunLength(session.rt.libs, events, states);
    for k := 0 to |REPLACEMENTS|
      invariant session.Valid() && InStep(session.rt, cache, images) && session.running == old(session.running)
      invariant Remembered(cache.origin, needs) && OnlyNew(cache.files, images, start, Now(session.rt), session.running)
      invariant forall j | 0 <= j < k :: HasCopy(session.rt, cache, session.running, REPLACEMENTS[j])
      invariant OnlyOwnSteps(events, session.events, session.running) && states <= session.states
      invariant old(AllReferenced(session.rt.heap, {}))
                && (forall j | 0 <= j < k :: Passive(u, found[j], cache.overridden)) ==>
                  AllReferenced(session.rt.heap, {})
    {
      StandingIsProvided(u, found[k], session.rt, cache, session.running, REPLACEMENTS[..k]);
      ReplacementStays(k);
      ghost var before, files, s := session.events, cache.files, Now(session.rt);
      var h, deps, order := LoadFile(session, cache, u, REPLACEMENTS[k], found[k], images, needs);
      OwnSteps(events, before, session.running, session.rt.libs, order);
      NewAndNewer(files, cache.files, images, start, s, Now(session.rt), session.running);
    }
    AllStandOnReplacements(u, fullname);
    StandingIsProvided(u, fullname, session.rt, cache, session.running, REPLACEMENTS);
    ghost var before, files, s := session.events, cache.files, Now(session.rt);
    ghost var deps, order;
    handle, deps, order := LoadFile(session, cache, u, filename, fullname, images, needs);
    OwnSteps(events, before, session.running, session.rt.libs, order);
    NewAndNewer(files, cache.files, images, start, s, Now(session.rt), session.running);
    NewHandle(session.rt, cache, images, fullname, start, session.running, handle);
    OthersUndisturbed(session, events, states);
  }
}
