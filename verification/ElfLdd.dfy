/** The dependencies of an executable: which files it needs, directly or not, and an order
    in which they can be loaded (model/elf-ldd.cc). */
module ElfLdd {
  import opened Chains
  import opened DepthWalk
  import opened Options
  import opened StringOrder

  /** What a file says about itself: the names it needs, and where to look for them. */
  datatype Elf = Elf(needed: seq<string>, path: seq<string>)

  /** The file system: the paths that exist, and the contents of those that can be read. */
  datatype Files = Files(exist: set<string>, elf: map<string, Elf>)

  datatype Dependency = Dependency(required: string, found: string)

  /** The first directory of a search path that has a file of that name. */
  function Resolve(u: Files, path: seq<string>, name: string): (r: Option<string>)
    ensures r.Some? ==>
              exists k :: && 0 <= k < |path| && r.value == path[k] + name && r.value in u.exist
                          && forall j | 0 <= j < k :: path[j] + name !in u.exist
    ensures r.None? <==> forall k | 0 <= k < |path| :: path[k] + name !in u.exist
  {
    if path == [] then None
    else if path[0] + name in u.exist then Some(path[0] + name)
    else
      var rest := path[1..];
      var r := Resolve(u, rest, name);
      assert forall k | 0 < k < |path| :: path[k] == rest[k - 1];
      assert r.Some? ==>
               var k :| && 0 <= k < |rest| && r.value == rest[k] + name && r.value in u.exist
                        && forall j | 0 <= j < k :: rest[j] + name !in u.exist;
               r.value == path[k + 1] + name && forall j | 0 <= j < k + 1 :: path[j] + name !in u.exist;
      r
  }

  function NeededBy(elf: Elf): set<string> {
    set n | n in elf.needed
  }

  ghost predicate AllFound(u: Files, path: seq<string>, names: set<string>) {
    forall n | n in names :: Resolve(u, path, n).Some?
  }

  ghost function Found(u: Files, path: seq<string>, names: set<string>): Libs {
    set n | n in names && Resolve(u, path, n).Some? :: (n, Resolve(u, path, n).value)
  }

  /** A file can be used if it can be read and everything it names is found. */
  ghost predicate Scans(u: Files, p: string) {
    p in u.elf && AllFound(u, u.elf[p].path, NeededBy(u.elf[p]))
  }

  ghost function LibsOf(u: Files, p: string): Libs {
    if p in u.elf then Found(u, u.elf[p].path, NeededBy(u.elf[p])) else {}
  }

  ghost function Names(libs: Libs): set<string> {
    set l | l in libs :: l.0
  }

  /** p is reached from f in n steps through usable files, and is one. */
  ghost predicate ReachedIn(u: Files, f: string, p: string, n: nat)
    decreases n
  {
    Scans(u, p) && if n == 0 then p == f else exists q :: ReachedIn(u, f, q, n - 1) && p in Paths(LibsOf(u, q))
  }

  ghost predicate Reached(u: Files, f: string, p: string) {
    exists n: nat :: ReachedIn(u, f, p, n)
  }

  /** Everything that usable files lead to is usable. */
  ghost predicate Complete(u: Files, f: string) {
    forall p, q | Reached(u, f, p) && q in Paths(LibsOf(u, p)) :: Scans(u, q)
  }

  lemma UnresolvedNames(needed: set<string>)
    ensures Names(set n | n in needed :: (n, "")) == needed
  {
    forall n | n in needed
      ensures n in Names(set n | n in needed :: (n, ""))
    {
      assert (n, "") in (set n | n in needed :: (n, ""));
    }
  }

  lemma NothingFound(u: Files, path: seq<string>)
    ensures Found(u, path, Names({})) == {} && AllFound(u, path, Names({}))
  {
  }

  lemma FoundStep(u: Files, path: seq<string>, seen: Libs, p: (string, string))
    ensures Found(u, path, Names(seen + {p})) ==
            Found(u, path, Names(seen)) + match Resolve(u, path, p.0) case Some(v) => {(p.0, v)} case None => {}
    ensures AllFound(u, path, Names(seen + {p})) <==> AllFound(u, path, Names(seen)) && Resolve(u, path, p.0).Some?
  {
    assert Names(seen + {p}) == Names(seen) + {p.0};
  }

  /** The first directory of the search path that has the name has it there. */
  ghost predicate FirstPlace(u: Files, path: seq<string>, name: string, place: string) {
    exists k :: && 0 <= k < |path| && place == path[k] + name && place in u.exist
                && forall j | 0 <= j < k :: path[j] + name !in u.exist
  }

  ghost predicate SomePlace(u: Files, path: seq<string>, name: string) {
    exists k :: 0 <= k < |path| && path[k] + name in u.exist
  }

  /** Every name is found when some directory has it, and then in the first one that does. */
  lemma FoundMeans(u: Files, path: seq<string>, names: set<string>)
    ensures AllFound(u, path, names) <==> forall n | n in names :: SomePlace(u, path, n)
    ensures AllFound(u, path, names) ==> Names(Found(u, path, names)) == names
    ensures forall l | l in Found(u, path, names) :: FirstPlace(u, path, l.0, l.1)
  {
    if AllFound(u, path, names) {
      forall n | n in names
        ensures n in Names(Found(u, path, names))
      {
        assert (n, Resolve(u, path, n).value) in Found(u, path, names);
      }
    }
  }

  type Scanned = map<string, SharedLibrary>

  /** The records hold the needs of the scanned files. */
  ghost predicate Mirrors(needs: Needs, scanned: Scanned)
    reads scanned.Values`libs
  {
    needs.Keys == scanned.Keys && forall p | p in scanned :: scanned[p].fullName == p && needs[p] == scanned[p].libs
  }

  ghost predicate DepthOk(needs: Needs, scanned: Scanned, p: string)
    requires p in scanned
    reads scanned.Values`depth
  {
    scanned[p].depth == -1 ||
    (scanned[p].depth >= 0 && p in needs && Longest(Edges(needs), p, scanned[p].depth) &&
     forall a | a in needs[p] :: a.1 in scanned && scanned[a.1].depth >= 0)
  }

  /** Whatever depth has been noted is right, and was noted for the dependencies first. */
  ghost predicate DepthsOk(needs: Needs, scanned: Scanned)
    reads scanned.Values`depth
  {
    forall p {:trigger DepthOk(needs, scanned, p)} | p in scanned :: DepthOk(needs, scanned, p)
  }

  ghost function DepthMap(scanned: Scanned): map<string, int>
    reads scanned.Values`depth
  {
    map p | p in scanned :: scanned[p].depth
  }

  /** After the dependencies in `seen`: reach is one more than the deepest of them. */
  ghost predicate Deepest(depths: map<string, int>, seen: Libs, reach: int) {
    && (forall a | a in seen :: a.1 in depths && 0 <= depths[a.1] < reach)
    && (if seen == {} then reach == 0 else exists a :: a in seen && a.1 in depths && depths[a.1] + 1 == reach)
  }

  ghost predicate OnlyNoted(depths: map<string, int>, depths': map<string, int>) {
    depths'.Keys == depths.Keys && forall p | p in depths && depths[p] >= 0 :: depths'[p] == depths[p]
  }

  /** The state of the recursion over the dependencies, of which `rest` are still to come. */
  ghost predicate Measured(before: map<string, int>, depths: map<string, int>, libs: Libs, rest: Libs, reach: int) {
    OnlyNoted(before, depths) && Deepest(depths, libs - rest, reach) && rest <= libs && reach >= 0
  }

  lemma MeasuredNone(depths: map<string, int>, libs: Libs)
    ensures Measured(depths, depths, libs, libs, 0)
  {
  }

  lemma MeasuredSoFar(before: map<string, int>, depths: map<string, int>, libs: Libs, rest: Libs, reach: int)
    requires Measured(before, depths, libs, rest, reach)
    ensures OnlyNoted(before, depths)
    ensures rest == {} ==> Deepest(depths, libs, reach) && reach >= 0
  {
    assert libs - {} == libs;
  }

  lemma MeasuredNext(before: map<string, int>, depths: map<string, int>, depths': map<string, int>, libs: Libs,
                     rest: Libs, reach: int, a: (string, string))
    requires Measured(before, depths, libs, rest, reach) && OnlyNoted(depths, depths')
    requires a in rest && a.1 in depths' && depths'[a.1] >= 0
    ensures Measured(before, depths', libs, Less(rest, a), if depths'[a.1] > reach - 1 then depths'[a.1] + 1 else reach)
  {
    var seen := libs - rest;
    assert libs - Less(rest, a) == seen + {a};
    if depths'[a.1] > reach - 1 {
      assert a in seen + {a} && depths'[a.1] + 1 == depths'[a.1] + 1;
    } else {
      var b :| b in seen && b.1 in depths && depths[b.1] + 1 == reach;
      assert b in seen + {a} && depths'[b.1] + 1 == reach;
    }
  }

  lemma DepthAt(scanned: Scanned, p: string)
    requires p in scanned
    ensures p in DepthMap(scanned) && DepthMap(scanned)[p] == scanned[p].depth
  {
  }

  lemma NotedAfter(depths: map<string, int>, depths': map<string, int>, depths'': map<string, int>)
    requires OnlyNoted(depths, depths') && OnlyNoted(depths', depths'')
    ensures OnlyNoted(depths, depths'')
  {
  }

  lemma MirrorsAt(needs: Needs, scanned: Scanned, p: string)
    requires Mirrors(needs, scanned) && p in scanned
    ensures needs.Keys == scanned.Keys && scanned[p].fullName == p && needs[p] == scanned[p].libs
  {
  }

  lemma DependenciesNoted(needs: Needs, scanned: Scanned, p: string, reach: int)
    requires Mirrors(needs, scanned) && p in scanned && Deepest(DepthMap(scanned), scanned[p].libs, reach)
    ensures forall a | a in needs[p] :: a.1 in scanned && scanned[a.1].depth >= 0
  {
  }

  lemma DepthFound(needs: Needs, scanned: Scanned, p: string, reach: nat)
    requires Mirrors(needs, scanned) && DepthsOk(needs, scanned) && p in scanned && scanned[p].libs != {}
    requires Deepest(DepthMap(scanned), scanned[p].libs, reach)
    ensures Longest(Edges(needs), p, reach)
  {
    var libs, g := scanned[p].libs, Edges(needs);
    assert libs == needs[p];
    hide Longest;
    forall q | q in g[p]
      ensures q in scanned && 0 <= scanned[q].depth < reach && Longest(g, q, scanned[q].depth)
    {
      var a :| a in libs && a.1 == q;
      assert DepthOk(needs, scanned, q);
    }
    var depths: map<string, nat> := map q | q in g[p] :: scanned[q].depth;
    var a :| a in libs && a.1 in DepthMap(scanned) && DepthMap(scanned)[a.1] + 1 == reach;
    assert a.1 in g[p] && depths[a.1] + 1 == reach;
    LongestStep(g, p, depths, reach);
  }

  /** A noted depth settles the file. */
  lemma {:induction false} NotedIsClean(needs: Needs, scanned: Scanned, p: string)
    requires DepthsOk(needs, scanned) && p in scanned && scanned[p].depth >= 0
    ensures Clean(needs, p)
    decreases if p in scanned then scanned[p].depth else 0
  {
    assert DepthOk(needs, scanned, p);
    forall a | a in needs[p]
      ensures Clean(needs, a.1)
    {
      assert DepthOk(needs, scanned, a.1);
      assert a.1 in Edges(needs)[p];
      DependencyIsShallower(Edges(needs), p, a.1, scanned[p].depth, scanned[a.1].depth);
      NotedIsClean(needs, scanned, a.1);
    }
    CleanAbove(needs, p);
  }

  class SharedLibrary {
    const sName: string
    const fullName: string
    var libs: Libs
    var path: seq<string>
    var depth: int

    constructor (sName: string, fullName: string, elf: Elf)
      ensures this.sName == sName && this.fullName == fullName && path == elf.path && depth == -1
      ensures Names(libs) == NeededBy(elf)
    {
      this.sName, this.fullName := sName, fullName;
      libs, path, depth := set n | n in NeededBy(elf) :: (n, ""), elf.path, -1;
      UnresolvedNames(NeededBy(elf));
    }

    /** The first directory of the search path that has the file. */
    method FindIn(u: Files, name: string) returns (r: Option<string>)
      ensures r == Resolve(u, path, name)
      ensures r.Some? ==>
                exists k :: && 0 <= k < |path| && r.value == path[k] + name && r.value in u.exist
                            && forall j | 0 <= j < k :: path[j] + name !in u.exist
      ensures r.None? <==> forall k | 0 <= k < |path| :: path[k] + name !in u.exist
    {
      var j := 0;
      while j < |path|
        invariant j <= |path| && Resolve(u, path[j..], name) == Resolve(u, path, name)
      {
        if path[j] + name in u.exist {
          return Some(path[j] + name);
        }
        j := j + 1;
      }
      return None;
    }

    /** Looks for every needed file; all of them have to be found. */
    method SearchLibs(u: Files) returns (ok: bool)
      modifies this`libs
      ensures ok == AllFound(u, path, Names(old(libs)))
      ensures libs == if ok then Found(u, path, Names(old(libs))) else old(libs)
      ensures ok <==> forall n | n in Names(old(libs)) :: SomePlace(u, path, n)
      ensures ok ==> Names(libs) == Names(old(libs)) && forall l | l in libs :: FirstPlace(u, path, l.0, l.1)
    {
      hide *;
      ghost var all, dirs := libs, path;
      FoundMeans(u, dirs, Names(all));
      var rest, n, count := libs, {}, 0;
      ghost var seen: Libs := {};
      NothingFound(u, dirs);
      while rest != {}
        invariant rest + seen == all && rest !! seen && libs == all
        invariant n == Found(u, dirs, Names(seen))
        invariant count <= |seen| && (count == |seen| <==> AllFound(u, dirs, Names(seen)))
      {
        var p := First(rest);
        var where := FindIn(u, p.0);
        FoundStep(u, dirs, seen, p);
        if where.Some? {
          n := n + {(p.0, where.value)};
          count := count + 1;
        }
        rest, seen := rest - {p}, seen + {p};
      }
      assert seen == all;
      if |libs| == count {
        libs := n;
        return true;
      }
      return false;
    }

    /** Notes the depth of this file, unless a chain longer than the bound is in the way, or
        a file without a record.  Right depths are noted or none, whatever bound was in
        force; and what was noted before makes no difference to the outcome. */
    method CalcDepth(max: int, scanned: Scanned, ghost needs: Needs) returns (r: Outcome)
      requires max >= -1 && fullName in scanned && scanned[fullName] == this
      requires Mirrors(needs, scanned) && DepthsOk(needs, scanned)
      modifies scanned.Values`depth
      ensures DepthsOk(needs, scanned)
      ensures OnlyNoted(old(DepthMap(scanned)), DepthMap(scanned))
      ensures r == Noted ==> depth >= 0
      ensures Shown(needs, fullName, max, r)
      decreases max + 1, 1
    {
      if depth >= 0 {
        NotedIsClean(needs, scanned, fullName);
        return Noted;
      }
      if max < 0 {
        return TooLong;
      }
      if |libs| == 0 {
        LongestLeaf(Edges(needs), fullName);
        NoteDepth(0, scanned, needs);
        return Noted;
      }
      var reach;
      r, reach := ReachOfDependencies(max, scanned, needs);
      if r == Noted {
        DepthFound(needs, scanned, fullName, reach);
        DependenciesNoted(needs, scanned, fullName, reach);
        NoteDepth(reach, scanned, needs);
      }
    }

    /** The recursion over the dependencies, in order, up to the first that fails. */
    method ReachOfDependencies(max: int, scanned: Scanned, ghost needs: Needs) returns (r: Outcome, reach: int)
      requires max >= 0 && fullName in scanned && scanned[fullName] == this
      requires Mirrors(needs, scanned) && DepthsOk(needs, scanned)
      modifies scanned.Values`depth
      ensures DepthsOk(needs, scanned)
      ensures OnlyNoted(old(DepthMap(scanned)), DepthMap(scanned))
      ensures r == Noted ==> reach >= 0 && Deepest(DepthMap(scanned), libs, reach)
      ensures Shown(needs, fullName, max, r)
      decreases max + 1, 0
    {
      hide *;
      MirrorsAt(needs, scanned, fullName);
      ghost var all, before := libs, DepthMap(scanned);
      MeasuredNone(before, all);
      reach := 0;
      var rest := libs;
      SettledNone(needs, fullName);
      while rest != {}
        invariant Mirrors(needs, scanned) && DepthsOk(needs, scanned) && Settled(needs, fullName, rest)
        invariant Measured(before, DepthMap(scanned), all, rest, reach)
        invariant libs == all
        decreases |rest|
      {
        var i := First(rest);
        NextIsFirst(needs, fullName, rest, i);
        if i.1 !in scanned {
          StopsAt(needs, fullName, max, i, Missing);
          MeasuredSoFar(before, DepthMap(scanned), all, rest, reach);
          return Missing, reach;
        }
        ghost var depths := DepthMap(scanned);
        var d;
        r, d := DepthOf(i.1, max - 1, scanned, needs);
        if r != Noted {
          StopsAt(needs, fullName, max, i, r);
          MeasuredSoFar(before, depths, all, rest, reach);
          NotedAfter(before, depths, DepthMap(scanned));
          return r, reach;
        }
        MeasuredNext(before, depths, DepthMap(scanned), all, rest, reach, i);
        if d > reach - 1 {
          reach := d + 1;
        }
        rest := Less(rest, i);
      }
      MeasuredSoFar(before, DepthMap(scanned), all, rest, reach);
      SettledAll(needs, fullName);
      ShownNoted(needs, fullName, max);
      return Noted, reach;
    }

    /** The depth of one dependency. */
    static method DepthOf(p: string, max: int, scanned: Scanned, ghost needs: Needs) returns (r: Outcome, d: int)
      requires max >= -1 && p in scanned && Mirrors(needs, scanned) && DepthsOk(needs, scanned)
      modifies scanned.Values`depth
      ensures DepthsOk(needs, scanned) && OnlyNoted(old(DepthMap(scanned)), DepthMap(scanned))
      ensures Shown(needs, p, max, r)
      ensures r == Noted ==> Clean(needs, p) && p in DepthMap(scanned) && DepthMap(scanned)[p] == d >= 0
      decreases max + 1, 2
    {
      MirrorsAt(needs, scanned, p);
      hide *;
      r := scanned[p].CalcDepth(max, scanned, needs);
      d := scanned[p].depth;
      DepthAt(scanned, p);
      ShownNoted(needs, p, max);
    }

    method NoteDepth(d: nat, scanned: Scanned, ghost needs: Needs)
      requires fullName in scanned && scanned[fullName] == this
      requires Mirrors(needs, scanned) && DepthsOk(needs, scanned) && Longest(Edges(needs), fullName, d)
      requires forall a | a in needs[fullName] :: a.1 in scanned && scanned[a.1].depth >= 0
      modifies this`depth
      ensures DepthsOk(needs, scanned) && depth == d && Clean(needs, fullName)
      ensures OnlyNoted(old(DepthMap(scanned)), DepthMap(scanned))
    {
      hide Longest;
      assert DepthOk(needs, scanned, fullName);
      if depth >= 0 {
        LongestUnique(Edges(needs), fullName, d, depth);
      }
      depth := d;
      forall p | p in scanned
        ensures DepthOk(needs, scanned, p)
      {
        assert old(DepthOk(needs, scanned, p));
      }
      NotedIsClean(needs, scanned, fullName);
    }
  }

  /** What is kept for a usable file: its own needs, resolved, under the name it was asked by. */
  ghost predicate RecordOf(u: Files, l: SharedLibrary, p: string)
    reads l
  {
    l.fullName == p && Scans(u, p) && l.libs == LibsOf(u, p)
  }

  ghost predicate AskedFor(u: Files, s: string, f: string, done: set<string>, a: (string, string)) {
    a == (s, f) || exists q :: q in done && a in LibsOf(u, q)
  }

  ghost function AllPairs(u: Files, s: string, f: string): Libs {
    {(s, f)} + set p, l | p in u.elf && l in LibsOf(u, p) :: l
  }

  /** Everything needed by what has been scanned was scanned too, or is waiting, or is
      not usable. */
  ghost predicate Covered(u: Files, s: string, f: string, done: set<string>, todo: Libs) {
    && (f in done || (s, f) in todo || !Scans(u, f))
    && forall p, a | p in done && a in LibsOf(u, p) :: a.1 in done || a in todo || !Scans(u, a.1)
  }

  /** The state of the search between two files; `settled` are the pairs scanned so far. */
  ghost predicate Progress(u: Files, s: string, f: string, done: set<string>, todo: Libs, settled: Libs) {
    && done == Paths(settled) && todo <= AllPairs(u, s, f) && settled <= AllPairs(u, s, f) && todo !! settled
    && (forall a | a in todo :: AskedFor(u, s, f, done, a))
    && (forall p | p in done :: Reached(u, f, p))
    && Covered(u, s, f, done, todo)
  }

  ghost function Enqueued(full: Libs, done: set<string>, todo: Libs): Libs {
    todo + set l | l in full && l.1 !in done
  }

  lemma ScanStarts(u: Files, s: string, f: string)
    ensures Progress(u, s, f, {}, {(s, f)}, {})
  {
  }

  lemma AskedGrows(u: Files, s: string, f: string, done: set<string>, p: string, a: (string, string))
    requires AskedFor(u, s, f, done, a)
    ensures AskedFor(u, s, f, done + {p}, a)
  {
  }

  lemma ScanFails(u: Files, s: string, f: string, done: set<string>, todo: Libs, settled: Libs, name: (string, string))
    requires Progress(u, s, f, done, todo, settled) && name in todo && !Scans(u, name.1)
    ensures Progress(u, s, f, done, todo - {name}, settled)
  {
  }

  lemma OneLess(all: Libs, settled: Libs, name: (string, string))
    requires name in all && name !in settled
    ensures |all - (settled + {name})| < |all - settled|
  {
    assert all - settled == (all - (settled + {name})) + {name};
  }

  lemma CoveredNext(u: Files, s: string, f: string, done: set<string>, todo: Libs, name: (string, string))
    requires Covered(u, s, f, done, todo) && name in todo
    ensures var done' := done + {name.1};
            Covered(u, s, f, done', Enqueued(LibsOf(u, name.1), done', todo - {name}))
  {
    hide Scans, LibsOf;
    var done' := done + {name.1};
    var todo' := Enqueued(LibsOf(u, name.1), done', todo - {name});
    forall p, a | p in done' && a in LibsOf(u, p)
      ensures a.1 in done' || a in todo' || !Scans(u, a.1)
    {
      if p in done {
        assert a.1 in done || a in todo || !Scans(u, a.1);
      }
    }
  }

  lemma PathsNext(settled: Libs, name: (string, string))
    ensures Paths(settled + {name}) == Paths(settled) + {name.1}
  {
  }

  /** What waits afterwards was asked for, and has not been settled. */
  lemma WaitingNext(u: Files, s: string, f: string, done: set<string>, todo: Libs, settled: Libs,
                    name: (string, string), a: (string, string))
    requires Progress(u, s, f, done, todo, settled) && name in todo && Scans(u, name.1)
    requires a in Enqueued(LibsOf(u, name.1), done + {name.1}, todo - {name})
    ensures AskedFor(u, s, f, done + {name.1}, a) && a in AllPairs(u, s, f) && a !in settled + {name}
  {
    hide Covered, Reached, Resolve;
    if a in todo {
      AskedGrows(u, s, f, done, name.1, a);
    } else {
      PathsNext(settled, name);
      assert a.1 !in Paths(settled + {name});
    }
  }

  lemma ScanSucceeds(u: Files, s: string, f: string, done: set<string>, todo: Libs, settled: Libs,
                     name: (string, string))
    requires Progress(u, s, f, done, todo, settled) && name in todo && Scans(u, name.1)
    ensures var done' := done + {name.1};
            Progress(u, s, f, done', Enqueued(LibsOf(u, name.1), done', todo - {name}), settled + {name})
    ensures |AllPairs(u, s, f) - (settled + {name})| < |AllPairs(u, s, f) - settled|
  {
    hide Covered, Reached, AskedFor, Enqueued, AllPairs, LibsOf, Scans, Paths;
    var done' := done + {name.1};
    NextReached(u, s, f, done, name);
    OneLess(AllPairs(u, s, f), settled, name);
    CoveredNext(u, s, f, done, todo, name);
    PathsNext(settled, name);
    forall a | a in Enqueued(LibsOf(u, name.1), done', todo - {name})
      ensures AskedFor(u, s, f, done', a) && a in AllPairs(u, s, f) && a !in settled + {name}
    {
      WaitingNext(u, s, f, done, todo, settled, name, a);
    }
  }

  lemma ReachedBefore(u: Files, f: string, p: string, n: nat) returns (q: string)
    requires ReachedIn(u, f, p, n) && n > 0
    ensures ReachedIn(u, f, q, n - 1) && p in Paths(LibsOf(u, q)) && Scans(u, p)
  {
    q :| ReachedIn(u, f, q, n - 1) && p in Paths(LibsOf(u, q));
  }

  lemma {:induction false} ReachedIsCovered(u: Files, s: string, f: string, done: set<string>, p: string, n: nat)
    requires Covered(u, s, f, done, {}) && ReachedIn(u, f, p, n)
    ensures p in done
    decreases n
  {
    hide Scans, LibsOf;
    if n > 0 {
      var q := ReachedBefore(u, f, p, n);
      ReachedIsCovered(u, s, f, done, q, n - 1);
    }
  }

  lemma NextReached(u: Files, s: string, f: string, done: set<string>, a: (string, string))
    requires AskedFor(u, s, f, done, a) && Scans(u, a.1)
    requires forall p | p in done :: Reached(u, f, p)
    ensures Reached(u, f, a.1)
  {
    if a == (s, f) {
      assert ReachedIn(u, f, f, 0);
    } else {
      var q :| q in done && a in LibsOf(u, q);
      var n: nat :| ReachedIn(u, f, q, n);
      assert a.1 in Paths(LibsOf(u, q));
      assert ReachedIn(u, f, a.1, n + 1);
    }
  }

  lemma WaitingWasAsked(u: Files, s: string, f: string, done: set<string>, todo: Libs, settled: Libs,
                        a: (string, string))
    requires Progress(u, s, f, done, todo, settled) && a in todo
    ensures AskedFor(u, s, f, done + {a.1}, a)
  {
    AskedGrows(u, s, f, done, a.1, a);
  }

  lemma ScanEnds(u: Files, s: string, f: string, done: set<string>, settled: Libs)
    requires Progress(u, s, f, done, {}, settled)
    ensures forall p :: p in done <==> Reached(u, f, p)
  {
    forall p | Reached(u, f, p)
      ensures p in done
    {
      var n: nat :| ReachedIn(u, f, p, n);
      ReachedIsCovered(u, s, f, done, p, n);
    }
  }

  // ---------- the order of the result ----------

  ghost function Bucket(tri: map<int, seq<SharedLibrary>>, d: int): seq<SharedLibrary> {
    if d in tri then tri[d] else []
  }

  /** The bucket holds the files of depth d in `seen`, by path. */
  ghost predicate BucketOk(scanned: Scanned, depths: map<string, nat>, seen: set<string>, d: int,
                           b: seq<SharedLibrary>) {
    && (forall k | 0 <= k < |b| ::
         var p := b[k].fullName; p in seen && p in scanned && scanned[p] == b[k] && p in depths && depths[p] == d)
    && (forall i, j | 0 <= i < j < |b| :: Before(b[i].fullName, b[j].fullName))
    && (forall p | p in seen && p in scanned && p in depths && depths[p] == d ::
         exists k :: 0 <= k < |b| && b[k].fullName == p)
  }

  lemma BucketGrows(scanned: Scanned, depths: map<string, nat>, seen: set<string>, i: string, b: seq<SharedLibrary>)
    requires i in scanned && i in depths && scanned[i].fullName == i
    requires BucketOk(scanned, depths, seen, depths[i], b)
    requires forall p | p in seen :: Before(p, i)
    ensures BucketOk(scanned, depths, seen + {i}, depths[i], b + [scanned[i]])
  {
    var b' := b + [scanned[i]];
    assert b'[|b|] == scanned[i];
    forall p | p in seen && p in scanned && p in depths && depths[p] == depths[i]
      ensures exists k :: 0 <= k < |b'| && b'[k].fullName == p
    {
      var k :| 0 <= k < |b| && b[k].fullName == p;
      assert b'[k].fullName == p;
    }
  }

  lemma BucketStays(scanned: Scanned, depths: map<string, nat>, seen: set<string>, i: string, d: int,
                    b: seq<SharedLibrary>)
    requires i in depths && depths[i] != d && BucketOk(scanned, depths, seen, d, b)
    ensures BucketOk(scanned, depths, seen + {i}, d, b)
  {
  }

  ghost predicate SortedBy(depths: map<string, nat>, list: seq<Dependency>) {
    && (forall i | 0 <= i < |list| :: list[i].found in depths)
    && forall i, j | 0 <= i < j < |list| ::
         var p, q := list[i].found, list[j].found;
         depths[p] < depths[q] || (depths[p] == depths[q] && Before(p, q))
  }

  ghost function Below(depths: map<string, nat>, j: int): set<string> {
    set p | p in depths && depths[p] < j
  }

  ghost predicate Lists(scanned: Scanned, list: seq<Dependency>, keys: set<string>) {
    && (forall i | 0 <= i < |list| ::
          list[i].found in keys && list[i].found in scanned && list[i].required == scanned[list[i].found].sName)
    && forall p | p in keys :: exists i :: 0 <= i < |list| && list[i].found == p
  }

  lemma NextBucket(scanned: Scanned, depths: map<string, nat>, j: nat, b: seq<SharedLibrary>, list: seq<Dependency>,
                   more: seq<Dependency>)
    requires depths.Keys == scanned.Keys
    requires forall p | p in scanned :: scanned[p].fullName == p
    requires SortedBy(depths, list) && Lists(scanned, list, Below(depths, j))
    requires BucketOk(scanned, depths, scanned.Keys, j, b)
    requires |more| == |b| && forall k | 0 <= k < |more| :: more[k] == Dependency(b[k].sName, b[k].fullName)
    ensures SortedBy(depths, list + more) && Lists(scanned, list + more, Below(depths, j + 1))
  {
    var all := list + more;
    forall p | p in depths && depths[p] < j + 1
      ensures exists i :: 0 <= i < |all| && all[i].found == p
    {
      if depths[p] < j {
        assert p in Below(depths, j);
        var i :| 0 <= i < |list| && list[i].found == p;
        assert all[i].found == p;
      } else {
        var k :| 0 <= k < |b| && b[k].fullName == p;
        assert all[|list| + k].found == p;
      }
    }
  }

  /** The needs of the files that are reached from f. */
  ghost predicate GraphOf(u: Files, f: string, g: Graph) {
    && (forall p :: p in g <==> Reached(u, f, p))
    && forall p | p in g :: g[p] == Paths(LibsOf(u, p))
  }

  /** What the files reached from f need, by name. */
  ghost predicate GivenBy(u: Files, f: string, needs: Needs) {
    && (forall p :: p in needs <==> Reached(u, f, p))
    && forall p | p in needs :: needs[p] == LibsOf(u, p)
  }

  ghost function NeedsOf(u: Files, keys: set<string>): Needs {
    map p | p in keys :: LibsOf(u, p)
  }

  lemma GivenGraph(u: Files, f: string, needs: Needs)
    requires GivenBy(u, f, needs)
    ensures GraphOf(u, f, Edges(needs))
  {
  }

  lemma RootReached(u: Files, f: string)
    ensures Scans(u, f) <==> Reached(u, f, f)
  {
    if Scans(u, f) {
      assert ReachedIn(u, f, f, 0);
    }
  }

  lemma GraphClosed(u: Files, f: string, g: Graph)
    requires GraphOf(u, f, g)
    ensures Closed(g) <==> Complete(u, f)
  {
    if Complete(u, f) {
      forall p, q | p in g && q in g[p]
        ensures q in g
      {
        var n: nat :| ReachedIn(u, f, p, n);
        assert ReachedIn(u, f, q, n + 1);
      }
    }
    if Closed(g) {
      forall p, q | Reached(u, f, p) && q in Paths(LibsOf(u, p))
        ensures Scans(u, q)
      {
        assert p in g && q in g[p] && Reached(u, f, q);
        var n: nat :| ReachedIn(u, f, q, n);
      }
    }
  }

  lemma CleanIsKnown(needs: Needs, p: string)
    requires Clean(needs, p)
    ensures p in needs
  {
    var n: nat :| CleanIn(needs, p, n);
  }

  lemma {:induction false} CleanReaches(u: Files, f: string, needs: Needs, p: string, n: nat)
    requires GivenBy(u, f, needs) && Clean(needs, f) && ReachedIn(u, f, p, n)
    ensures p in needs && Clean(needs, p)
    decreases n
  {
    hide Scans, LibsOf, Clean, Reached;
    if n > 0 {
      var q := ReachedBefore(u, f, p, n);
      CleanReaches(u, f, needs, q, n - 1);
      var a :| a in needs[q] && a.1 == p;
      CleanBelow(needs, q, a);
    }
    CleanIsKnown(needs, p);
  }

  lemma CleanIsComplete(u: Files, f: string, needs: Needs)
    requires GivenBy(u, f, needs) && Clean(needs, f)
    ensures Closed(Edges(needs))
  {
    var g := Edges(needs);
    forall p, q | p in g && q in g[p]
      ensures q in g
    {
      var n: nat :| ReachedIn(u, f, p, n);
      CleanReaches(u, f, needs, p, n);
      var a :| a in needs[p] && a.1 == q;
      CleanBelow(needs, p, a);
      var m: nat :| CleanIn(needs, q, m);
    }
  }

  lemma {:induction false} ClosedNeverMeets(needs: Needs, p: string, n: nat)
    requires Closed(Edges(needs))
    ensures !MeetsIn(needs, p, n)
    decreases n
  {
    if MeetsIn(needs, p, n) {
      var a :| ComesTo(needs, p, a) && !Clean(needs, a.1) &&
               if n == 0 then a.1 !in needs else MeetsIn(needs, a.1, n - 1);
      assert a.1 in Edges(needs)[p];
      if n > 0 {
        ClosedNeverMeets(needs, a.1, n - 1);
      }
    }
  }

  /** When the recursion over a usable file follows a record that is not there: exactly when
      the walk comes to an unusable file before it comes to a circle.  It never happens if
      whatever usable files lead to is usable; if the needs run in no circle, it happens
      whenever that is not so. */
  lemma MissingWhen(u: Files, f: string, needs: Needs)
    requires GivenBy(u, f, needs) && Scans(u, f)
    ensures f in needs
    ensures var r := Walk(needs, f, |needs|);
            && (r == Missing <==> Meets(needs, f))
            && (r == Missing ==> !Complete(u, f))
            && (!CycleFrom(Edges(needs), f) ==> (r == Missing <==> !Complete(u, f)))
            && (r == Noted <==> Complete(u, f) && !CycleFrom(Edges(needs), f))
            && (r == TooLong ==> CycleFrom(Edges(needs), f))
  {
    RootReached(u, f);
    GivenGraph(u, f, needs);
    hide Clean, Meets, Reached, Scans, Complete, CycleFrom, LibsOf, Closed, GivenBy, GraphOf;
    KnownReached(u, f, needs);
    GraphClosed(u, f, Edges(needs));
    WalkDecides(needs, f);
    if Clean(needs, f) {
      CleanIsComplete(u, f, needs);
      CleanHasNoCycle(needs, f);
    }
    if Closed(Edges(needs)) && Meets(needs, f) {
      ClosedMeets(needs, f);
    }
  }

  lemma KnownReached(u: Files, f: string, needs: Needs)
    requires GivenBy(u, f, needs) && Reached(u, f, f)
    ensures f in needs
  {
  }

  lemma ClosedMeets(needs: Needs, p: string)
    requires Closed(Edges(needs))
    ensures !Meets(needs, p)
  {
    if Meets(needs, p) {
      var n: nat :| MeetsIn(needs, p, n);
      ClosedNeverMeets(needs, p, n);
    }
  }

  lemma NotedDepths(u: Files, f: string, needs: Needs, scanned: Scanned) returns (depths: map<string, nat>)
    requires GivenBy(u, f, needs) && needs.Keys == scanned.Keys && DepthsOk(needs, scanned)
    requires f in scanned && scanned[f].depth >= 0
    ensures depths.Keys == scanned.Keys
    ensures forall p | p in scanned :: scanned[p].depth == depths[p] && Longest(Edges(needs), p, depths[p])
  {
    depths := map p | p in scanned :: if scanned[p].depth >= 0 then scanned[p].depth else 0;
    forall p | p in scanned
      ensures depths[p] == scanned[p].depth && Longest(Edges(needs), p, depths[p])
    {
      AllNoted(u, f, needs, scanned, p);
      assert DepthOk(needs, scanned, p);
    }
  }

  lemma ScanMirrors(u: Files, f: string, scanned: Scanned)
    requires forall p :: p in scanned <==> Reached(u, f, p)
    requires forall p | p in scanned :: scanned[p].depth == -1 && RecordOf(u, scanned[p], p)
    ensures var needs := NeedsOf(u, scanned.Keys);
            GivenBy(u, f, needs) && Mirrors(needs, scanned) && DepthsOk(needs, scanned)
  {
  }

  lemma SameSize(needs: Needs, scanned: Scanned)
    requires needs.Keys == scanned.Keys
    ensures |needs| == |scanned|
  {
    assert |needs| == |needs.Keys| && |scanned| == |scanned.Keys|;
  }

  lemma SortedIsLoadingOrder(u: Files, s: string, f: string, needs: Needs, scanned: Scanned, depths: map<string, nat>,
                             list: seq<Dependency>)
    requires needs.Keys == scanned.Keys == depths.Keys
    requires forall p | p in scanned :: Longest(Edges(needs), p, depths[p])
    requires forall p | p in scanned :: AskedFor(u, s, f, scanned.Keys, (scanned[p].sName, p))
    requires SortedBy(depths, list) && Lists(scanned, list, scanned.Keys)
    ensures LoadingOrder(u, s, f, Edges(needs), depths, list)
  {
  }

  /** When the depth of the root is known, that of everything it leads to is. */
  lemma AllNoted(u: Files, f: string, needs: Needs, scanned: Scanned, p: string)
    requires GivenBy(u, f, needs) && needs.Keys == scanned.Keys && DepthsOk(needs, scanned)
    requires f in scanned && scanned[f].depth >= 0 && p in scanned
    ensures scanned[p].depth >= 0
  {
    var n: nat :| ReachedIn(u, f, p, n);
    AllNotedIn(u, f, needs, scanned, p, n);
  }

  lemma {:induction false} AllNotedIn(u: Files, f: string, needs: Needs, scanned: Scanned, p: string, n: nat)
    requires GivenBy(u, f, needs) && needs.Keys == scanned.Keys && DepthsOk(needs, scanned)
    requires f in scanned && scanned[f].depth >= 0 && ReachedIn(u, f, p, n)
    ensures p in scanned && scanned[p].depth >= 0
    decreases n
  {
    hide Scans, LibsOf, Longest, Reached;
    if n > 0 {
      var q := ReachedBefore(u, f, p, n);
      AllNotedIn(u, f, needs, scanned, q, n - 1);
      var a :| a in needs[q] && a.1 == p;
      assert DepthOk(needs, scanned, q);
    }
  }

  /** Every file reached from f once, deeper ones later. */
  ghost predicate LoadingOrder(u: Files, s: string, f: string, g: Graph, depths: map<string, nat>,
                               list: seq<Dependency>) {
    && depths.Keys == g.Keys && (forall p | p in g :: Longest(g, p, depths[p]))
    && SortedBy(depths, list)
    && (forall i | 0 <= i < |list| :: AskedFor(u, s, f, g.Keys, (list[i].required, list[i].found)))
    && forall p | p in g :: exists i :: 0 <= i < |list| && list[i].found == p
  }

  /** Nothing is listed twice, and everything a file needs is listed before it. */
  lemma LoadingOrderIsTopological(u: Files, s: string, f: string, g: Graph, depths: map<string, nat>,
                                  list: seq<Dependency>)
    requires LoadingOrder(u, s, f, g, depths, list) && Closed(g)
    ensures forall i, j | 0 <= i < j < |list| :: list[i].found != list[j].found
    ensures forall i | 0 <= i < |list| :: list[i].found in g &&
              forall q | q in g[list[i].found] :: exists j :: 0 <= j < i && list[j].found == q
  {
    hide Longest, AskedFor, Before;
    forall i, j | 0 <= i < j < |list|
      ensures list[i].found != list[j].found
    {
      Irreflexive(list[i].found);
    }
    forall i, q | 0 <= i < |list| && q in g[list[i].found]
      ensures exists j :: 0 <= j < i && list[j].found == q
    {
      var p := list[i].found;
      DependencyIsShallower(g, p, q, depths[p], depths[q]);
      var j :| 0 <= j < |list| && list[j].found == q;
      assert j < i;
    }
  }

  ghost predicate Holds(list: seq<Dependency>, p: string) {
    exists i :: 0 <= i < |list| && list[i].found == p
  }

  /** Where the first i files agree, so does the next one. */
  lemma NextAgrees(depths: map<string, nat>, list: seq<Dependency>, list': seq<Dependency>, i: nat)
    requires SortedBy(depths, list) && SortedBy(depths, list') && i < |list| && i <= |list'|
    requires forall k | 0 <= k < i :: list[k].found == list'[k].found
    requires Holds(list', list[i].found) && (i < |list'| ==> Holds(list, list'[i].found))
    ensures i < |list'| && list[i].found == list'[i].found
  {
    hide Before;
    var p, q := list[i].found, if i < |list'| then list'[i].found else list[i].found;
    Irreflexive(p);
    Irreflexive(q);
    var j :| 0 <= j < |list'| && list'[j].found == p;
    assert i <= j;
    var m :| 0 <= m < |list| && list[m].found == q;
    assert i <= m;
    Asymmetric(p, q);
  }

  lemma SameDepths(g: Graph, depths: map<string, nat>, depths': map<string, nat>)
    requires depths.Keys == depths'.Keys == g.Keys
    requires forall p | p in g :: Longest(g, p, depths[p]) && Longest(g, p, depths'[p])
    ensures depths == depths'
  {
    forall p | p in g
      ensures depths[p] == depths'[p]
    {
      LongestUnique(g, p, depths[p], depths'[p]);
    }
  }

  lemma SameLoadingDepths(u: Files, s: string, f: string, g: Graph, depths: map<string, nat>, list: seq<Dependency>,
                          depths': map<string, nat>, list': seq<Dependency>)
    requires LoadingOrder(u, s, f, g, depths, list) && LoadingOrder(u, s, f, g, depths', list')
    ensures depths == depths'
  {
    hide Longest, SortedBy, AskedFor;
    SameDepths(g, depths, depths');
  }

  lemma OrderOfFiles(u: Files, s: string, f: string, g: Graph, depths: map<string, nat>, list: seq<Dependency>)
    requires LoadingOrder(u, s, f, g, depths, list)
    ensures SortedBy(depths, list) && forall p | p in g :: Holds(list, p)
    ensures forall i | 0 <= i < |list| :: list[i].found in g
  {
    hide Longest, Before, AskedFor;
  }

  /** There is one such order of the files. */
  lemma {:induction false} OneLoadingOrder(u: Files, s: string, f: string, g: Graph, depths: map<string, nat>,
                                           list: seq<Dependency>, depths': map<string, nat>, list': seq<Dependency>,
                                           n: nat)
    requires LoadingOrder(u, s, f, g, depths, list) && LoadingOrder(u, s, f, g, depths', list')
    requires n <= |list|
    ensures n <= |list'| && forall k | 0 <= k < n :: list[k].found == list'[k].found
  {
    hide *;
    if n > 0 {
      OneLoadingOrder(u, s, f, g, depths, list, depths', list', n - 1);
      SameLoadingDepths(u, s, f, g, depths, list, depths', list');
      OrderOfFiles(u, s, f, g, depths, list);
      OrderOfFiles(u, s, f, g, depths', list');
      NextAgrees(depths, list, list', n - 1);
    }
  }

  ghost predicate RecordsOk(u: Files, scanned: Scanned)
    reads scanned.Values
  {
    forall p | p in scanned :: scanned[p].depth == -1 && RecordOf(u, scanned[p], p)
  }

  ghost predicate NamesOk(u: Files, s: string, f: string, done: set<string>, scanned: Scanned) {
    forall p | p in scanned :: AskedFor(u, s, f, done, (scanned[p].sName, p))
  }

  lemma NoRecords(u: Files, s: string, f: string)
    ensures RecordsOk(u, map[]) && NamesOk(u, s, f, {}, map[])
  {
  }

  lemma RecordsMean(u: Files, s: string, f: string, done: set<string>, scanned: Scanned)
    requires RecordsOk(u, scanned) && NamesOk(u, s, f, done, scanned)
    ensures forall p | p in scanned :: scanned[p].depth == -1 && RecordOf(u, scanned[p], p)
    ensures forall p | p in scanned :: AskedFor(u, s, f, done, (scanned[p].sName, p))
  {
  }

  ghost function Settle(settled: Libs, name: (string, string)): Libs {
    settled + {name}
  }

  ghost function PairsLeft(u: Files, s: string, f: string, settled: Libs): nat {
    |AllPairs(u, s, f) - settled|
  }

  function Done(scanned: Scanned, p: string): set<string> {
    scanned.Keys + {p}
  }

  function Recorded(scanned: Scanned, p: string, l: SharedLibrary): (r: Scanned)
    ensures r.Keys == scanned.Keys + {p}
    ensures r[p] == l && forall q | q in scanned && q != p :: r[q] == scanned[q]
  {
    scanned[p := l]
  }

  /** The state of the search between two files, with the records made so far. */
  ghost predicate Scanning(u: Files, s: string, f: string, todo: Libs, settled: Libs, scanned: Scanned)
    reads scanned.Values
  {
    && Progress(u, s, f, scanned.Keys, todo, settled) && RecordsOk(u, scanned)
    && NamesOk(u, s, f, scanned.Keys, scanned)
  }

  lemma ScanningStarts(u: Files, s: string, f: string)
    ensures Scanning(u, s, f, {(s, f)}, {}, map[])
  {
    ScanStarts(u, s, f);
    NoRecords(u, s, f);
  }

  lemma ScanningDrops(u: Files, s: string, f: string, todo: Libs, settled: Libs, scanned: Scanned,
                      name: (string, string))
    requires Scanning(u, s, f, todo, settled, scanned) && name in todo && !Scans(u, name.1)
    ensures Scanning(u, s, f, Less(todo, name), settled, scanned)
  {
    hide Progress, RecordsOk, NamesOk;
    ScanFails(u, s, f, scanned.Keys, todo, settled, name);
  }

  lemma ScanningNext(u: Files, s: string, f: string, todo: Libs, settled: Libs, scanned: Scanned,
                     name: (string, string), l: SharedLibrary)
    requires Scanning(u, s, f, todo, settled, scanned) && name in todo
    requires l.depth == -1 && RecordOf(u, l, name.1) && l.sName == name.0 && Scans(u, name.1)
    ensures Scanning(u, s, f, Enqueued(l.libs, Done(scanned, name.1), Less(todo, name)), Settle(settled, name),
                     Recorded(scanned, name.1, l))
    ensures PairsLeft(u, s, f, Settle(settled, name)) < PairsLeft(u, s, f, settled)
  {
    hide Progress, RecordsOk, NamesOk, Scans, Enqueued, Recorded, RecordOf, AllPairs;
    ScanSucceeds(u, s, f, scanned.Keys, todo, settled, name);
    OneMoreRecord(u, s, f, scanned.Keys, todo, settled, scanned, name, l);
  }

  lemma ScanningEnds(u: Files, s: string, f: string, settled: Libs, scanned: Scanned)
    requires Scanning(u, s, f, {}, settled, scanned)
    ensures forall p :: p in scanned <==> Reached(u, f, p)
    ensures forall p | p in scanned :: scanned[p].depth == -1 && RecordOf(u, scanned[p], p)
    ensures forall p | p in scanned :: AskedFor(u, s, f, scanned.Keys, (scanned[p].sName, p))
  {
    hide Progress, Reached, AskedFor, RecordOf;
    RecordsMean(u, s, f, scanned.Keys, scanned);
    ScanEnds(u, s, f, scanned.Keys, settled);
  }

  lemma OneMoreRecord(u: Files, s: string, f: string, done: set<string>, todo: Libs, settled: Libs, scanned: Scanned,
                      name: (string, string), l: SharedLibrary)
    requires RecordsOk(u, scanned) && NamesOk(u, s, f, done, scanned)
    requires Progress(u, s, f, done, todo, settled) && name in todo
    requires l.depth == -1 && RecordOf(u, l, name.1) && l.sName == name.0
    ensures RecordsOk(u, Recorded(scanned, name.1, l))
    ensures NamesOk(u, s, f, done + {name.1}, Recorded(scanned, name.1, l))
    ensures l.libs == LibsOf(u, name.1)
  {
    hide AskedFor, Progress;
    WaitingWasAsked(u, s, f, done, todo, settled, name);
    forall p | p in scanned && p != name.1
      ensures AskedFor(u, s, f, done + {name.1}, (scanned[p].sName, p))
    {
      AskedGrows(u, s, f, done, name.1, (scanned[p].sName, p));
    }
  }

  class Ldd {
    var deps: seq<Dependency>

    constructor ()
      ensures deps == []
    {
      deps := [];
    }

    /** The record of a file, if it can be read. */
    method ExtractLibraries(u: Files, sName: string, fullPath: string) returns (l: SharedLibrary?)
      ensures l == null <==> fullPath !in u.elf
      ensures l != null ==>
                && fresh(l) && l.sName == sName && l.fullName == fullPath && l.depth == -1
                && l.path == u.elf[fullPath].path && Names(l.libs) == NeededBy(u.elf[fullPath])
    {
      if fullPath !in u.elf {
        return null;
      }
      l := new SharedLibrary(sName, fullPath, u.elf[fullPath]);
    }

    /** The record of a file with all its needs resolved, if it is usable. */
    method ScanOne(u: Files, sName: string, fullPath: string) returns (l: SharedLibrary?)
      ensures l != null <==> Scans(u, fullPath)
      ensures l != null ==> fresh(l) && l.sName == sName && l.depth == -1 && RecordOf(u, l, fullPath)
    {
      l := ExtractLibraries(u, sName, fullPath);
      if l != null {
        var found := l.SearchLibs(u);
        if !found {
          l := null;
        }
      }
    }

    /** Adds what a file needs to the files still to be looked at. */
    method Enqueue(full: Libs, done: set<string>, todo: Libs) returns (r: Libs)
      ensures r == Enqueued(full, done, todo)
    {
      r := todo;
      var rest := full;
      while rest != {}
        invariant rest <= full
        invariant r == todo + set l | l in full && l !in rest && l.1 !in done
      {
        var ii := First(rest);
        if ii !in r && ii.1 !in done {
          r := r + {ii};
        }
        rest := rest - {ii};
      }
    }

    /** Looks at one of the waiting pairs.  A usable file is recorded and its needs are
        added; the pair of another one is dropped, and may come back if somebody else needs
        it. */
    method ScanNext(u: Files, s: string, f: string, todo: Libs, scanned: Scanned, ghost settled: Libs)
      returns (todo': Libs, scanned': Scanned, ghost settled': Libs)
      requires todo != {} && Scanning(u, s, f, todo, settled, scanned)
      ensures Scanning(u, s, f, todo', settled', scanned')
      ensures forall p | p in scanned' :: fresh(scanned'[p]) || (p in scanned && scanned'[p] == scanned[p])
      ensures PairsLeft(u, s, f, settled') < PairsLeft(u, s, f, settled) || (settled' == settled && |todo'| < |todo|)
    {
      var name := First(todo);
      var l := ScanOne(u, name.0, name.1);
      hide *;
      if l != null {
        todo' := Enqueue(l.libs, Done(scanned, name.1), Less(todo, name));
        scanned', settled' := Recorded(scanned, name.1, l), Settle(settled, name);
        ScanningNext(u, s, f, todo, settled, scanned, name, l);
      } else {
        ScanningDrops(u, s, f, todo, settled, scanned, name);
        todo', scanned', settled' := Less(todo, name), scanned, settled;
      }
    }

    /** Scans a file and everything it leads to.  What ends up scanned is exactly what is
        reached from it through usable files, whatever circles the files run in. */
    method Scan(u: Files, s: string, f: string) returns (scanned: Scanned)
      ensures forall p :: p in scanned <==> Reached(u, f, p)
      ensures forall p | p in scanned :: fresh(scanned[p]) && scanned[p].depth == -1 && RecordOf(u, scanned[p], p)
      ensures forall p | p in scanned :: AskedFor(u, s, f, scanned.Keys, (scanned[p].sName, p))
    {
      var todo: Libs := {(s, f)};
      scanned := map[];
      ghost var settled: Libs := {};
      ScanningStarts(u, s, f);
      hide Scanning, AskedFor, RecordOf, AllPairs, Reached;
      while todo != {}
        invariant Scanning(u, s, f, todo, settled, scanned)
        invariant forall p | p in scanned :: fresh(scanned[p])
        decreases PairsLeft(u, s, f, settled), |todo|
      {
        todo, scanned, settled := ScanNext(u, s, f, todo, scanned, settled);
      }
      ScanningEnds(u, s, f, settled, scanned);
    }

    /** The records by depth, and within one depth by path. */
    method Sort(scanned: Scanned, ghost depths: map<string, nat>) returns (list: seq<Dependency>)
      requires depths.Keys == scanned.Keys
      requires forall p | p in scanned :: scanned[p].fullName == p && scanned[p].depth == depths[p]
      ensures SortedBy(depths, list) && Lists(scanned, list, scanned.Keys)
    {
      var tri: map<int, seq<SharedLibrary>> := map[];
      var maxi := 0;
      var rest := scanned.Keys;
      ghost var seen: set<string> := {};
      while rest != {}
        invariant rest + seen == scanned.Keys && rest !! seen
        invariant forall p, q | p in seen && q in rest :: Before(p, q)
        invariant forall p | p in seen :: depths[p] <= maxi
        invariant forall d {:trigger Bucket(tri, d)} :: BucketOk(scanned, depths, seen, d, Bucket(tri, d))
      {
        LeastExists(rest);
        var i :| IsLeast(rest, i);
        var p := scanned[i].depth;
        if p > maxi {
          maxi := p;
        }
        ghost var tri0 := tri;
        if p !in tri {
          tri := tri[p := []];
        }
        tri := tri[p := tri[p] + [scanned[i]]];
        forall d
          ensures BucketOk(scanned, depths, seen + {i}, d, Bucket(tri, d))
        {
          assert BucketOk(scanned, depths, seen, d, Bucket(tri0, d));
          if d == p {
            BucketGrows(scanned, depths, seen, i, Bucket(tri0, d));
          } else {
            BucketStays(scanned, depths, seen, i, d, Bucket(tri0, d));
          }
        }
        rest, seen := rest - {i}, seen + {i};
      }
      assert seen == scanned.Keys;
      list := [];
      for j := 0 to maxi + 1
        invariant SortedBy(depths, list) && Lists(scanned, list, Below(depths, j))
      {
        var vectore := if j in tri then tri[j] else [];
        var more := Emit(vectore);
        assert BucketOk(scanned, depths, scanned.Keys, j, Bucket(tri, j));
        NextBucket(scanned, depths, j, vectore, list, more);
        list := list + more;
      }
      assert Below(depths, maxi + 1) == scanned.Keys;
    }

    method Emit(vectore: seq<SharedLibrary>) returns (more: seq<Dependency>)
      ensures |more| == |vectore|
      ensures forall k | 0 <= k < |more| :: more[k] == Dependency(vectore[k].sName, vectore[k].fullName)
    {
      more := [];
      for k := 0 to |vectore|
        invariant |more| == k
        invariant forall j | 0 <= j < k :: more[j] == Dependency(vectore[j].sName, vectore[j].fullName)
      {
        more := more + [Dependency(vectore[k].sName, vectore[k].fullName)];
      }
    }

    /** What a file needs, itself included, in loading order.  Nothing is listed when the
        file is not usable, or when the needs run in a circle; and there is no list when the
        recursion comes to a file without a record. */
    method Loop(u: Files, s: string, f: string)
      returns (r: Outcome, ghost needs: Needs, ghost depths: map<string, nat>, ghost list: seq<Dependency>)
      modifies this`deps
      ensures GivenBy(u, f, needs) && (f in needs <==> Scans(u, f))
      ensures r == if f in needs then Walk(needs, f, |needs|) else Unusable
      ensures deps == old(deps) + list
      ensures if r == Noted then LoadingOrder(u, s, f, Edges(needs), depths, list) else list == []
    {
      var scanned := Scan(u, s, f);
      needs, depths, list := NeedsOf(u, scanned.Keys), map[], [];
      ScanMirrors(u, f, scanned);
      RootReached(u, f);
      if f !in scanned {
        return Unusable, needs, depths, list;
      }
      var sorted;
      r, depths, sorted := Order(u, s, f, scanned, needs);
      deps, list := deps + sorted, sorted;
    }

    /** Tests for circles by a bounded recursion, then sorts. */
    method Order(u: Files, s: string, f: string, scanned: Scanned, ghost needs: Needs)
      returns (r: Outcome, ghost depths: map<string, nat>, list: seq<Dependency>)
      requires f in scanned && GivenBy(u, f, needs) && Mirrors(needs, scanned) && DepthsOk(needs, scanned)
      requires forall p | p in scanned :: AskedFor(u, s, f, scanned.Keys, (scanned[p].sName, p))
      modifies scanned.Values`depth
      ensures f in needs && r == Walk(needs, f, |needs|)
      ensures if r == Noted then LoadingOrder(u, s, f, Edges(needs), depths, list) else list == []
    {
      hide HasChain, CycleFrom, Longest, Edges, Reached, Scans, LibsOf, GivenBy, DepthsOk, LoadingOrder, AskedFor,
           Shown, SortedBy, Lists;
      depths := map[];
      MirrorsAt(needs, scanned, f);
      SameSize(needs, scanned);
      r := scanned[f].CalcDepth(|scanned|, scanned, needs);
      WalkShows(needs, f, |needs|);
      OneOutcome(needs, f, r, Walk(needs, f, |needs|));
      if r != Noted {
        return r, depths, [];
      }
      depths := NotedDepths(u, f, needs, scanned);
      list := Sort(scanned, depths);
      SortedIsLoadingOrder(u, s, f, needs, scanned, depths, list);
    }
  }
}
