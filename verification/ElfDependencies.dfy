/** What is handed to the loader (model/elf-dependencies.cc): the resolver's list, without
    the dynamic linker, and the file itself last. */
module ElfDependencies {
  import opened Options
  import opened Chains
  import opened DepthWalk
  import opened ElfLdd
  import ElfCache

  predicate Ignored(name: string) {
    || name == "linux-gate.so.1" || name == "ld-linux.so.2" || name == "ld-linux-x86-64.so.2"
    || name == "/lib/ld-linux.so.2" || name == "/lib64/ld-linux-x86-64.so.2"
    || name == "/usr/lib/debug/ld-linux-x86-64.so.2" || name == "linux-vdso.so.1"
  }

  function Filtered(list: seq<Dependency>): (r: seq<Dependency>)
    ensures |r| <= |list|
  {
    if list == [] then []
    else
      var last := list[|list| - 1];
      Filtered(list[..|list| - 1]) + (if Ignored(last.required) then [] else [last])
  }

  /** Where an entry that is kept ends up, and where a kept entry comes from. */
  lemma {:induction false} FilteredAt(list: seq<Dependency>, i: nat)
    requires i < |list| && !Ignored(list[i].required)
    ensures |Filtered(list[..i])| < |Filtered(list)| && Filtered(list)[|Filtered(list[..i])|] == list[i]
  {
    var init := list[..|list| - 1];
    if i < |init| {
      FilteredAt(init, i);
      assert init[..i] == list[..i];
    } else {
      assert list[..i] == init;
    }
  }

  lemma {:induction false} FilteredFrom(list: seq<Dependency>, k: nat) returns (i: nat)
    requires k < |Filtered(list)|
    ensures i < |list| && !Ignored(list[i].required) && |Filtered(list[..i])| == k && list[i] == Filtered(list)[k]
  {
    var init := list[..|list| - 1];
    if k < |Filtered(init)| {
      i := FilteredFrom(init, k);
      assert init[..i] == list[..i];
    } else {
      i := |list| - 1;
      assert list[..i] == init;
    }
  }

  lemma {:induction false} FilteredMonotone(list: seq<Dependency>, i: nat, j: nat)
    requires i < j <= |list| && !Ignored(list[i].required)
    ensures |Filtered(list[..i])| < |Filtered(list[..j])|
  {
    assert list[..j][..i] == list[..i] && list[..j][i] == list[i];
    FilteredAt(list[..j], i);
  }

  method WithoutLinker(list: seq<Dependency>) returns (res: seq<Dependency>)
    ensures res == Filtered(list)
  {
    res := [];
    for i := 0 to |list|
      invariant res == Filtered(list[..i])
    {
      assert list[..i + 1][..i] == list[..i];
      if !Ignored(list[i].required) {
        res := res + [list[i]];
      }
    }
    assert list[..|list|] == list;
  }

  // ---------- the list supplies itself ----------

  /** Needed names are plain file names of real files, search directories end in a slash. */
  predicate Plain(elf: Elf) {
    && (forall n | n in elf.needed :: '/' !in n && n != "linux-gate.so.1" && n != "linux-vdso.so.1")
    && forall d | d in elf.path :: d != [] && d[|d| - 1] == '/'
  }

  ghost predicate Tame(u: Files, s: string, f: string) {
    !Ignored(s) && forall p | Reached(u, f, p) :: p in u.elf && Plain(u.elf[p])
  }

  ghost predicate Regular(u: Files, s: string, f: string) {
    Scans(u, f) && Complete(u, f) && Tame(u, s, f)
  }

  lemma PlainIsKept(name: string)
    requires '/' !in name && name != "linux-gate.so.1" && name != "linux-vdso.so.1" && !ElfCache.Linker(name)
    ensures !Ignored(name)
  {
    assert "/lib/ld-linux.so.2"[0] == '/' && "/lib64/ld-linux-x86-64.so.2"[0] == '/'
           && "/usr/lib/debug/ld-linux-x86-64.so.2"[0] == '/';
  }

  /** Whatever the k-th file needs bears the name of an earlier one. */
  ghost predicate SuppliedAt(u: Files, deps: seq<Dependency>, k: nat)
    requires k < |deps|
  {
    deps[k].found in u.elf &&
    forall n | n in ElfCache.Kept(u.elf[deps[k].found].needed) :: EarlierHas(deps, k, n)
  }

  ghost predicate EarlierHas(deps: seq<Dependency>, k: nat, n: string)
    requires k <= |deps|
  {
    exists j :: 0 <= j < k && ElfCache.GetBasename(deps[j].found) == n
  }

  lemma {:induction false} ResolvedBasename(u: Files, path: seq<string>, name: string)
    requires Resolve(u, path, name).Some? && '/' !in name
    requires forall d | d in path :: d != [] && d[|d| - 1] == '/'
    ensures ElfCache.GetBasename(Resolve(u, path, name).value) == name
  {
    if path[0] + name in u.exist {
      assert path[0] in path;
      ElfCache.BasenameInDirectory(path[0], name);
    } else {
      forall d | d in path[1..]
        ensures d in path
      {
      }
      ResolvedBasename(u, path[1..], name);
    }
  }

  /** A plain name is found under that name, and is not dropped by the filter. */
  lemma FoundIsKept(u: Files, s: string, f: string, g: Graph, p: string, n: string, d: Dependency)
    requires Regular(u, s, f) && GraphOf(u, f, g) && p in g && n in ElfCache.Kept(u.elf[p].needed)
    requires Resolve(u, u.elf[p].path, n) == Some(d.found)
    requires AskedFor(u, s, f, g.Keys, (d.required, d.found))
    ensures ElfCache.GetBasename(d.found) == n && !Ignored(d.required)
  {
    ResolvedBasename(u, u.elf[p].path, n);
    if (d.required, d.found) != (s, f) {
      var q :| q in g && (d.required, d.found) in LibsOf(u, q);
      assert d.required in NeededBy(u.elf[q]) && Plain(u.elf[q]);
      ResolvedBasename(u, u.elf[q].path, d.required);
      PlainIsKept(n);
    }
  }

  lemma NeededComesEarlier(u: Files, s: string, f: string, g: Graph, depths: map<string, nat>, list: seq<Dependency>,
                           p: string, n: string, i: nat) returns (j: nat)
    requires Regular(u, s, f) && GraphOf(u, f, g) && LoadingOrder(u, s, f, g, depths, list)
    requires p in g && n in ElfCache.Kept(u.elf[p].needed) && (i == |list| || (i < |list| && list[i].found == p))
    ensures j < i && !Ignored(list[j].required) && ElfCache.GetBasename(list[j].found) == n
  {
    GraphClosed(u, f, g);
    LoadingOrderIsTopological(u, s, f, g, depths, list);
    assert n in NeededBy(u.elf[p]) && Scans(u, p);
    var q := Resolve(u, u.elf[p].path, n).value;
    assert (n, q) in LibsOf(u, p);
    assert q in g[p];
    if i < |list| {
      j :| 0 <= j < i && list[j].found == q;
    } else {
      j :| 0 <= j < |list| && list[j].found == q;
    }
    FoundIsKept(u, s, f, g, p, n, list[j]);
  }

  lemma ListSuppliesItself(u: Files, s: string, f: string, g: Graph, depths: map<string, nat>, list: seq<Dependency>,
                           k: nat)
    requires Regular(u, s, f) && GraphOf(u, f, g) && LoadingOrder(u, s, f, g, depths, list)
    requires k <= |Filtered(list)|
    ensures SuppliedAt(u, Filtered(list) + [Dependency(s, f)], k)
    ensures (Filtered(list) + [Dependency(s, f)])[k].found in g
  {
    hide LoadingOrder, Regular, Ignored;
    var deps := Filtered(list) + [Dependency(s, f)];
    var i := |list|;
    if k < |Filtered(list)| {
      i := FilteredFrom(list, k);
    }
    EntryInGraph(u, s, f, g, depths, list, i);
    var p := deps[k].found;
    forall n | n in ElfCache.Kept(u.elf[p].needed)
      ensures EarlierHas(deps, k, n)
    {
      var j := NeededComesEarlier(u, s, f, g, depths, list, p, n, i);
      FilteredAt(list, j);
      if i < |list| {
        FilteredMonotone(list, j, i);
      }
      assert deps[|Filtered(list[..j])|] == list[j];
    }
  }

  /** Every entry of the list but the file itself is needed, under its own name, by a file
      that was reached. */
  lemma NeededBySomebody(u: Files, s: string, f: string, g: Graph, depths: map<string, nat>, list: seq<Dependency>,
                         k: nat) returns (q: string)
    requires Regular(u, s, f) && GraphOf(u, f, g) && LoadingOrder(u, s, f, g, depths, list)
    requires k < |Filtered(list)| && Filtered(list)[k].found != f
    ensures q in g && q in u.elf && Reached(u, f, q)
    ensures ElfCache.GetBasename(Filtered(list)[k].found) in ElfCache.Kept(u.elf[q].needed)
  {
    var i := FilteredFrom(list, k);
    var a := (list[i].required, list[i].found);
    assert AskedFor(u, s, f, g.Keys, a);
    q :| q in g && a in LibsOf(u, q);
    assert a.0 in NeededBy(u.elf[q]) && Plain(u.elf[q]);
    ResolvedBasename(u, u.elf[q].path, a.0);
  }

  lemma EntryOf(u: Files, s: string, f: string, g: Graph, depths: map<string, nat>, list: seq<Dependency>,
                q: string) returns (i: nat)
    requires LoadingOrder(u, s, f, g, depths, list) && q in g
    ensures i < |list| && list[i].found == q && AskedFor(u, s, f, g.Keys, (list[i].required, q))
  {
    i :| 0 <= i < |list| && list[i].found == q;
  }

  /** The name by which a file other than the first was asked is its own. */
  lemma AskedByBasename(u: Files, s: string, f: string, g: Graph, a: (string, string))
    requires Regular(u, s, f) && GraphOf(u, f, g) && AskedFor(u, s, f, g.Keys, a) && a.1 != f
    ensures ElfCache.GetBasename(a.1) == a.0 && '/' !in a.0 && a.0 != "linux-gate.so.1" && a.0 != "linux-vdso.so.1"
  {
    var r :| r in g && a in LibsOf(u, r);
    assert a.0 in NeededBy(u.elf[r]) && Plain(u.elf[r]);
    hide ElfCache.GetBasename;
    ResolvedBasename(u, u.elf[r].path, a.0);
  }

  /** Every file that was reached is in the list, unless it is the dynamic linker. */
  lemma ListedUnlessLinker(u: Files, s: string, f: string, g: Graph, depths: map<string, nat>, list: seq<Dependency>,
                           q: string) returns (j: nat)
    requires Regular(u, s, f) && GraphOf(u, f, g) && LoadingOrder(u, s, f, g, depths, list)
    requires q in g && (q == f || !ElfCache.Linker(ElfCache.GetBasename(q)))
    ensures j <= |Filtered(list)| && (Filtered(list) + [Dependency(s, f)])[j].found == q
  {
    hide Regular, GraphOf, LoadingOrder, AskedFor, Filtered, Ignored, ElfCache.GetBasename, ElfCache.Linker;
    if q == f {
      j := |Filtered(list)|;
    } else {
      var i := EntryOf(u, s, f, g, depths, list, q);
      AskedByBasename(u, s, f, g, (list[i].required, q));
      PlainIsKept(list[i].required);
      FilteredAt(list, i);
      j := |Filtered(list[..i])|;
    }
  }

  lemma EntryInGraph(u: Files, s: string, f: string, g: Graph, depths: map<string, nat>, list: seq<Dependency>, i: nat)
    requires Regular(u, s, f) && GraphOf(u, f, g) && LoadingOrder(u, s, f, g, depths, list) && i <= |list|
    ensures var p := if i < |list| then list[i].found else f; p in g && p in u.elf
  {
    RootReached(u, f);
    var p := if i < |list| then list[i].found else f;
    assert p in g;
    var n: nat :| ReachedIn(u, f, p, n);
  }

  // ---------- the list for the loader ----------

  /** The dependencies of a file, without the linker's own, and the file itself last.  If
      the walk settles the file, whatever an entry needs comes earlier in the list; and if it
      comes to a file without a record, there is no list. */
  method GatherDependencies(u: Files, filename: string, fullname: string)
    returns (r: Outcome, deps: seq<Dependency>, ghost needs: Needs, ghost depths: map<string, nat>,
             ghost list: seq<Dependency>)
    ensures GivenBy(u, fullname, needs) && (fullname in needs <==> Scans(u, fullname))
    ensures r == if fullname in needs then Walk(needs, fullname, |needs|) else Unusable
    ensures if r == Noted then LoadingOrder(u, filename, fullname, Edges(needs), depths, list) else list == []
    ensures deps == if r == Missing then [] else Filtered(list) + [Dependency(filename, fullname)]
    ensures forall k | 0 <= k < |deps| - 1 :: !Ignored(deps[k].required)
    ensures deps != [] ==> OnlyLinkerGone(list, deps[..|deps| - 1])
    ensures r == Noted && Tame(u, filename, fullname) ==> forall k | 0 <= k < |deps| :: SuppliedAt(u, deps, k)
  {
    hide *;
    var tool := new Ldd();
    r, needs, depths, list := tool.Loop(u, filename, fullname);
    assert tool.deps == list;
    if r == Missing {
      return r, [], needs, depths, list;
    }
    var kept := WithoutLinker(tool.deps);
    deps := kept + [Dependency(filename, fullname)];
    FilteredIsClean(list);
    LinkerGone(list);
    assert deps[..|deps| - 1] == Filtered(list);
    if r == Noted && Tame(u, filename, fullname) {
      NotedIsRegular(u, filename, fullname, needs);
      GatheredSuppliesItself(u, filename, fullname, needs, depths, list);
    }
  }

  lemma FilteredIsClean(list: seq<Dependency>)
    ensures forall k | 0 <= k < |Filtered(list)| :: !Ignored(Filtered(list)[k].required)
  {
    forall k | 0 <= k < |Filtered(list)|
      ensures !Ignored(Filtered(list)[k].required)
    {
      var i := FilteredFrom(list, k);
    }
  }

  ghost predicate InOrder(list: seq<Dependency>, a: Dependency, b: Dependency) {
    exists i, j | 0 <= i < j < |list| :: list[i] == a && list[j] == b
  }

  /** What was asked for under one of the linker's names is gone, and the rest is there,
      in the same order. */
  ghost predicate OnlyLinkerGone(list: seq<Dependency>, kept: seq<Dependency>) {
    && (forall d :: d in kept <==> d in list && !Ignored(d.required))
    && forall k, m | 0 <= k < m < |kept| :: InOrder(list, kept[k], kept[m])
  }

  lemma IgnoredNames(name: string)
    ensures Ignored(name) <==>
              name in ["linux-gate.so.1", "ld-linux.so.2", "ld-linux-x86-64.so.2", "/lib/ld-linux.so.2",
                       "/lib64/ld-linux-x86-64.so.2", "/usr/lib/debug/ld-linux-x86-64.so.2", "linux-vdso.so.1"]
  {
  }

  lemma KeptWhen(list: seq<Dependency>, d: Dependency)
    ensures d in Filtered(list) <==> d in list && !Ignored(d.required)
  {
    hide Ignored;
    if d in Filtered(list) {
      var k :| 0 <= k < |Filtered(list)| && Filtered(list)[k] == d;
      var i := FilteredFrom(list, k);
    }
    if d in list && !Ignored(d.required) {
      var i :| 0 <= i < |list| && list[i] == d;
      FilteredAt(list, i);
    }
  }

  lemma LinkerGone(list: seq<Dependency>)
    ensures OnlyLinkerGone(list, Filtered(list))
  {
    hide Ignored;
    var kept := Filtered(list);
    forall d
      ensures d in kept <==> d in list && !Ignored(d.required)
    {
      KeptWhen(list, d);
    }
    forall k, m | 0 <= k < m < |kept|
      ensures InOrder(list, kept[k], kept[m])
    {
      KeptInOrder(list, k, m);
    }
  }

  lemma KeptInOrder(list: seq<Dependency>, k: nat, m: nat)
    requires k < m < |Filtered(list)|
    ensures InOrder(list, Filtered(list)[k], Filtered(list)[m])
  {
    hide Ignored;
    var i := FilteredFrom(list, k);
    var j := FilteredFrom(list, m);
    if j <= i {
      assert list[..i][..j] == list[..j];
      FilteredIsShorter(list[..i], j);
    }
  }

  lemma {:induction false} FilteredIsShorter(list: seq<Dependency>, j: nat)
    requires j <= |list|
    ensures |Filtered(list[..j])| <= |Filtered(list)|
  {
    if j < |list| {
      FilteredIsShorter(list[..|list| - 1], j);
      assert list[..|list| - 1][..j] == list[..j];
    } else {
      assert list[..j] == list;
    }
  }

  /** The list made for a file that was settled. */
  ghost predicate Gathered(u: Files, s: string, f: string, deps: seq<Dependency>) {
    exists needs, depths, list ::
      && GivenBy(u, f, needs) && LoadingOrder(u, s, f, Edges(needs), depths, list)
      && deps == Filtered(list) + [Dependency(s, f)]
  }

  lemma NotedIsRegular(u: Files, s: string, f: string, needs: Needs)
    requires GivenBy(u, f, needs) && Scans(u, f) && Tame(u, s, f)
    requires f in needs && Walk(needs, f, |needs|) == Noted
    ensures Regular(u, s, f)
  {
    hide Walk, GivenBy, Scans, Complete, Tame;
    MissingWhen(u, f, needs);
  }

  /** A regular file without circles is settled. */
  lemma RegularIsNoted(u: Files, s: string, f: string, needs: Needs)
    requires GivenBy(u, f, needs) && Regular(u, s, f) && !CycleFrom(Edges(needs), f)
    ensures Scans(u, f) && f in needs && Walk(needs, f, |needs|) == Noted
  {
    hide Walk, GivenBy, Scans, Complete, Tame, CycleFrom;
    MissingWhen(u, f, needs);
  }

  lemma GatheredSuppliesItself(u: Files, s: string, f: string, needs: Needs, depths: map<string, nat>,
                               list: seq<Dependency>)
    requires GivenBy(u, f, needs) && Regular(u, s, f) && LoadingOrder(u, s, f, Edges(needs), depths, list)
    ensures var deps := Filtered(list) + [Dependency(s, f)];
            forall k | 0 <= k < |deps| :: SuppliedAt(u, deps, k)
  {
    hide LoadingOrder, Filtered, SuppliedAt, Regular, GivenBy, GraphOf, Edges;
    GivenGraph(u, f, needs);
    var deps := Filtered(list) + [Dependency(s, f)];
    forall k | 0 <= k < |deps|
      ensures SuppliedAt(u, deps, k)
    {
      ListSuppliesItself(u, s, f, Edges(needs), depths, list, k);
    }
  }
}
