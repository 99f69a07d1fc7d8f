/** When the canonical form of a path is a shortest one (model/exec-utils.cc).

    A list of components amounts to so many steps up and then down along some names.  Two
    relative lists lead to the same directory from everywhere exactly if they amount to the
    same; from the root only the names matter. */
module ShortestPaths {
  import opened CanonicalPath
  import opened Options

  // ---------- what a list of components amounts to ----------

  datatype Route = Route(ups: nat, names: seq<string>)

  function Extend(r: Route, c: string): Route {
    if IsName(c) then Route(r.ups, r.names + [c])
    else if c == ".." then
      if r.names == [] then Route(r.ups + 1, []) else Route(r.ups, r.names[..|r.names| - 1])
    else r
  }

  function RouteOf(components: seq<string>): (r: Route)
    ensures r.ups + |r.names| <= |components|
    ensures forall c | c in r.names :: c in components && IsName(c)
  {
    if components == [] then Route(0, [])
    else Extend(RouteOf(components[..|components| - 1]), components[|components| - 1])
  }

  lemma RouteOfLast(components: seq<string>)
    requires components != []
    ensures RouteOf(components) == Extend(RouteOf(components[..|components| - 1]), components[|components| - 1])
  {
  }

  function Up(dir: seq<string>, n: nat): (r: seq<string>)
    ensures r <= dir
  {
    if n >= |dir| then [] else dir[..|dir| - n]
  }

  lemma EnterByRoute(dir: seq<string>, r: Route, c: string)
    ensures Enter(Up(dir, r.ups) + r.names, c) == Up(dir, Extend(r, c).ups) + Extend(r, c).names
  {
    var above := Up(dir, r.ups);
    if IsName(c) {
      assert above + r.names + [c] == above + (r.names + [c]);
    } else if r.names == [] {
      assert above + r.names == above;
    } else {
      assert (above + r.names)[..|above + r.names| - 1] == above + r.names[..|r.names| - 1];
    }
  }

  lemma {:induction false} WalkByRoute(dir: seq<string>, components: seq<string>)
    ensures Walk(dir, components) == Up(dir, RouteOf(components).ups) + RouteOf(components).names
  {
    if components != [] {
      var init, last := components[..|components| - 1], components[|components| - 1];
      WalkByRoute(dir, init);
      RouteOfLast(components);
      hide RouteOf, Up, Extend;
      EnterByRoute(dir, RouteOf(init), last);
    }
  }

  /** A name longer than all the components. */
  function Fresh(components: seq<string>): (z: string)
    ensures z != [] && z[0] == 'a' && forall c | c in components :: |c| < |z|
  {
    if components == [] then "a" else Fresh(components[..|components| - 1]) + components[|components| - 1] + "a"
  }

  lemma UpFrom(z: string, depth: nat, r: Route) returns (path: seq<string>)
    requires r.ups <= depth
    ensures path == Up(seq(depth, i => z), r.ups) + r.names && |path| == depth - r.ups + |r.names|
    ensures forall i | 0 <= i < depth - r.ups :: path[i] == z
    ensures forall i | depth - r.ups <= i < |path| :: path[i] == r.names[i - (depth - r.ups)]
  {
    path := Up(seq(depth, i => z), r.ups) + r.names;
  }

  ghost predicate SameMeaning(a: seq<string>, b: seq<string>, absolute: bool) {
    if absolute then Walk([], a) == Walk([], b) else forall dir :: Walk(dir, a) == Walk(dir, b)
  }

  lemma Apart(a: seq<string>, b: seq<string>)
    ensures Fresh(a + b) !in RouteOf(a).names && Fresh(a + b) !in RouteOf(b).names
  {
    assert forall c | c in a || c in b :: c in a + b;
  }

  /** Seen from deep enough, the directories above end where the names begin. */
  lemma SameDepth(z: string, depth: nat, r: Route, t: Route, path: seq<string>)
    requires r.ups <= depth && t.ups <= depth && z !in r.names && z !in t.names
    requires |path| == depth - r.ups + |r.names| == depth - t.ups + |t.names|
    requires forall i | 0 <= i < depth - r.ups :: path[i] == z
    requires forall i | depth - t.ups <= i < |path| :: path[i] == t.names[i - (depth - t.ups)]
    ensures t.ups <= r.ups
  {
    var k := depth - t.ups;
    if k < |path| {
      var first := path[k];
    }
  }

  lemma SameRoute(a: seq<string>, b: seq<string>)
    requires SameMeaning(a, b, false)
    ensures RouteOf(a) == RouteOf(b)
  {
    hide RouteOf, Fresh, Up, Walk;
    var z, depth := Fresh(a + b), |a| + |b|;
    var dir := seq(depth, i => z);
    WalkByRoute(dir, a);
    WalkByRoute(dir, b);
    var p := UpFrom(z, depth, RouteOf(a));
    var q := UpFrom(z, depth, RouteOf(b));
    assert p == q by {
      assert Walk(dir, a) == Walk(dir, b);
    }
    Apart(a, b);
    SameDepth(z, depth, RouteOf(a), RouteOf(b), p);
    SameDepth(z, depth, RouteOf(b), RouteOf(a), p);
    var above := depth - RouteOf(a).ups;
    forall i | 0 <= i < |RouteOf(a).names|
      ensures RouteOf(a).names[i] == RouteOf(b).names[i]
    {
      assert p[above + i] == q[above + i];
    }
  }

  /** Relative lists mean the same if and only if they amount to the same; absolute ones if
      and only if they end in the same names. */
  lemma MeaningIsRoute(a: seq<string>, b: seq<string>, absolute: bool)
    ensures SameMeaning(a, b, absolute) <==>
            RouteOf(a).names == RouteOf(b).names && (absolute || RouteOf(a).ups == RouteOf(b).ups)
  {
    hide RouteOf, Walk;
    if absolute {
      WalkByRoute([], a);
      WalkByRoute([], b);
      assert forall r: Route :: Up([], r.ups) + r.names == r.names;
    } else if SameMeaning(a, b, false) {
      SameRoute(a, b);
    } else {
      var dir :| Walk(dir, a) != Walk(dir, b);
      WalkByRoute(dir, a);
      WalkByRoute(dir, b);
    }
  }

  // ---------- shortest lists ----------

  /** No list that leads to the same place, from every directory or from the root, has
      fewer components. */
  ghost predicate Shortest(components: seq<string>, absolute: bool) {
    forall other | SameMeaning(components, other, absolute) :: |components| <= |other|
  }

  function Parents(n: nat): seq<string> {
    if n == 0 then [] else Parents(n - 1) + [".."]
  }

  lemma {:induction false} RouteOfParents(n: nat)
    ensures |Parents(n)| == n && RouteOf(Parents(n)) == Route(n, [])
  {
    if n > 0 {
      RouteOfParents(n - 1);
      assert Parents(n)[..n - 1] == Parents(n - 1);
    }
  }

  lemma {:induction false} ThenNames(ups: seq<string>, names: seq<string>)
    requires RouteOf(ups).names == [] && forall c | c in names :: IsName(c)
    ensures RouteOf(ups + names) == Route(RouteOf(ups).ups, names)
  {
    hide RouteOf;
    if names == [] {
      assert ups + names == ups;
    } else {
      var init, last := names[..|names| - 1], names[|names| - 1];
      ThenNames(ups, init);
      RouteOfLast(ups + names);
      assert (ups + names)[..|ups + names| - 1] == ups + init && (ups + names)[|ups + names| - 1] == last;
      assert init + [last] == names;
    }
  }

  lemma ShortestByRoute(components: seq<string>, absolute: bool)
    ensures Shortest(components, absolute) <==>
            |components| == (if absolute then 0 else RouteOf(components).ups) + |RouteOf(components).names|
  {
    hide RouteOf, SameMeaning;
    var r := RouteOf(components);
    var n := if absolute then 0 else r.ups;
    RouteOfParents(n);
    ThenNames(Parents(n), r.names);
    MeaningIsRoute(components, Parents(n) + r.names, absolute);
    forall other | SameMeaning(components, other, absolute)
      ensures n + |r.names| <= |other|
    {
      MeaningIsRoute(components, other, absolute);
    }
  }

  ghost predicate NoNameBeforeParent(profs: seq<string>) {
    forall i, j | 0 <= i < j < |profs| && profs[j] == ".." :: !IsName(profs[i])
  }

  ghost predicate NamesAndParents(profs: seq<string>) {
    forall c | c in profs :: IsName(c) || c == ".."
  }

  lemma AfterOneMore(profs: seq<string>, c: string)
    requires NamesAndParents(profs)
    ensures IsName(c) ==> (NoNameBeforeParent(profs + [c]) <==> NoNameBeforeParent(profs))
    ensures NoNameBeforeParent(profs + [".."]) <==>
            NoNameBeforeParent(profs) && (profs == [] || !IsName(profs[|profs| - 1]))
    ensures profs != [] && IsName(profs[|profs| - 1]) ==>
              (NoNameBeforeParent(profs[..|profs| - 1]) <==> NoNameBeforeParent(profs))
  {
    assert NoNameBeforeParent(profs + [c]) ==> NoNameBeforeParent(profs) by {
      assert forall i | 0 <= i < |profs| :: (profs + [c])[i] == profs[i];
    }
    var up := profs + [".."];
    assert up[|profs|] == ".." && forall i | 0 <= i < |profs| :: up[i] == profs[i];
    if NoNameBeforeParent(up) {
      assert NoNameBeforeParent(profs);
    }
  }

  lemma {:induction false} LengthOfRoute(profs: seq<string>)
    requires NamesAndParents(profs)
    ensures var r := RouteOf(profs); |profs| == r.ups + |r.names| <==> NoNameBeforeParent(profs)
    ensures |profs| == |RouteOf(profs).names| <==> ".." !in profs
    ensures NoNameBeforeParent(profs) && RouteOf(profs).names == [] ==> forall c | c in profs :: !IsName(c)
  {
    if profs != [] {
      var init, last := profs[..|profs| - 1], profs[|profs| - 1];
      LengthOfRoute(init);
      RouteOfLast(profs);
      assert profs == init + [last];
      AfterOneMore(init, last);
      hide RouteOf, NoNameBeforeParent;
      if last == ".." && RouteOf(init).names != [] {
        var c := RouteOf(init).names[0];
        assert c in RouteOf(init).names;
        var i :| 0 <= i < |init| && init[i] == c;
        assert IsName(profs[i]) && profs[|init|] == "..";
      }
    }
  }

  // ---------- the canonical form ----------

  /** Component k goes up although nothing is left to drop: the guard of the branch that
      keeps a '..'. */
  predicate GoesUp(components: seq<string>, k: nat)
    requires k < |components|
  {
    components[k] == ".." && Fold(components[..k]).level <= 0
  }

  /** It does so while the last of what was kept is a name. */
  predicate GoesUpOverName(components: seq<string>, k: nat)
    requires k < |components|
  {
    var kept := Fold(components[..k]).profs;
    GoesUp(components, k) && kept != [] && IsName(kept[|kept| - 1])
  }

  lemma KeptComponents(components: seq<string>)
    requires Plain(components)
    ensures NamesAndParents(Fold(components).profs)
  {
    FoldIsNormal(components);
    var profs := Fold(components).profs;
    forall c | c in profs
      ensures IsName(c) || c == ".."
    {
      var i: nat :| i < |profs| && profs[i] == c;
      assert NormalAt(profs, i);
    }
  }

  lemma OneBranch(components: seq<string>, n: nat)
    requires Plain(components) && n < |components|
    ensures var kept, kept' := Fold(components[..n]).profs, Fold(components[..n + 1]).profs;
            && (".." in kept' <==> ".." in kept || GoesUp(components, n))
            && (NoNameBeforeParent(kept') <==> NoNameBeforeParent(kept) && !GoesUpOverName(components, n))
  {
    hide NoNameBeforeParent;
    var c, p := components[n], Fold(components[..n]);
    assert components[..n + 1][..n] == components[..n];
    KeptComponents(components[..n]);
    FoldIsNormal(components[..n]);
    AfterOneMore(p.profs, c);
    if p.profs != [] {
      assert p.profs == p.profs[..|p.profs| - 1] + [p.profs[|p.profs| - 1]];
    }
  }

  lemma KeptOfNothing()
    ensures NoNameBeforeParent(Fold([]).profs) && ".." !in Fold([]).profs
  {
  }

  /** What the fold keeps of the first n components, by the branches it took. */
  lemma {:induction false} BranchesTaken(components: seq<string>, n: nat)
    requires Plain(components) && n <= |components|
    ensures ".." in Fold(components[..n]).profs <==>
            exists k: nat {:trigger GoesUp(components, k)} :: k < n && GoesUp(components, k)
    ensures !NoNameBeforeParent(Fold(components[..n]).profs) <==>
            exists k: nat {:trigger GoesUpOverName(components, k)} :: k < n && GoesUpOverName(components, k)
  {
    hide *;
    if n == 0 {
      assert components[..0] == [];
      KeptOfNothing();
    } else {
      BranchesTaken(components, n - 1);
      OneBranch(components, n - 1);
    }
  }

  /** The canonical form is a shortest one, if relative, exactly when no name stands before
      a '..' in it, that is, when no '..' of the path went up over a name that was kept;
      if absolute, exactly when it holds no '..', that is, when none went up at all. */
  lemma ShortestWhen(path: string, chRootProtected: bool) returns (profs: seq<string>)
    requires Canonize(path, chRootProtected).Some?
    ensures var r, slash := Canonize(path, chRootProtected).value, IsAbsolute(CString(path));
            && r == Print(profs, slash)
            && Components(r) == if profs == [] then (if slash then ["", ""] else ["."])
                                else (if slash then [""] else []) + profs
    ensures var comps := Components(CString(path));
            if IsAbsolute(CString(path)) then
              && (Shortest(profs, true) <==> ".." !in profs)
              && (Shortest(profs, true) <==>
                  forall k: nat {:trigger GoesUp(comps, k)} | k < |comps| :: !GoesUp(comps, k))
            else
              && (Shortest(profs, false) <==> NoNameBeforeParent(profs))
              && (Shortest(profs, false) <==>
                  forall k: nat {:trigger GoesUpOverName(comps, k)} | k < |comps| :: !GoesUpOverName(comps, k))
  {
    hide RouteOf, Shortest, Fold, NoNameBeforeParent, GoesUp, GoesUpOverName, Components;
    var slash;
    profs, slash := CanonizedForm(path, chRootProtected);
    ComponentsOfPrint(profs, slash);
    var comps := Components(CString(path));
    KeptComponents(comps);
    LengthOfRoute(profs);
    ShortestByRoute(profs, slash);
    BranchesTaken(comps, |comps|);
    assert comps[..|comps|] == comps;
  }

  lemma AroundIsNormal()
    ensures Normal(["..", "a", ".."]) && Print(["..", "a", ".."], false) == "../a/.."
  {
    var profs := ["..", "a", ".."];
    assert profs[..2] == ["..", "a"] && ["..", "a"][..1] == [".."] && [".."][..0] == [];
    assert Balance([".."]) == -1 && Balance(["..", "a"]) == 0 && Balance(profs) == -1;
    assert profs[..1] == [".."] && profs[..3] == profs;
    assert NormalAt(profs, 0) && NormalAt(profs, 1) && NormalAt(profs, 2);
    assert Join(["..", "a"]) == "../a";
  }

  lemma UpIsNormal()
    ensures Normal([".."]) && Print([".."], false) == ".." && Print([".."], true) == "/.."
  {
    var up := [".."];
    assert up[..0] == [] && up[..1] == up && Balance(up) == -1 && NormalAt(up, 0);
  }

  lemma WalkUpAround(cwd: seq<string>)
    ensures Walk(cwd, ["..", "a", ".."]) == Walk(cwd, [".."])
  {
    var profs := ["..", "a", ".."];
    assert profs[..2] == ["..", "a"] && ["..", "a"][..1] == [".."] && [".."][..0] == [];
  }

  /** Either can fail: going around over a name, and going up from the root. */
  lemma NotShortest(chRootProtected: bool)
    ensures Canonize("../a/..", false) == Some("../a/..")
    ensures SameMeaning(["..", "a", ".."], [".."], false) && !Shortest(["..", "a", ".."], false)
    ensures Canonize("/..", chRootProtected) == Some("/..")
    ensures SameMeaning([".."], [], true) && !Shortest([".."], true)
  {
    var around, up := ["..", "a", ".."], [".."];
    AroundIsNormal();
    PrintIsAbsolute(around, false);
    PrintedAsList(around, false, []);
    UpIsNormal();
    PrintIsAbsolute(up, true);
    PrintedAsList(up, true, []);
    hide Canonize, Components, CString, Print, Shortest;
    forall dir: seq<string>
      ensures Walk(dir, around) == Walk(dir, up)
    {
      WalkUpAround(dir);
    }
    assert up[..0] == [] && Walk([], up) == Walk([], []);
    TooLong(around, up, false);
    TooLong(up, [], true);
    assert Canonize("../a/..", false) == Some("../a/..") && Canonize("/..", chRootProtected) == Some("/..") by {
      CanonizeNormal(around, false, false);
      CanonizeNormal(up, true, chRootProtected);
    }
  }

  lemma TooLong(components: seq<string>, other: seq<string>, absolute: bool)
    requires SameMeaning(components, other, absolute) && |other| < |components|
    ensures !Shortest(components, absolute)
  {
  }

  lemma CanonizeNormal(profs: seq<string>, slash: bool, chRootProtected: bool)
    requires Normal(profs) && (slash || !chRootProtected)
    ensures Canonize(Print(profs, slash), chRootProtected) == Some(Print(profs, slash))
  {
    PrintIsAbsolute(profs, slash);
    PrintedAsList(profs, slash, []);
  }
}
