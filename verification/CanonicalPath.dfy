/** The canonical form of a path (model/exec-utils.cc).

    The source walks over the characters with a little state machine.  What it computes is
    a fold over the components of the path; what that means is that both paths lead to the
    same directory. */
module CanonicalPath {
  import opened Options

  // ---------- components ----------

  /** The part of a string that C sees: up to the first NUL. */
  function CString(s: string): (r: string)
    ensures '\0' !in r
    ensures '\0' !in s ==> r == s
  {
    if s == [] || s[0] == '\0' then []
    else [s[0]] + CString(s[1..])
  }

  /** The components that end in a slash, and what follows the last slash. */
  function Cut(s: string): (seq<string>, string) {
    if s == [] then ([], [])
    else
      var (done, rest) := Cut(s[..|s| - 1]);
      var c := s[|s| - 1];
      if c == '/' then (done + [rest], []) else (done, rest + [c])
  }

  function Components(s: string): seq<string> {
    Cut(s).0 + [Cut(s).1]
  }

  predicate IsName(c: string) {
    c != [] && c != "." && c != ".."
  }

  // ---------- what a path means ----------

  /** One step of a walk from a directory, given by the names that lead to it from the
      root; the parent of the root is the root. */
  function Enter(dir: seq<string>, c: string): seq<string> {
    if IsName(c) then dir + [c]
    else if c == ".." then (if dir == [] then [] else dir[..|dir| - 1])
    else dir
  }

  function Walk(dir: seq<string>, components: seq<string>): seq<string> {
    if components == [] then dir
    else Enter(Walk(dir, components[..|components| - 1]), components[|components| - 1])
  }

  predicate IsAbsolute(path: string) {
    path != [] && path[0] == '/'
  }

  /** The directory a path leads to from a working directory. */
  function Target(cwd: seq<string>, path: string): seq<string> {
    Walk(if IsAbsolute(path) then [] else cwd, Components(path))
  }

  // ---------- the fold ----------

  /** The components kept so far, and how far down they lead: names count up, parents
      count down. */
  datatype Progress = Progress(profs: seq<string>, level: int)

  function Fold1(p: Progress, c: string): Progress {
    if IsName(c) then Progress(p.profs + [c], p.level + 1)
    else if c == ".." then
      if p.level - 1 >= 0 && p.profs != [] then Progress(p.profs[..|p.profs| - 1], p.level - 1)
      else Progress(p.profs + [".."], p.level - 1)
    else p
  }

  function Fold(components: seq<string>): Progress {
    if components == [] then Progress([], 0)
    else Fold1(Fold(components[..|components| - 1]), components[|components| - 1])
  }

  /** Some prefix of the path leads above where it starts. */
  predicate Climbs(components: seq<string>) {
    exists k :: 0 <= k <= |components| && Fold(components[..k]).level < 0
  }

  function Join(profs: seq<string>): string {
    if profs == [] then []
    else if |profs| == 1 then profs[0]
    else Join(profs[..|profs| - 1]) + ['/'] + profs[|profs| - 1]
  }

  function Print(profs: seq<string>, slash: bool): (r: string)
    ensures r == [] ==> profs != []
  {
    (if slash then "/" else if profs == [] then "." else []) + Join(profs)
  }

  // ---------- the normal form ----------

  /** Names minus parents. */
  function Balance(profs: seq<string>): int {
    if profs == [] then 0
    else Balance(profs[..|profs| - 1]) + (if profs[|profs| - 1] == ".." then -1 else 1)
  }

  /** No component is empty, '.', or holds a slash or a NUL, and where the path goes up it
      has gone up more often than down already. */
  ghost predicate NormalAt(profs: seq<string>, i: nat)
    requires i < |profs|
  {
    var c := profs[i];
    && c != [] && c != "." && '/' !in c && '\0' !in c
    && (c == ".." ==> Balance(profs[..i + 1]) < 0)
  }

  ghost predicate Normal(profs: seq<string>) {
    forall i: nat {:trigger NormalAt(profs, i)} | i < |profs| :: NormalAt(profs, i)
  }

  lemma NormalPrefix(profs: seq<string>, n: nat)
    requires Normal(profs) && n <= |profs|
    ensures Normal(profs[..n])
  {
    forall i: nat | i < n
      ensures NormalAt(profs[..n], i)
    {
      assert NormalAt(profs, i) && profs[..n][..i + 1] == profs[..i + 1];
    }
  }

  lemma NormalAppend(profs: seq<string>, c: string)
    requires Normal(profs) && c != [] && c != "." && '/' !in c && '\0' !in c
    requires c == ".." ==> Balance(profs) - 1 < 0
    ensures Normal(profs + [c]) && Balance(profs + [c]) == Balance(profs) + (if c == ".." then -1 else 1)
  {
    var profs' := profs + [c];
    assert profs'[..|profs|] == profs;
    forall i: nat | i < |profs'|
      ensures NormalAt(profs', i)
    {
      if i < |profs| {
        assert NormalAt(profs, i) && profs'[..i + 1] == profs[..i + 1];
      } else {
        assert profs'[..i + 1] == profs';
      }
    }
  }

  /** Components as they come out of a path. */
  ghost predicate Plain(components: seq<string>) {
    forall i | 0 <= i < |components| :: '/' !in components[i] && '\0' !in components[i]
  }

  /** What is kept is in normal form; in particular, whatever is dropped is a name. */
  lemma {:induction false} FoldIsNormal(components: seq<string>)
    requires Plain(components)
    ensures var p := Fold(components); Normal(p.profs) && Balance(p.profs) == p.level
    ensures var p := Fold(components); p.level > 0 ==> p.profs != [] && IsName(p.profs[|p.profs| - 1])
  {
    if components != [] {
      var init, c := components[..|components| - 1], components[|components| - 1];
      FoldIsNormal(init);
      var p := Fold(init);
      hide Normal;
      if IsName(c) {
        NormalAppend(p.profs, c);
      } else if c == ".." {
        if p.level > 0 {
          NormalPrefix(p.profs, |p.profs| - 1);
        } else {
          NormalAppend(p.profs, c);
        }
      }
      LastIsName(Fold(components).profs);
    }
  }

  lemma LastIsName(profs: seq<string>)
    requires Normal(profs)
    ensures Balance(profs) > 0 ==> profs != [] && IsName(profs[|profs| - 1])
  {
    if profs != [] {
      assert NormalAt(profs, |profs| - 1) && profs[..|profs| - 1 + 1] == profs;
    }
  }

  /** The kept components lead where all of them lead, from every directory. */
  lemma {:induction false} FoldKeepsMeaning(components: seq<string>, dir: seq<string>)
    requires Plain(components)
    ensures Walk(dir, Fold(components).profs) == Walk(dir, components)
  {
    if components != [] {
      var init, c := components[..|components| - 1], components[|components| - 1];
      FoldKeepsMeaning(init, dir);
      FoldIsNormal(init);
      var p := Fold(init);
      assert (p.profs + [c])[..|p.profs|] == p.profs;
    }
  }

  /** A normal form is left alone. */
  lemma {:induction false} FoldOfNormal(profs: seq<string>)
    requires Normal(profs)
    ensures Fold(profs) == Progress(profs, Balance(profs))
  {
    if profs != [] {
      var init := profs[..|profs| - 1];
      NormalPrefix(profs, |init|);
      FoldOfNormal(init);
      assert NormalAt(profs, |init|) && profs[..|init| + 1] == profs;
      assert init + [profs[|init|]] == profs;
    }
  }

  // ---------- printing and splitting again ----------

  lemma {:induction false} CutOfName(s: string, c: string)
    requires '/' !in c
    ensures Cut(s + c) == (Cut(s).0, Cut(s).1 + c)
  {
    if c == [] {
      assert s + c == s && Cut(s).1 + c == Cut(s).1;
    } else {
      var init := c[..|c| - 1];
      CutOfName(s, init);
      assert (s + c)[..|s + c| - 1] == s + init;
      assert c == init + [c[|c| - 1]];
      assert Cut(s).1 + init + [c[|c| - 1]] == Cut(s).1 + c;
    }
  }

  lemma CutOfSlash(s: string)
    ensures Cut(s + ['/']) == (Cut(s).0 + [Cut(s).1], [])
  {
    assert (s + ['/'])[..|s|] == s;
  }

  /** The components of a joined list are the list. */
  lemma {:induction false} ComponentsOfJoin(prefix: string, profs: seq<string>)
    requires profs != [] && forall i | 0 <= i < |profs| :: '/' !in profs[i]
    requires Cut(prefix).1 == []
    ensures Components(prefix + Join(profs)) == Cut(prefix).0 + profs
  {
    hide Cut;
    if |profs| == 1 {
      CutOfName(prefix, profs[0]);
      assert [] + profs[0] == profs[0];
      assert profs == [profs[0]];
    } else {
      var init, last := profs[..|profs| - 1], profs[|profs| - 1];
      ComponentsOfJoin(prefix, init);
      var s := prefix + Join(init);
      CutOfSlash(s);
      CutOfName(s + ['/'], last);
      assert prefix + Join(profs) == s + ['/'] + last;
      assert [] + last == last;
      assert Cut(s).0 + [Cut(s).1] + [last] == Cut(prefix).0 + init + [last];
      assert Cut(prefix).0 + init + [last] == Cut(prefix).0 + profs;
    }
  }

  lemma ComponentsOfPrint(profs: seq<string>, slash: bool)
    requires Normal(profs)
    ensures Components(Print(profs, slash)) ==
            (if profs == [] then (if slash then ["", ""] else ["."]) else (if slash then [""] else []) + profs)
  {
    forall i: nat | i < |profs|
      ensures '/' !in profs[i]
    {
      assert NormalAt(profs, i);
    }
    assert Cut([]) == ([], []);
    CutOfSlash([]);
    assert [] + ['/'] == "/";
    if profs == [] {
      CutOfName([], ".");
      assert [] + "." == ".";
      assert Print(profs, slash) == (if slash then "/" else ".");
    } else if slash {
      ComponentsOfJoin("/", profs);
    } else {
      ComponentsOfJoin([], profs);
      assert [] + Join(profs) == Print(profs, slash);
    }
  }

  // ---------- the canonical form ----------

  function Canonize(path: string, chRootProtected: bool): Option<string> {
    var s := CString(path);
    if chRootProtected && !IsAbsolute(s) && Climbs(Components(s)) then None
    else Some(Print(Fold(Components(s)).profs, IsAbsolute(s)))
  }

  lemma {:induction false} CutIsPlain(s: string)
    requires '\0' !in s
    ensures Plain(Cut(s).0) && '/' !in Cut(s).1 && '\0' !in Cut(s).1
    ensures IsAbsolute(s) ==> Components(s)[0] == []
    ensures s != [] && !IsAbsolute(s) ==> Components(s)[0] != []
  {
    if s != [] {
      CutIsPlain(s[..|s| - 1]);
    }
  }

  lemma PrintIsAbsolute(profs: seq<string>, slash: bool)
    requires Normal(profs)
    ensures IsAbsolute(Print(profs, slash)) == slash
    ensures '\0' !in Print(profs, slash) && CString(Print(profs, slash)) == Print(profs, slash)
  {
    JoinOfNormal(profs);
  }

  lemma {:induction false} JoinOfNormal(profs: seq<string>)
    requires Normal(profs)
    ensures '\0' !in Join(profs) && (profs != [] ==> Join(profs) != [] && Join(profs)[0] != '/')
  {
    if profs != [] {
      assert NormalAt(profs, |profs| - 1) && NormalAt(profs, 0);
      NormalPrefix(profs, |profs| - 1);
      JoinOfNormal(profs[..|profs| - 1]);
    }
  }

  lemma WalkFromRoot(dir: seq<string>, c: string, rest: seq<string>)
    requires c == [] || c == "."
    ensures Walk(dir, [c] + rest) == Walk(dir, rest)
    decreases |rest|
  {
    if rest == [] {
      assert [c] + rest == [c] && [c][..0] == [];
    } else {
      WalkFromRoot(dir, c, rest[..|rest| - 1]);
      assert ([c] + rest)[..|rest|] == [c] + rest[..|rest| - 1];
    }
  }

  lemma FoldFromRoot(c: string, rest: seq<string>)
    requires c == [] || c == "."
    ensures Fold([c] + rest) == Fold(rest)
    decreases |rest|
  {
    if rest == [] {
      assert [c] + rest == [c] && [c][..0] == [];
    } else {
      FoldFromRoot(c, rest[..|rest| - 1]);
      assert ([c] + rest)[..|rest|] == [c] + rest[..|rest| - 1];
    }
  }

  /** What is kept of a path, and the form it is printed in. */
  lemma CanonizedForm(path: string, chRootProtected: bool) returns (profs: seq<string>, slash: bool)
    requires Canonize(path, chRootProtected).Some?
    ensures slash == IsAbsolute(CString(path)) && Plain(Components(CString(path)))
    ensures profs == Fold(Components(CString(path))).profs && Normal(profs)
    ensures Canonize(path, chRootProtected).value == Print(profs, slash)
  {
    hide Cut, Fold, Climbs, Print, Normal, Balance, CString;
    var s := CString(path);
    CutIsPlain(s);
    FoldIsNormal(Components(s));
    profs, slash := Fold(Components(s)).profs, IsAbsolute(s);
  }

  /** Walking and folding what was printed is walking and folding the list. */
  lemma PrintedAsList(profs: seq<string>, slash: bool, dir: seq<string>)
    requires Normal(profs)
    ensures Walk(dir, Components(Print(profs, slash))) == Walk(dir, profs)
    ensures Fold(Components(Print(profs, slash))) == Progress(profs, Balance(profs))
  {
    hide Cut, Join;
    ComponentsOfPrint(profs, slash);
    FoldOfNormal(profs);
    if profs == [] {
      var c: string := if slash then "" else ".";
      var tail: seq<string> := if slash then [""] else [];
      assert Components(Print(profs, slash)) == [c] + tail;
      WalkFromRoot(dir, c, tail);
      FoldFromRoot(c, tail);
      if slash {
        assert [""] == [""] + [];
        WalkFromRoot(dir, "", []);
        FoldFromRoot("", []);
      }
    } else if slash {
      WalkFromRoot(dir, "", profs);
      FoldFromRoot("", profs);
    } else {
      assert [] + profs == profs;
    }
  }

  /** The canonical form leads where the path leads, from every working directory. */
  lemma MeaningKept(path: string, chRootProtected: bool, cwd: seq<string>)
    requires Canonize(path, chRootProtected).Some?
    ensures Target(cwd, Canonize(path, chRootProtected).value) == Target(cwd, CString(path))
  {
    hide Walk, Fold, Cut, Components, Print, CString, Canonize;
    var profs, slash := CanonizedForm(path, chRootProtected);
    var dir := if slash then [] else cwd;
    FoldKeepsMeaning(Components(CString(path)), dir);
    PrintIsAbsolute(profs, slash);
    PrintedAsList(profs, slash, dir);
  }

  /** Canonical forms are left alone. */
  lemma Idempotent(path: string, chRootProtected: bool)
    requires Canonize(path, chRootProtected).Some?
    ensures var r := Canonize(path, chRootProtected).value; Canonize(r, chRootProtected) == Some(r)
  {
    var profs, slash := CanonizedForm(path, chRootProtected);
    var r := Print(profs, slash);
    hide Walk, Fold, Cut, Components, Print, CString, Climbs;
    PrintIsAbsolute(profs, slash);
    PrintedAsList(profs, slash, []);
    if chRootProtected && !slash {
      NoClimbNoParents(Components(CString(path)));
      PrintedDoesNotClimb(profs);
    }
  }

  lemma PrintedDoesNotClimb(profs: seq<string>)
    requires Normal(profs) && ".." !in profs
    ensures !Climbs(Components(Print(profs, false)))
  {
    hide Cut, Join;
    ComponentsOfPrint(profs, false);
    NormalDoesNotClimb(profs);
    if profs == [] {
      DotDoesNotClimb();
    } else {
      assert [] + profs == profs;
    }
  }

  lemma DotDoesNotClimb()
    ensures !Climbs(["."])
  {
    forall k | 0 <= k <= 1
      ensures Fold(["."][..k]).level == 0
    {
      if k == 1 {
        assert ["."][..1] == ["."] && ["."][..0] == [];
      }
    }
  }

  /** A path that never climbs keeps no parent. */
  lemma {:induction false} NoClimbNoParents(components: seq<string>)
    requires Plain(components) && !Climbs(components)
    ensures ".." !in Fold(components).profs && Fold(components).level >= 0
  {
    assert components[..|components|] == components;
    FoldIsNormal(components);
    if components != [] {
      var init := components[..|components| - 1];
      forall k | 0 <= k <= |init|
        ensures Fold(init[..k]).level >= 0
      {
        assert init[..k] == components[..k];
      }
      NoClimbNoParents(init);
      FoldIsNormal(init);
    }
  }

  lemma NormalDoesNotClimb(profs: seq<string>)
    requires Normal(profs) && ".." !in profs
    ensures !Climbs(profs)
  {
    forall k | 0 <= k <= |profs|
      ensures Fold(profs[..k]).level >= 0
    {
      NormalPrefix(profs, k);
      FoldOfNormal(profs[..k]);
      BalanceOfNames(profs[..k]);
    }
  }

  lemma {:induction false} BalanceOfNames(profs: seq<string>)
    requires ".." !in profs
    ensures Balance(profs) >= 0
  {
    if profs != [] {
      BalanceOfNames(profs[..|profs| - 1]);
    }
  }

  lemma {:induction false} NamesGoDown(dir: seq<string>, profs: seq<string>)
    requires ".." !in profs
    ensures dir <= Walk(dir, profs)
  {
    if profs != [] {
      NamesGoDown(dir, profs[..|profs| - 1]);
    }
  }

  /** Protection: a relative path is turned down exactly if some prefix of it climbs above
      its start; one that is accepted names no parent and stays below the directory it is
      used from. */
  lemma ProtectedStaysBelow(path: string, cwd: seq<string>)
    requires !IsAbsolute(CString(path))
    ensures Canonize(path, true).None? <==> Climbs(Components(CString(path)))
    ensures Canonize(path, true).Some? ==>
              ".." !in Components(Canonize(path, true).value) && cwd <= Target(cwd, CString(path))
  {
    if Canonize(path, true).Some? {
      var profs, slash := CanonizedForm(path, true);
      var comps := Components(CString(path));
      NoClimbNoParents(comps);
      ComponentsOfPrint(profs, slash);
      NamesGoDown(cwd, profs);
      FoldKeepsMeaning(comps, cwd);
    }
  }

  /** The form of a result: the root, the working directory itself, or components none of
      which is empty or '.', and where parents stand only where the path has climbed. */
  lemma NormalForm(path: string, chRootProtected: bool) returns (profs: seq<string>)
    requires Canonize(path, chRootProtected).Some?
    ensures Normal(profs)
    ensures var r := Canonize(path, chRootProtected).value;
            var slash := IsAbsolute(CString(path));
            Components(r) ==
            if profs == [] then (if slash then ["", ""] else ["."]) else (if slash then [""] else []) + profs
  {
    var slash;
    profs, slash := CanonizedForm(path, chRootProtected);
    ComponentsOfPrint(profs, slash);
  }

  // ---------- the state machine ----------

  /** What the machine remembers of the component it is in. */
  ghost predicate Remembers(state: nat, cur: string, rest: string) {
    match state
    case 0 => rest == [] && cur == []
    case 1 => rest == "." && cur == []
    case 2 => IsName(rest) && cur == rest
    case 3 => rest == ".." && cur == []
    case _ => false
  }

  ghost predicate Reading(path: string, crsr: nat, chRootProtected: bool, slashStart: bool, state: nat, cur: string,
                          profs: seq<string>, level: int) {
    && crsr <= |path| && '\0' !in path[..crsr]
    && var (done, rest) := Cut(path[..crsr]);
       && Remembers(state, cur, rest) && Fold(done) == Progress(profs, level)
       && (chRootProtected && !slashStart ==> !Climbs(done))
  }

  lemma {:induction false} CStringAt(path: string, n: nat)
    requires n <= |path| && '\0' !in path[..n]
    ensures n == |path| || path[n] == '\0' ==> CString(path) == path[..n]
    ensures n < |path| && path[n] != '\0' ==> '\0' !in path[..n + 1]
    ensures path[..n] <= CString(path)
  {
    if n > 0 {
      assert path[1..][..n - 1] == path[..n][1..];
      CStringAt(path[1..], n - 1);
      assert path[..n] == [path[0]] + path[1..][..n - 1];
      if n < |path| {
        assert path[1..][n - 1] == path[n];
        assert path[..n + 1] == path[..n] + [path[n]];
      }
    } else if n < |path| {
      assert path[..1] == [path[0]];
    }
  }

  lemma FoldNext(done: seq<string>, c: string)
    ensures Fold(done + [c]) == Fold1(Fold(done), c)
  {
    assert (done + [c])[..|done|] == done;
  }

  lemma ClimbsNext(done: seq<string>, c: string)
    ensures Fold(done + [c]) == Fold1(Fold(done), c)
    ensures Climbs(done + [c]) <==> Climbs(done) || Fold(done + [c]).level < 0
  {
    FoldNext(done, c);
    hide Fold, Fold1;
    var done' := done + [c];
    assert done'[..|done'|] == done';
    assert forall k | 0 <= k <= |done| :: done'[..k] == done[..k];
    if Climbs(done) {
      var k :| 0 <= k <= |done| && Fold(done[..k]).level < 0;
      assert Fold(done'[..k]).level < 0;
    }
    if Climbs(done') && Fold(done').level >= 0 {
      var k :| 0 <= k <= |done'| && Fold(done'[..k]).level < 0;
      assert Fold(done[..k]).level < 0;
    }
  }

  /** The effect of one character: it ends the component or belongs to it. */
  lemma NextCharacter(path: string, crsr: nat, chRootProtected: bool, slashStart: bool, state: nat, cur: string,
                      profs: seq<string>, level: int,
                      state': nat, cur': string, profs': seq<string>, level': int)
    requires Reading(path, crsr, chRootProtected, slashStart, state, cur, profs, level) && crsr < |path|
             && path[crsr] != '\0'
    requires var rest := Cut(path[..crsr]).1;
             if path[crsr] == '/' then
               && state' == 0 && cur' == [] && Progress(profs', level') == Fold1(Progress(profs, level), rest)
               && (chRootProtected && !slashStart ==> level' >= 0)
             else Remembers(state', cur', rest + [path[crsr]]) && profs' == profs && level' == level
    ensures Reading(path, crsr + 1, chRootProtected, slashStart, state', cur', profs', level')
  {
    var (done, rest) := Cut(path[..crsr]);
    CStringAt(path, crsr);
    assert path[..crsr + 1][..crsr] == path[..crsr];
    ClimbsNext(done, rest);
  }

  lemma LastCharacter(path: string, crsr: nat, chRootProtected: bool, slashStart: bool, state: nat, cur: string,
                      profs: seq<string>, level: int,
                      profs': seq<string>, level': int)
    requires Reading(path, crsr, chRootProtected, slashStart, state, cur, profs, level)
    requires crsr == |path| || path[crsr] == '\0'
    requires Progress(profs', level') == Fold1(Progress(profs, level), Cut(path[..crsr]).1)
    ensures Fold(Components(CString(path))) == Progress(profs', level')
    ensures chRootProtected && !slashStart ==> (Climbs(Components(CString(path))) <==> level' < 0)
  {
    var (done, rest) := Cut(path[..crsr]);
    CStringAt(path, crsr);
    ClimbsNext(done, rest);
  }

  lemma LevelAllowsPop(path: string, crsr: nat, chRootProtected: bool, slashStart: bool, state: nat, cur: string,
                       profs: seq<string>, level: int)
    requires Reading(path, crsr, chRootProtected, slashStart, state, cur, profs, level)
    ensures level > 0 ==> profs != [] && IsName(profs[|profs| - 1])
  {
    CutIsPlain(path[..crsr]);
    FoldIsNormal(Cut(path[..crsr]).0);
  }

  lemma ClimbsHere(path: string, crsr: nat)
    requires crsr <= |path| && '\0' !in path[..crsr] && Climbs(Components(path[..crsr]))
    requires crsr == |path| || path[crsr] == '\0' || path[crsr] == '/'
    ensures Climbs(Components(CString(path)))
  {
    hide Cut, CString, Climbs;
    CStringAt(path, crsr);
    if crsr < |path| && path[crsr] == '/' {
      CStringAt(path, crsr + 1);
      assert path[..crsr + 1] == path[..crsr] + ['/'];
      CutOfSlash(path[..crsr]);
      ClimbsLonger(path[..crsr + 1], CString(path));
    }
  }

  /** A path that climbs at its n-th component is turned down whatever follows. */
  lemma ClimbsForGood(path: string, crsr: nat, chRootProtected: bool, slashStart: bool, state: nat, cur: string,
                      profs: seq<string>, level: int)
    requires Reading(path, crsr, chRootProtected, slashStart, state, cur, profs, level)
    requires crsr == |path| || path[crsr] == '\0' || path[crsr] == '/'
    requires Fold1(Progress(profs, level), Cut(path[..crsr]).1).level < 0
    ensures Climbs(Components(CString(path)))
  {
    hide Cut, CString, Climbs, Fold;
    ClimbsNext(Cut(path[..crsr]).0, Cut(path[..crsr]).1);
    ClimbsHere(path, crsr);
  }

  lemma {:induction false} ClimbsLonger(s: string, t: string)
    requires s <= t && Climbs(Cut(s).0)
    ensures Climbs(Components(t))
  {
    if s == t {
      ClimbsNext(Cut(s).0, Cut(s).1);
    } else {
      var init := t[..|t| - 1];
      assert s <= init;
      ClimbsDone(s, init);
      ClimbsNext(Cut(init).0, Cut(init).1);
      ClimbsNext(Cut(t).0, Cut(t).1);
    }
  }

  lemma {:induction false} ClimbsDone(s: string, t: string)
    requires s <= t && Climbs(Cut(s).0)
    ensures Climbs(Cut(t).0)
  {
    if s == t {
    } else {
      var init := t[..|t| - 1];
      assert s <= init;
      ClimbsDone(s, init);
      ClimbsNext(Cut(init).0, Cut(init).1);
    }
  }

  /** The source's loop: states 0 to 3 stand for nothing yet, '.', anything else, '..'. */
  method CanonizePath(path: string, chRootProtected: bool) returns (ok: bool, result: string)
    ensures ok <==> Canonize(path, chRootProtected).Some?
    ensures ok ==> result == Canonize(path, chRootProtected).value
  {
    var profs: seq<string> := [];
    var cur: string := [];
    var level, crsr, state := 0, 0, 0;
    var slashStart := path != [] && path[0] == '/';
    StartsReading(path, chRootProtected, slashStart);
    hide Reading, Fold, Cut, CString, Climbs, Components;
    while crsr < |path| && path[crsr] != '\0'
      invariant Reading(path, crsr, chRootProtected, slashStart, state, cur, profs, level)
      invariant crsr <= |path|
      invariant slashStart == IsAbsolute(CString(path))
    {
      RestIsRemembered(path, crsr, chRootProtected, slashStart, state, cur, profs, level);
      LevelAllowsPop(path, crsr, chRootProtected, slashStart, state, cur, profs, level);
      ghost var state0, cur0, profs0, level0 := state, cur, profs, level;
      var stays;
      stays, state, cur, profs, level :=
        Read(path[crsr], chRootProtected, slashStart, state, cur, profs, level, Cut(path[..crsr]).1);
      if !stays {
        ClimbsForGood(path, crsr, chRootProtected, slashStart, state0, cur0, profs0, level0);
        RejectedWhen(path, chRootProtected);
        return false, [];
      }
      NextCharacter(path, crsr, chRootProtected, slashStart, state0, cur0, profs0, level0, state, cur, profs, level);
      crsr := crsr + 1;
    }
    RestIsRemembered(path, crsr, chRootProtected, slashStart, state, cur, profs, level);
    LevelAllowsPop(path, crsr, chRootProtected, slashStart, state, cur, profs, level);
    ghost var state0, cur0, profs0, level0 := state, cur, profs, level;
    var stays;
    stays, state, cur, profs, level :=
      Read('\0', chRootProtected, slashStart, state, cur, profs, level, Cut(path[..crsr]).1);
    if !stays {
      ClimbsForGood(path, crsr, chRootProtected, slashStart, state0, cur0, profs0, level0);
      RejectedWhen(path, chRootProtected);
      return false, [];
    }
    LastCharacter(path, crsr, chRootProtected, slashStart, state0, cur0, profs0, level0, profs, level);
    RejectedWhen(path, chRootProtected);
    result := Write(profs, slashStart);
    return true, result;
  }

  lemma RejectedWhen(path: string, chRootProtected: bool)
    ensures Canonize(path, chRootProtected).None? <==>
              chRootProtected && !IsAbsolute(CString(path)) && Climbs(Components(CString(path)))
    ensures Canonize(path, chRootProtected).Some? ==>
              Canonize(path, chRootProtected).value ==
              Print(Fold(Components(CString(path))).profs, IsAbsolute(CString(path)))
  {
  }

  lemma StartsReading(path: string, chRootProtected: bool, slashStart: bool)
    requires slashStart == (path != [] && path[0] == '/')
    ensures Reading(path, 0, chRootProtected, slashStart, 0, [], [], 0)
    ensures slashStart == IsAbsolute(CString(path))
  {
    assert path[..0] == [];
  }

  lemma RestIsRemembered(path: string, crsr: nat, chRootProtected: bool, slashStart: bool, state: nat, cur: string,
                         profs: seq<string>, level: int)
    requires Reading(path, crsr, chRootProtected, slashStart, state, cur, profs, level)
    ensures Remembers(state, cur, Cut(path[..crsr]).1)
    ensures chRootProtected && !slashStart ==> level >= 0
  {
    var done := Cut(path[..crsr]).0;
    assert done[..|done|] == done;
  }

  lemma NamesByLetters(w: string)
    ensures IsName(w) <==> w != [] && !(|w| == 1 && w[0] == '.') && !(|w| == 2 && w[0] == '.' && w[1] == '.')
  {
    if |w| == 1 && w[0] == '.' {
      assert w == ".";
    }
    if |w| == 2 && w[0] == '.' && w[1] == '.' {
      assert w == "..";
    }
  }

  lemma NotEmpty(path: string, chRootProtected: bool)
    ensures Canonize(path, chRootProtected).Some? ==> Canonize(path, chRootProtected).value != []
  {
    if Canonize(path, chRootProtected).Some? {
      var profs, slash := CanonizedForm(path, chRootProtected);
      JoinOfNormal(profs);
    }
  }

  /** The switch over the state: one character is read, or the path is turned down. */
  method Read(c: char, chRootProtected: bool, slashStart: bool, state: nat, cur: string, profs: seq<string>,
              level: int, ghost rest: string)
    returns (stays: bool, state': nat, cur': string, profs': seq<string>, level': int)
    requires Remembers(state, cur, rest) && (chRootProtected && !slashStart ==> level >= 0)
    requires level > 0 ==> profs != []
    ensures var p := Fold1(Progress(profs, level), rest);
            if c == '/' || c == '\0' then
              && (stays <==> !(chRootProtected && !slashStart && p.level < 0))
              && (stays ==> state' == 0 && cur' == [] && Progress(profs', level') == p)
            else stays && Remembers(state', cur', rest + [c]) && profs' == profs && level' == level
  {
    state', cur', profs', level' := state, cur, profs, level;
    NamesByLetters(rest);
    NamesByLetters(rest + [c]);
    if state == 0 {
      if c == '.' {
        state' := 1;
      } else if c != '\0' && c != '/' {
        cur', state' := cur + [c], 2;
      }
    } else if state == 1 {
      if c == '.' {
        state' := 3;
      } else if c == '\0' || c == '/' {
        state' := 0;
      } else {
        cur', state' := cur + ['.', c], 2;
      }
    } else if state == 2 {
      if c == '/' || c == '\0' {
        state', level', profs', cur' := 0, level + 1, profs + [cur], [];
      } else {
        cur' := cur + [c];
      }
    } else {
      if c == '\0' || c == '/' {
        level' := level - 1;
        if chRootProtected && !slashStart && level' < 0 {
          return false, state', cur', profs', level';
        }
        if level' >= 0 {
          profs' := profs[..|profs| - 1];
        } else {
          profs' := profs + [".."];
        }
        state' := 0;
      } else {
        cur', state' := cur + ['.', '.', c], 2;
      }
    }
    stays := true;
  }

  /** Writes the components out, with a slash before each but the first, and before that
      one too if the path is absolute. */
  method Write(profs: seq<string>, slashStart: bool) returns (result: string)
    ensures result == Print(profs, slashStart)
  {
    result := [];
    if |profs| > 0 {
      for i := 0 to |profs|
        invariant i == 0 ==> result == []
        invariant i > 0 ==> result == (if slashStart then "/" else []) + Join(profs[..i])
      {
        assert profs[..i + 1][..i] == profs[..i];
        if i > 0 || slashStart {
          result := result + ['/'];
        }
        result := result + profs[i];
      }
      assert profs[..|profs|] == profs;
    } else {
      result := if slashStart then "/" else ".";
    }
  }
}
