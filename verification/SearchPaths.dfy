/** Search paths and the files found along them (model/exec-utils.cc, model/utils.cc).

    A search path may have a base, the root of a virtual node.  Its entries are made
    canonical under protection, but the path that is finally looked up is not protected, so
    what keeps a file below the base is what the entries and the file name amount to. */
module SearchPaths {
  import opened CanonicalPath
  import opened Options
  import opened ShortestPaths

  // ---------- splitting ----------

  function Kept(field: string): seq<string> {
    if field == [] then [] else [field]
  }

  /** The fields that end in a separator, without the empty ones, and what follows the last
      separator. */
  function Fields(s: string, sep: char): (seq<string>, string) {
    if s == [] then ([], [])
    else
      var (done, rest) := Fields(s[..|s| - 1], sep);
      var c := s[|s| - 1];
      if c == sep then (done + Kept(rest), []) else (done, rest + [c])
  }

  function Pieces(s: string, sep: char): seq<string> {
    Fields(s, sep).0 + Kept(Fields(s, sep).1)
  }

  lemma {:induction false} FieldsOfWord(s: string, word: string, sep: char)
    requires sep !in word
    ensures Fields(s + word, sep) == (Fields(s, sep).0, Fields(s, sep).1 + word)
  {
    if word == [] {
      assert s + word == s && Fields(s, sep).1 + word == Fields(s, sep).1;
    } else {
      var init := word[..|word| - 1];
      FieldsOfWord(s, init, sep);
      assert (s + word)[..|s + word| - 1] == s + init;
      assert word == init + [word[|word| - 1]];
      assert Fields(s, sep).1 + init + [word[|word| - 1]] == Fields(s, sep).1 + word;
    }
  }

  lemma FieldsOfSep(s: string, sep: char)
    ensures Fields(s + [sep], sep) == (Pieces(s, sep), [])
  {
    assert (s + [sep])[..|s|] == s;
  }

  function JoinBy(pieces: seq<string>, sep: char): string {
    if pieces == [] then [] else JoinBy(pieces[..|pieces| - 1], sep) + [sep] + pieces[|pieces| - 1]
  }

  /** Pieces that are not empty and hold no separator come back out of a joined string. */
  lemma {:induction false} PiecesOfJoin(pieces: seq<string>, sep: char)
    requires forall p | p in pieces :: p != [] && sep !in p
    ensures Pieces(JoinBy(pieces, sep), sep) == pieces
  {
    if pieces != [] {
      var init, last := pieces[..|pieces| - 1], pieces[|pieces| - 1];
      assert forall p | p in init :: p in pieces;
      PiecesOfJoin(init, sep);
      hide Fields;
      FieldsOfSep(JoinBy(init, sep), sep);
      FieldsOfWord(JoinBy(init, sep) + [sep], last, sep);
      assert [] + last == last && init + [last] == pieces;
    }
  }

  /** A string is taken apart at its last separator, and what is empty does not count. */
  lemma PiecesBehind(s: string, word: string, sep: char)
    requires sep !in word
    ensures Pieces(word, sep) == if word == [] then [] else [word]
    ensures Pieces(s + [sep] + word, sep) == Pieces(s, sep) + if word == [] then [] else [word]
  {
    NothingToSplit(sep);
    FieldsOfWord([], word, sep);
    FieldsOfSep(s, sep);
    FieldsOfWord(s + [sep], word, sep);
    assert [] + word == word;
  }

  /** The first separator from a position on. */
  method FindFrom(s: string, sep: char, from: nat) returns (r: Option<nat>)
    requires from <= |s|
    ensures r.Some? ==> from <= r.value < |s| && s[r.value] == sep && sep !in s[from..r.value]
    ensures r.None? ==> sep !in s[from..]
  {
    for i := from to |s|
      invariant sep !in s[from..i]
    {
      if s[i] == sep {
        return Some(i);
      }
      assert s[from..i + 1] == s[from..i] + [s[i]];
    }
    assert s[from..|s|] == s[from..];
    return None;
  }

  method Split(input: string, sep: char) returns (retval: seq<string>)
    ensures retval == Pieces(input, sep)
  {
    hide Fields;
    retval := [];
    var cur := 0;
    NothingToSplit(sep);
    assert input[..0] == [];
    while true
      invariant cur <= |input| && Fields(input[..cur], sep) == (retval, [])
      decreases |input| - cur
    {
      var next := FindFrom(input, sep, cur);
      if next.None? {
        FieldsOfWord(input[..cur], input[cur..], sep);
        assert input[..cur] + input[cur..] == input && [] + input[cur..] == input[cur..];
        if |input| != cur {
          retval := retval + [input[cur..]];
        }
        break;
      }
      var n := next.value;
      FieldsOfWord(input[..cur], input[cur..n], sep);
      FieldsOfSep(input[..n], sep);
      assert input[..cur] + input[cur..n] == input[..n] && [] + input[cur..n] == input[cur..n];
      assert input[..n] + [sep] == input[..n + 1];
      assert retval + [] == retval;
      if n == cur {
        cur := cur + 1;
        continue;
      }
      retval := retval + [input[cur..n]];
      cur := n + 1;
    }
  }

  lemma NothingToSplit(sep: char)
    ensures Fields([], sep) == ([], [])
  {
  }

  // ---------- entries ----------

  /** The canonical forms of the directories that are accepted, in order. */
  function Accepted(directories: seq<string>, chRootProtected: bool): seq<string> {
    if directories == [] then []
    else
      var c := Canonize(directories[|directories| - 1], chRootProtected);
      Accepted(directories[..|directories| - 1], chRootProtected) + (if c.Some? then [c.value] else [])
  }

  /** Where the entry of an accepted directory stands, and where an entry comes from: entries
      are in the order of the directories, and a refused one leaves no trace. */
  lemma {:induction false} AcceptedAt(directories: seq<string>, chRootProtected: bool, i: nat)
    requires i < |directories|
    ensures var k := |Accepted(directories[..i], chRootProtected)|;
            var c := Canonize(directories[i], chRootProtected);
            && |Accepted(directories[..i + 1], chRootProtected)| == (if c.Some? then k + 1 else k)
            && (c.Some? ==> k < |Accepted(directories, chRootProtected)|
                            && Accepted(directories, chRootProtected)[k] == c.value)
  {
    hide Canonize;
    assert directories[..i + 1][..i] == directories[..i];
    var init := directories[..|directories| - 1];
    if i < |init| {
      AcceptedAt(init, chRootProtected, i);
      assert init[..i] == directories[..i];
    } else {
      assert directories[..i] == init && directories[..i + 1] == directories;
    }
  }

  lemma {:induction false} AcceptedFrom(directories: seq<string>, chRootProtected: bool, k: nat) returns (i: nat)
    requires k < |Accepted(directories, chRootProtected)|
    ensures i < |directories| && |Accepted(directories[..i], chRootProtected)| == k
    ensures Canonize(directories[i], chRootProtected) == Some(Accepted(directories, chRootProtected)[k])
  {
    hide Canonize;
    var init := directories[..|directories| - 1];
    if k < |Accepted(init, chRootProtected)| {
      i := AcceptedFrom(init, chRootProtected, k);
      assert init[..i] == directories[..i];
    } else {
      i := |init|;
      assert directories[..i] == init;
    }
  }

  /** Under protection an entry is absolute or never climbs. */
  lemma {:induction false} AcceptedEntries(directories: seq<string>, entry: string)
    requires entry in Accepted(directories, true)
    ensures entry != [] && '\0' !in entry
            && (IsAbsolute(entry) || (".." !in Components(entry) && !Climbs(Components(entry))))
  {
    var init, last := directories[..|directories| - 1], directories[|directories| - 1];
    if entry in Accepted(init, true) {
      AcceptedEntries(init, entry);
    } else {
      NotEmpty(last, true);
      var profs, slash := CanonizedForm(last, true);
      PrintIsAbsolute(profs, slash);
      if !slash {
        NoClimbNoParents(Components(CString(last)));
        ComponentsOfPrint(profs, slash);
        PrintedDoesNotClimb(profs);
      }
    }
  }

  // ---------- the path that is looked up ----------

  /** What is put behind the base: an absolute entry as it is, a relative one behind the
      working directory; without a working directory a relative entry is passed over. */
  function Below(entry: string, cwd: string, file: string): string {
    if IsAbsolute(entry) then entry + "/" + file
    else if cwd == [] then file
    else cwd + "/" + (if entry == [] then file else entry + "/" + file)
  }

  function Candidate(basePath: string, virt: bool, entry: string, cwd: string, file: string): string {
    if virt then basePath + "/" + Below(entry, cwd, file) else entry + "/" + file
  }

  function Location(basePath: string, virt: bool, entry: string, cwd: string, file: string): string {
    Canonize(Candidate(basePath, virt, entry, cwd, file), false).value
  }

  lemma {:induction false} CutOfPath(s: string, t: string)
    ensures Cut(s + ['/'] + t) == (Components(s) + Cut(t).0, Cut(t).1)
  {
    if t == [] {
      CutOfSlash(s);
      assert s + ['/'] + t == s + ['/'] && Components(s) + Cut(t).0 == Components(s);
    } else {
      var init := t[..|t| - 1];
      CutOfPath(s, init);
      assert (s + ['/'] + t)[..|s + ['/'] + t| - 1] == s + ['/'] + init;
      assert Components(s) + Cut(init).0 + [Cut(init).1] == Components(s) + (Cut(init).0 + [Cut(init).1]);
    }
  }

  lemma ComponentsOfPath(s: string, t: string)
    ensures Components(s + "/" + t) == Components(s) + Components(t)
  {
    CutOfPath(s, t);
  }

  lemma {:induction false} WalkOn(dir: seq<string>, a: seq<string>, b: seq<string>)
    ensures Walk(dir, a + b) == Walk(Walk(dir, a), b)
  {
    if b == [] {
      assert a + b == a;
    } else {
      WalkOn(dir, a, b[..|b| - 1]);
      assert (a + b)[..|a + b| - 1] == a + b[..|b| - 1];
    }
  }

  lemma CStringOfFirst(s: string)
    requires s != []
    ensures CString(s) == if s[0] == '\0' then [] else [s[0]] + CString(s[1..])
  {
  }

  lemma {:induction false} CStringBehind(s: string, t: string)
    requires '\0' !in s
    ensures CString(s + t) == s + CString(t)
  {
    hide CString;
    if s == [] {
      assert s + t == t && s + CString(t) == CString(t);
    } else {
      CStringBehind(s[1..], t);
      CStringOfFirst(s + t);
      assert (s + t)[0] == s[0] && (s + t)[1..] == s[1..] + t;
      assert [s[0]] + (s[1..] + CString(t)) == s + CString(t);
    }
  }

  /** What is found lies where the components behind the base lead from there. */
  lemma LocationLeads(wd: seq<string>, basePath: string, below: string)
    requires '\0' !in basePath
    ensures Target(wd, Canonize(basePath + "/" + below, false).value) ==
            Walk(Target(wd, basePath + "/"), Components(CString(below)))
  {
    hide Walk, Cut, CString, Canonize;
    var path := basePath + "/" + below;
    CanonizeUnprotected(path);
    MeaningKept(path, false, wd);
    CStringBehind(basePath + "/", below);
    ComponentsOfPath(basePath, CString(below));
    var dir := if IsAbsolute(basePath + "/") then [] else wd;
    assert IsAbsolute(basePath + "/" + CString(below)) == IsAbsolute(basePath + "/");
    WalkOn(dir, Components(basePath), Components(CString(below)));
    CutOfSlash(basePath);
    WalkOn(dir, Components(basePath), [""]);
    WalkNowhere(Walk(dir, Components(basePath)));
  }

  /** Without a base the file is looked for behind the entry. */
  lemma PlainLocationLeads(wd: seq<string>, basePath: string, entry: string, cwd: string, file: string)
    requires '\0' !in entry
    ensures Target(wd, Location(basePath, false, entry, cwd, file)) ==
            Walk(Target(wd, entry + "/"), Components(CString(file)))
  {
    hide Walk, Cut, CString, Canonize;
    LocationLeads(wd, entry, file);
  }

  /** With a base: an absolute entry leads on from the base and the file from there; a relative
      one leads on from the working directory, which leads on from the base; without a
      working directory the file leads on from the base. */
  lemma VirtualLocationLeads(wd: seq<string>, basePath: string, entry: string, cwd: string, file: string)
    requires '\0' !in basePath && '\0' !in entry && '\0' !in cwd && entry != []
    ensures var base, there := Target(wd, basePath + "/"), Target(wd, Location(basePath, true, entry, cwd, file));
            var name := Components(CString(file));
            && (entry[0] == '/' ==> there == Walk(Walk(base, Components(entry)), name))
            && (entry[0] != '/' && cwd != [] ==>
                  there == Walk(Walk(Walk(base, Components(cwd)), Components(entry)), name))
            && (entry[0] != '/' && cwd == [] ==> there == Walk(base, name))
  {
    hide Walk, Cut, CString, Canonize;
    var base, name := Target(wd, basePath + "/"), Components(CString(file));
    LocationLeads(wd, basePath, Below(entry, cwd, file));
    BehindPlain(entry, file);
    WalkOn(base, Components(entry), name);
    if entry[0] != '/' && cwd != [] {
      BehindPlain(cwd, entry + "/" + file);
      WalkOn(base, Components(cwd), Components(entry) + name);
      WalkOn(Walk(base, Components(cwd)), Components(entry), name);
    }
  }

  lemma BehindPlain(s: string, t: string)
    requires '\0' !in s
    ensures Components(CString(s + "/" + t)) == Components(s) + Components(CString(t))
  {
    hide Cut, CString;
    CStringBehind(s + "/", t);
    ComponentsOfPath(s, CString(t));
  }

  lemma CanonizeUnprotected(path: string)
    ensures Canonize(path, false).Some?
  {
  }

  lemma WalkNowhere(dir: seq<string>)
    ensures Walk(dir, [""]) == dir
  {
    assert [""][..0] == [];
  }

  // ---------- staying below the base ----------

  lemma {:induction false} LevelOfRoute(components: seq<string>)
    ensures Fold(components).level == |RouteOf(components).names| - RouteOf(components).ups
  {
    if components != [] {
      LevelOfRoute(components[..|components| - 1]);
    }
  }

  /** A list climbs if and only if it amounts to going up. */
  lemma {:induction false} ClimbsByRoute(components: seq<string>)
    ensures Climbs(components) <==> RouteOf(components).ups > 0
  {
    if components == [] {
      assert forall k | 0 <= k <= 0 :: components[..k] == [];
    } else {
      var init, last := components[..|components| - 1], components[|components| - 1];
      assert components == init + [last];
      ClimbsByRoute(init);
      ClimbsNext(init, last);
      LevelOfRoute(init);
      LevelOfRoute(components);
    }
  }

  /** The names at the end of the way are again those of the directories it went up. */
  predicate ComesBack(base: seq<string>, components: seq<string>) {
    base[|Up(base, RouteOf(components).ups)|..] <= RouteOf(components).names
  }

  /** No step of the way is outside the base. */
  ghost predicate NeverLeaves(base: seq<string>, components: seq<string>) {
    forall k | 0 <= k <= |components| :: base <= Walk(base, components[..k])
  }

  lemma BelowByRoute(base: seq<string>, components: seq<string>)
    ensures !Climbs(components) ==> base <= Walk(base, components)
    ensures base <= Walk(base, components) <==> ComesBack(base, components)
  {
    hide RouteOf, Walk, Climbs;
    ClimbsByRoute(components);
    WalkByRoute(base, components);
    var r := RouteOf(components);
    var stay := Up(base, r.ups);
    assert base == stay + base[|stay|..];
    if base <= stay + r.names {
      assert base[|stay|..] == (stay + r.names)[|stay|..|base|] == r.names[..|base| - |stay|];
    }
    if base[|stay|..] <= r.names {
      assert r.names[..|base| - |stay|] == base[|stay|..];
      assert (stay + r.names)[..|base|] == base;
    }
  }

  /** No step of the way leaves the base if and only if no prefix climbs; the root cannot be
      left. */
  lemma BelowAllAlong(base: seq<string>, components: seq<string>)
    ensures NeverLeaves(base, components) <==> base == [] || !Climbs(components)
  {
    if !Climbs(components) {
      forall k | 0 <= k <= |components|
        ensures base <= Walk(base, components[..k])
      {
        PrefixDoesNotClimb(components, k);
        BelowByRoute(base, components[..k]);
      }
    } else if base != [] {
      var k := FirstClimb(components);
      WalkByRoute(base, components[..k]);
      assert |Walk(base, components[..k])| < |base|;
    }
  }

  lemma PrefixDoesNotClimb(components: seq<string>, k: nat)
    requires k <= |components| && !Climbs(components)
    ensures !Climbs(components[..k])
  {
    forall j | 0 <= j <= k
      ensures Fold(components[..k][..j]).level >= 0
    {
      assert components[..k][..j] == components[..j];
    }
  }

  lemma {:induction false} FirstClimb(components: seq<string>) returns (k: nat)
    requires Climbs(components)
    ensures k <= |components| && RouteOf(components[..k]) == Route(1, [])
  {
    ClimbsByRoute(components);
    var init := components[..|components| - 1];
    if Climbs(init) {
      k := FirstClimb(init);
      assert init[..k] == components[..k];
    } else {
      ClimbsByRoute(init);
      k := |components|;
      assert components[..k] == components;
    }
  }

  /** Wherever the base lies, the end of the way is below it: if and only if no prefix
      climbs. */
  lemma BelowFromEverywhere(components: seq<string>)
    ensures (forall base :: base <= Walk(base, components)) <==> !Climbs(components)
  {
    if Climbs(components) {
      var z := Fresh(components);
      var base := [z];
      BelowByRoute(base, components);
      ClimbsByRoute(components);
      assert base[0..] == base;
      assert RouteOf(components).names != [] ==> RouteOf(components).names[0] in RouteOf(components).names;
    } else {
      forall base: seq<string>
        ensures base <= Walk(base, components)
      {
        BelowByRoute(base, components);
      }
    }
  }

  /** A file found below a virtual root: the way from the base to it leaves the base if and
      only if some prefix of what is put behind the base climbs, and for an absolute entry
      that is the entry and then the file. */
  lemma SeekStaysBelow(wd: seq<string>, basePath: string, directories: seq<string>, entry: string, cwd: string,
                       file: string)
    requires '\0' !in basePath && entry in Accepted(directories, true)
    ensures var base := Target(wd, basePath + "/");
            var way := Components(CString(Below(entry, cwd, file)));
            && Target(wd, Location(basePath, true, entry, cwd, file)) == Walk(base, way)
            && (NeverLeaves(base, way) <==> base == [] || !Climbs(way))
            && (base <= Walk(base, way) <==> ComesBack(base, way))
            && ((forall b :: b <= Walk(b, way)) <==> !Climbs(way))
    ensures IsAbsolute(entry) ==>
              Components(CString(Below(entry, cwd, file))) == Components(entry) + Components(CString(file))
    ensures !IsAbsolute(entry) && '\0' !in cwd ==>
              Components(CString(Below(entry, cwd, file))) ==
              (if cwd == [] then [] else Components(cwd) + Components(entry)) + Components(CString(file))
  {
    hide Cut, CString, Canonize, Walk, Climbs, ComesBack, NeverLeaves, Accepted;
    AcceptedEntries(directories, entry);
    var way := Components(CString(Below(entry, cwd, file)));
    var base := Target(wd, basePath + "/");
    LocationLeads(wd, basePath, Below(entry, cwd, file));
    BelowAllAlong(base, way);
    BelowByRoute(base, way);
    BelowFromEverywhere(way);
    CStringBehind(entry + "/", file);
    ComponentsOfPath(entry, CString(file));
    if '\0' !in cwd {
      CStringBehind(cwd + "/", entry + "/" + file);
      ComponentsOfPath(cwd, entry + "/" + CString(file));
      assert entry + "/" + file == (entry + "/") + file;
    }
  }

  lemma {:induction false} NoParentsNoClimb(components: seq<string>)
    requires ".." !in components
    ensures RouteOf(components).ups == 0 && !Climbs(components)
  {
    if components != [] {
      NoParentsNoClimb(components[..|components| - 1]);
    }
    ClimbsByRoute(components);
  }

  /** A relative entry never leads out of the base: if something found through one lies
      outside, the working directory or the file name holds a '..'. */
  lemma RelativeStaysBelow(wd: seq<string>, basePath: string, directories: seq<string>, entry: string, cwd: string,
                           file: string)
    requires '\0' !in basePath && entry in Accepted(directories, true) && !IsAbsolute(entry) && '\0' !in cwd
    requires ".." !in Components(cwd) && ".." !in Components(CString(file))
    ensures Target(wd, basePath + "/") <= Target(wd, Location(basePath, true, entry, cwd, file))
  {
    hide *;
    AcceptedEntries(directories, entry);
    SeekStaysBelow(wd, basePath, directories, entry, cwd, file);
    assert ".." !in (if cwd == [] then [] else Components(cwd) + Components(entry)) + Components(CString(file));
    NoParentsNoClimb(Components(CString(Below(entry, cwd, file))));
    BelowByRoute(Target(wd, basePath + "/"), Components(CString(Below(entry, cwd, file))));
  }

  // ---------- leaving the base ----------

  lemma NormalUp()
    ensures Normal(["..", "x"]) && Print(["..", "x"], true) == "/../x" && Components("/../x") == ["", "..", "x"]
  {
    var up := ["..", "x"];
    assert up[..1] == [".."] && up[..2] == up && [".."][..0] == [];
    assert Balance([".."]) == -1 && NormalAt(up, 0) && NormalAt(up, 1);
    assert Join(up) == "../x";
    ComponentsOfPrint(up, true);
    assert [""] + up == ["", "..", "x"];
  }

  lemma Words()
    ensures Components("base") == ["base"] && Components("f") == ["f"] && Components(".") == ["."]
    ensures Components("../f") == ["..", "f"] && Join(["x", "f"]) == "x/f" && Join(["f"]) == "f"
  {
    hide Cut;
    CutOfNothing();
    Joined(["base"]);
    Joined(["f"]);
    Joined(["."]);
    Joined(["..", "f"]);
    assert ["..", "f"][..1] == [".."] && ["x", "f"][..1] == ["x"];
    assert Join(["..", "f"]) == "../f" && Join(["x", "f"]) == "x/f";
  }

  lemma CutOfNothing()
    ensures Cut([]) == ([], [])
  {
  }

  lemma Joined(profs: seq<string>)
    requires profs != [] && forall i | 0 <= i < |profs| :: '/' !in profs[i]
    ensures Components(Join(profs)) == profs
  {
    ComponentsOfJoin([], profs);
    assert [] + Join(profs) == Join(profs);
  }

  lemma ProgressNext(done: seq<string>, p: Progress, c: string, next: seq<string>, q: Progress)
    requires Fold(done) == p && Fold1(p, c) == q && next == done + [c]
    ensures Fold(next) == q
  {
    ClimbsNext(done, c);
  }

  lemma FoldsOutside()
    ensures Fold(["base", "", "..", "x", "f"]).profs == ["x", "f"] && Fold(["base", "..", "f"]).profs == ["f"]
  {
    ProgressNext([], Progress([], 0), "base", ["base"], Progress(["base"], 1));
    ProgressNext(["base"], Progress(["base"], 1), "", ["base", ""], Progress(["base"], 1));
    hide Fold;
    assert ["base"][..0] == [];
    ProgressNext(["base", ""], Progress(["base"], 1), "..", ["base", "", ".."], Progress([], 0));
    ProgressNext(["base"], Progress(["base"], 1), "..", ["base", ".."], Progress([], 0));
    ProgressNext(["base", ".."], Progress([], 0), "f", ["base", "..", "f"], Progress(["f"], 1));
    ThenXAndF(["base", "", ".."]);
    assert ["base", "", ".."] + ["x", "f"] == ["base", "", "..", "x", "f"];
  }

  lemma ThenXAndF(way: seq<string>)
    requires Fold(way) == Progress([], 0)
    ensures Fold(way + ["x", "f"]).profs == ["x", "f"]
  {
    hide Fold;
    ProgressNext(way, Progress([], 0), "x", way + ["x"], Progress(["x"], 1));
    assert way + ["x", "f"] == way + ["x"] + ["f"];
    ProgressNext(way + ["x"], Progress(["x"], 1), "f", way + ["x", "f"], Progress(["x", "f"], 2));
  }

  lemma FoundAt(below: string, way: seq<string>, profs: seq<string>)
    requires '\0' !in below && Components(below) == way && Fold(["base"] + way).profs == profs != []
    ensures Canonize("base" + "/" + below, false) == Some(Join(profs))
  {
    hide Cut, Fold, Join;
    Words();
    ComponentsOfPath("base", below);
    assert Print(profs, false) == Join(profs);
  }

  /** The plain case: the file is found in the entry's directory below the base. */
  lemma FoundBelowBase()
    ensures Location("base", true, "/x", "", "./f") == "base/x/f"
  {
    hide Cut, Canonize, Fold, Join;
    Words();
    SlashX();
    assert "/x" + "/" + "./f" == "/x/./f";
    ComponentsOfPath("/x", "./f");
    assert ["", "x"] + [".", "f"] == ["", "x", ".", "f"];
    FoldsBelow();
    assert ["base"] + ["", "x", ".", "f"] == ["base", "", "x", ".", "f"];
    FoundAt("/x/./f", ["", "x", ".", "f"], ["base", "x", "f"]);
  }

  lemma SlashX()
    ensures Components("/x") == ["", "x"] && Components("./f") == [".", "f"] && Join(["base", "x", "f"]) == "base/x/f"
  {
    hide Cut;
    Joined(["", "x"]);
    Joined([".", "f"]);
    assert ["", "x"][..1] == [""] && [".", "f"][..1] == ["."];
    assert Join([""]) == "" && Join(["."]) == ".";
    assert Join(["", "x"]) == "/x" && Join([".", "f"]) == "./f";
    assert ["base", "x", "f"][..2] == ["base", "x"] && ["base", "x"][..1] == ["base"];
    assert Join(["base"]) == "base" && Join(["base", "x"]) == "base/x";
  }

  lemma FoldsBelow()
    ensures Fold(["base", "", "x", ".", "f"]).profs == ["base", "x", "f"]
  {
    var b, c, d: seq<string> := ["base"], ["base", ""], ["base", "", "x"];
    var bx := Progress(["base", "x"], 2);
    ProgressNext([], Progress([], 0), "base", b, Progress(["base"], 1));
    ProgressNext(b, Progress(["base"], 1), "", c, Progress(["base"], 1));
    hide Fold;
    ProgressNext(c, Progress(["base"], 1), "x", d, bx);
    ProgressNext(d, bx, ".", d + ["."], bx);
    ProgressNext(d + ["."], bx, "f", d + ["."] + ["f"], Progress(["base", "x", "f"], 3));
    assert d + ["."] + ["f"] == ["base", "", "x", ".", "f"];
  }

  /** An absolute entry may climb, as it is accepted under protection, and then the file
      found lies beside the base. */
  lemma BaseIsLeft()
    ensures Accepted(["/../x"], true) == ["/../x"] && Location("base", true, "/../x", "", "f") == "x/f"
    ensures Climbs(Components("/../x") + Components("f"))
  {
    hide Cut, Canonize, Normal, Fold, Climbs, Join, Accepted;
    NormalUp();
    Words();
    FoldsOutside();
    CanonizeNormal(["..", "x"], true, true);
    AcceptedOne("/../x", "/../x");
    ComponentsOfPath("/../x", "f");
    assert "/../x" + "/" + "f" == "/../x/f";
    assert ["base"] + (["", "..", "x"] + ["f"]) == ["base", "", "..", "x", "f"];
    FoundAt("/../x/f", ["", "..", "x"] + ["f"], ["x", "f"]);
    WayClimbs(["", "..", "x"] + ["f"], 2);
  }

  lemma WayClimbs(way: seq<string>, k: nat)
    requires 2 == k <= |way| && way[0] == "" && way[1] == ".."
    ensures Climbs(way)
  {
    var s: seq<string> := [];
    ProgressNext(s, Progress([], 0), "", [""], Progress([], 0));
    ProgressNext([""], Progress([], 0), "..", ["", ".."], Progress([".."], -1));
    assert way[..k] == ["", ".."];
  }

  lemma AcceptedOne(directory: string, entry: string)
    requires Canonize(directory, true) == Some(entry)
    ensures Accepted([directory], true) == [entry]
  {
    assert [directory][..0] == [] && Accepted([], true) == [];
  }

  /** So may the name of the file, whatever the entry. */
  lemma BaseIsLeftByName()
    ensures Location("base", true, ".", "", "../f") == "f"
  {
    hide Cut, Canonize, Fold, Join;
    Words();
    FoldsOutside();
    assert ["base"] + ["..", "f"] == ["base", "..", "f"];
    FoundAt("../f", ["..", "f"], ["f"]);
  }

  // ---------- the search ----------

  class SearchPath {
    var basePath: string
    var virt: bool
    var paths: seq<string>

    constructor (basePath: string, pathList: string, virt: bool)
      ensures this.basePath == basePath && this.virt == virt
      ensures paths == Accepted(Pieces(pathList, ':'), |basePath| > 0)
    {
      this.basePath, this.virt := basePath, virt;
      new;
      hide Canonize;
      paths := [];
      var prot := |basePath| > 0;
      var p := Split(pathList, ':');
      for i := 0 to |p|
        invariant this.basePath == basePath && this.virt == virt && paths == Accepted(p[..i], prot)
      {
        assert p[..i + 1][..i] == p[..i];
        NotEmpty(p[i], prot);
        var ok, cano := CanonizePath(p[i], prot);
        if ok && |cano| > 0 {
          paths := paths + [cano];
        }
      }
      assert p[..|p|] == p;
    }

    /** The first location along the path that passes the check. */
    method SeekFile(file: string, cwd: string, checker: string -> bool) returns (found: string)
      ensures found == [] <==> forall e | e in paths :: !checker(Location(basePath, virt, e, cwd, file))
      ensures found != [] ==>
                exists i ::
                  && 0 <= i < |paths| && found == Location(basePath, virt, paths[i], cwd, file) && checker(found)
                  && forall j | 0 <= j < i :: !checker(Location(basePath, virt, paths[j], cwd, file))
    {
      hide Canonize;
      for i := 0 to |paths|
        invariant forall j | 0 <= j < i :: !checker(Location(basePath, virt, paths[j], cwd, file))
      {
        var p, pp := paths[i], [];
        if p != [] && p[0] == '/' {
          if virt {
            pp := basePath + "/" + p + "/" + file;
            assert pp == basePath + "/" + (p + "/" + file);
          } else {
            pp := p + "/" + file;
          }
        } else if virt {
          if |cwd| > 0 && |p| > 0 {
            pp := basePath + "/" + cwd + "/" + p + "/" + file;
            assert pp == basePath + "/" + (cwd + "/" + (p + "/" + file));
          } else if |cwd| > 0 {
            pp := basePath + "/" + cwd + "/" + file;
            assert pp == basePath + "/" + (cwd + "/" + file);
          } else {
            pp := basePath + "/" + file;
          }
        } else {
          pp := p + "/" + file;
        }
        CanonizeUnprotected(pp);
        NotEmpty(pp, false);
        var ok, cano := CanonizePath(pp, false);
        assert cano == Location(basePath, virt, paths[i], cwd, file);
        if |cano| > 0 && checker(cano) {
          return cano;
        }
      }
      return [];
    }
  }
}
