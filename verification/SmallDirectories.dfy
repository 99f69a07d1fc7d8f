/** Small file systems: every file looks in one directory only, and finds there what it
    needs.  Two of them show what the resolver does about a file that cannot be read. */
module SmallDirectories {
  import opened DepthWalk
  import opened ElfLdd
  import opened Options
  import opened StringOrder

  const DIRECTORY := "/l/"

  function At(name: string): string {
    DIRECTORY + name
  }

  function Needing(needed: seq<string>): Elf {
    Elf(needed, [DIRECTORY])
  }

  ghost function Located(needed: seq<string>): Libs {
    set n | n in needed :: (n, At(n))
  }

  ghost predicate OneDirectory(u: Files) {
    forall p | p in u.elf ::
      u.elf[p].path == [DIRECTORY] && forall n | n in u.elf[p].needed :: At(n) in u.exist
  }

  lemma AtApart(m: string, n: string)
    ensures At(m) == At(n) <==> m == n
  {
    assert At(m)[3..] == m && At(n)[3..] == n;
  }

  lemma FoundHere(u: Files, n: string)
    requires At(n) in u.exist
    ensures Resolve(u, [DIRECTORY], n) == Some(At(n))
  {
  }

  lemma UsableHere(u: Files, p: string)
    requires OneDirectory(u) && p in u.elf
    ensures Scans(u, p) && LibsOf(u, p) == Located(u.elf[p].needed)
  {
    forall n | n in NeededBy(u.elf[p])
      ensures Resolve(u, [DIRECTORY], n) == Some(At(n))
    {
      FoundHere(u, n);
    }
  }

  lemma LeadsTo(u: Files, f: string, p: string, n: string)
    requires OneDirectory(u) && Reached(u, f, p) && p in u.elf && n in u.elf[p].needed && At(n) in u.elf
    ensures Reached(u, f, At(n))
  {
    UsableHere(u, p);
    UsableHere(u, At(n));
    assert (n, At(n)) in LibsOf(u, p);
    var k: nat :| ReachedIn(u, f, p, k);
    assert ReachedIn(u, f, At(n), k + 1);
  }

  /** If f leads to all of them, it is known what is scanned. */
  lemma AllScanned(u: Files, f: string, needs: Needs)
    requires OneDirectory(u) && GivenBy(u, f, needs) && forall p | p in u.elf :: Reached(u, f, p)
    ensures needs.Keys == u.elf.Keys && |needs| == |u.elf.Keys|
    ensures forall p | p in needs :: needs[p] == Located(u.elf[p].needed)
  {
    forall p | p in needs
      ensures p in u.elf && needs[p] == Located(u.elf[p].needed)
    {
      var n: nat :| ReachedIn(u, f, p, n);
      UsableHere(u, p);
    }
    assert needs.Keys == u.elf.Keys && |needs| == |needs.Keys|;
  }

  // ---------- a file that cannot be read ----------

  /** f needs x, which is there and cannot be read. */
  const UNREADABLE := Files({At("x")}, map[At("f") := Needing(["x"])])

  lemma UnreadableNeed(needs: Needs)
    requires GivenBy(UNREADABLE, At("f"), needs)
    ensures At("f") in needs && Walk(needs, At("f"), |needs|) == Missing && !Complete(UNREADABLE, At("f"))
  {
    hide At, ReachedIn, Found, AllFound, GivenBy;
    var f := At("f");
    UsableHere(UNREADABLE, f);
    RootReached(UNREADABLE, f);
    AllScanned(UNREADABLE, f, needs);
    AtApart("f", "x");
    assert needs[f] == {("x", At("x"))};
    assert UNREADABLE.elf.Keys == {f};
    WalkOneNeed(needs, ("x", At("x")), 1);
    MissingWhen(UNREADABLE, f, needs);
  }

  /** f needs a and z; a needs itself, and z cannot be read. */
  const CIRCLE_FIRST := Files({At("a"), At("z")}, map[At("f") := Needing(["a", "z"]), At("a") := Needing(["a"])])

  lemma CircleNeeds(needs: Needs)
    requires GivenBy(CIRCLE_FIRST, At("f"), needs)
    ensures needs.Keys == {At("f"), At("a")} && |needs| == 2
    ensures needs[At("f")] == {("a", At("a")), ("z", At("z"))} && needs[At("a")] == {("a", At("a"))}
    ensures !Complete(CIRCLE_FIRST, At("f"))
  {
    hide At, ReachedIn, Found, AllFound, GivenBy;
    var u, f, a, z := CIRCLE_FIRST, At("f"), At("a"), At("z");
    AtApart("f", "a");
    AtApart("f", "z");
    AtApart("a", "z");
    UsableHere(u, f);
    RootReached(u, f);
    LeadsTo(u, f, f, "a");
    AllScanned(u, f, needs);
    assert u.elf.Keys == {f, a};
    assert ("z", z) in LibsOf(u, f) && z in Paths(LibsOf(u, f)) && !Scans(u, z);
  }

  /** f needs a and something later, and a needs itself. */
  lemma StopsAtSelfNeed(needs: Needs, f: string, a: (string, string), b: (string, string))
    requires f in needs && a.1 in needs && needs[f] == {a, b} && needs[a.1] == {a} && PairBefore(a, b)
    ensures Walk(needs, f, 2) == TooLong
  {
    WalkOneNeed(needs, a, 0);
    WalkOneNeed(needs, a, 1);
    WalkStopsAtFirst(needs, needs[f], a, 2);
  }

  lemma CircleFirst(needs: Needs)
    requires GivenBy(CIRCLE_FIRST, At("f"), needs)
    ensures At("f") in needs && Walk(needs, At("f"), |needs|) == TooLong && !Complete(CIRCLE_FIRST, At("f"))
  {
    hide GivenBy, Complete, Walk;
    CircleNeeds(needs);
    StopsAtSelfNeed(needs, At("f"), ("a", At("a")), ("z", At("z")));
  }

  /** The resolver follows a record that is not there. */
  method FollowsMissing() returns (r: Outcome, deps: seq<Dependency>)
    ensures r == Missing && deps == []
  {
    var ldd := new Ldd();
    ghost var needs, depths, list;
    r, needs, depths, list := ldd.Loop(UNREADABLE, "f", At("f"));
    UnreadableNeed(needs);
    deps := ldd.deps;
  }

  /** The resolver stops at the circle, before it looks at the file that cannot be read. */
  method StopsAtCircle() returns (r: Outcome, deps: seq<Dependency>)
    ensures r == TooLong && deps == []
  {
    var ldd := new Ldd();
    ghost var needs, depths, list;
    r, needs, depths, list := ldd.Loop(CIRCLE_FIRST, "f", At("f"));
    CircleFirst(needs);
    deps := ldd.deps;
  }
}
