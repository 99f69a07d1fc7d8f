/** The walk that computes depths (model/elf-ldd.cc:229-258), on the needs of the scanned
    files as plain values.

    A file's depth is known once those of all it needs are.  The walk goes through the needs
    in order and stops at the first one that cannot be settled: either there is no record
    for it, or the chain has become longer than the bound. */
module DepthWalk {
  import opened Chains
  import opened StringOrder

  type Libs = set<(string, string)>

  /** What each scanned file needs, by name and by the file that was found. */
  type Needs = map<string, Libs>

  datatype Outcome = Unusable | Missing | TooLong | Noted

  ghost function Paths(libs: Libs): set<string> {
    set l | l in libs :: l.1
  }

  ghost function Edges(needs: Needs): Graph {
    map p | p in needs :: Paths(needs[p])
  }

  /** The first of a set of pairs, in the order they are walked in. */
  function First(s: Libs): (m: (string, string))
    requires s != {}
    ensures m in s && IsLeastPair(s, m)
  {
    OneLeastPair(s);
    var m :| m in s && IsLeastPair(s, m);
    m
  }

  function Less(rest: Libs, a: (string, string)): (r: Libs)
    ensures a in rest ==> |r| < |rest|
  {
    rest - {a}
  }

  /** The walk, as if nothing were noted on the way. */
  ghost function Walk(needs: Needs, p: string, max: int): (r: Outcome)
    requires p in needs && max >= -1
    ensures r != Unusable
    decreases max + 1, 1, 0
  {
    if max < 0 then TooLong else WalkOver(needs, needs[p], max)
  }

  ghost function WalkOver(needs: Needs, rest: Libs, max: nat): (r: Outcome)
    ensures r != Unusable
    decreases max + 1, 0, |rest|
  {
    if rest == {} then Noted
    else
      var a := First(rest);
      if a.1 !in needs then Missing
      else
        var r := Walk(needs, a.1, max - 1);
        if r == Noted then WalkOver(needs, Less(rest, a), max) else r
  }

  lemma WalkOneNeed(needs: Needs, a: (string, string), max: nat)
    ensures WalkOver(needs, {a}, max) == if a.1 in needs then Walk(needs, a.1, max - 1) else Missing
  {
    assert First({a}) == a && Less({a}, a) == {};
  }

  lemma WalkStopsAtFirst(needs: Needs, rest: Libs, a: (string, string), max: nat)
    requires a in rest && IsLeastPair(rest, a) && a.1 in needs && Walk(needs, a.1, max - 1) != Noted
    ensures WalkOver(needs, rest, max) == Walk(needs, a.1, max - 1)
  {
    OneLeastPair(rest);
    assert First(rest) == a;
  }

  // ---------- files that can be settled ----------

  /** Everything p leads to was scanned, and no chain from it has more than n steps. */
  ghost predicate CleanIn(needs: Needs, p: string, n: nat)
    decreases n
  {
    p in needs && forall a | a in needs[p] :: n > 0 && CleanIn(needs, a.1, n - 1)
  }

  ghost predicate Clean(needs: Needs, p: string) {
    exists n: nat :: CleanIn(needs, p, n)
  }

  lemma {:induction false} CleanMore(needs: Needs, p: string, n: nat, m: nat)
    requires CleanIn(needs, p, n) && n <= m
    ensures CleanIn(needs, p, m)
    decreases n
  {
    forall a | a in needs[p]
      ensures m > 0 && CleanIn(needs, a.1, m - 1)
    {
      CleanMore(needs, a.1, n - 1, m - 1);
    }
  }

  lemma CleanBelow(needs: Needs, p: string, a: (string, string))
    requires Clean(needs, p) && a in needs[p]
    ensures Clean(needs, a.1)
  {
    var n: nat :| CleanIn(needs, p, n);
    assert CleanIn(needs, a.1, n - 1);
  }

  lemma {:induction false} CleanAll(needs: Needs, libs: Libs) returns (n: nat)
    requires forall a | a in libs :: Clean(needs, a.1)
    ensures forall a | a in libs :: CleanIn(needs, a.1, n)
  {
    n := 0;
    if libs != {} {
      var x :| x in libs;
      var m := CleanAll(needs, libs - {x});
      var k: nat :| CleanIn(needs, x.1, k);
      n := if m < k then k else m;
      forall a | a in libs
        ensures CleanIn(needs, a.1, n)
      {
        CleanMore(needs, a.1, if a == x then k else m, n);
      }
    }
  }

  lemma CleanAbove(needs: Needs, p: string)
    requires p in needs && forall a | a in needs[p] :: Clean(needs, a.1)
    ensures Clean(needs, p)
  {
    var n := CleanAll(needs, needs[p]);
    assert CleanIn(needs, p, n + 1);
  }

  lemma {:induction false} CleanHasNoChain(needs: Needs, p: string, n: nat)
    requires CleanIn(needs, p, n)
    ensures !HasChain(Edges(needs), p, n + 1)
    decreases n
  {
    if HasChain(Edges(needs), p, n + 1) {
      var q :| q in Edges(needs)[p] && HasChain(Edges(needs), q, n);
      var a :| a in needs[p] && a.1 == q;
      CleanHasNoChain(needs, q, n - 1);
    }
  }

  lemma CleanHasNoCycle(needs: Needs, p: string)
    requires Clean(needs, p)
    ensures !CycleFrom(Edges(needs), p)
  {
    var n: nat :| CleanIn(needs, p, n);
    CleanHasNoChain(needs, p, n);
    LongChainIffCycle(Edges(needs), p);
  }

  // ---------- the first need that cannot be settled ----------

  /** The walk comes to this need: whatever comes before it can be settled. */
  ghost predicate ComesTo(needs: Needs, p: string, a: (string, string)) {
    p in needs && a in needs[p] && forall b | b in needs[p] && PairBefore(b, a) :: Clean(needs, b.1)
  }

  /** From p on, n times the first need that cannot be settled, and then one that was not
      scanned. */
  ghost predicate MeetsIn(needs: Needs, p: string, n: nat)
    decreases n
  {
    exists a :: ComesTo(needs, p, a) && !Clean(needs, a.1) &&
                if n == 0 then a.1 !in needs else MeetsIn(needs, a.1, n - 1)
  }

  /** The walk from p comes to a file that was not scanned before it comes to a circle. */
  ghost predicate Meets(needs: Needs, p: string) {
    exists n: nat :: MeetsIn(needs, p, n)
  }

  lemma OneFirst(needs: Needs, p: string, a: (string, string), b: (string, string))
    requires ComesTo(needs, p, a) && !Clean(needs, a.1) && ComesTo(needs, p, b) && !Clean(needs, b.1)
    ensures a == b
  {
    PairTotal(a, b);
  }

  /** The way to the missing file leads over the first need that cannot be settled. */
  lemma MeetsNext(needs: Needs, p: string, n: nat, a: (string, string))
    requires MeetsIn(needs, p, n) && ComesTo(needs, p, a) && !Clean(needs, a.1)
    ensures if n == 0 then a.1 !in needs else MeetsIn(needs, a.1, n - 1)
  {
    var b :| ComesTo(needs, p, b) && !Clean(needs, b.1) && if n == 0 then b.1 !in needs else MeetsIn(needs, b.1, n - 1);
    hide Clean, ComesTo;
    OneFirst(needs, p, a, b);
  }

  lemma MeetsKnown(needs: Needs, p: string, n: nat)
    requires MeetsIn(needs, p, n)
    ensures p in needs && exists a :: ComesTo(needs, p, a) && !Clean(needs, a.1)
  {
  }

  lemma {:induction false} MeetsOnce(needs: Needs, p: string, n: nat, m: nat)
    requires MeetsIn(needs, p, n) && MeetsIn(needs, p, m)
    ensures n == m
    decreases n
  {
    hide Clean, ComesTo, MeetsIn;
    MeetsKnown(needs, p, n);
    var a :| ComesTo(needs, p, a) && !Clean(needs, a.1);
    MeetsNext(needs, p, n, a);
    MeetsNext(needs, p, m, a);
    if n > 0 && m > 0 {
      MeetsOnce(needs, a.1, n - 1, m - 1);
    } else if n > 0 {
      MeetsKnown(needs, a.1, n - 1);
    } else if m > 0 {
      MeetsKnown(needs, a.1, m - 1);
    }
  }

  /** The walk goes down n steps from p. */
  ghost predicate GoesDown(needs: Needs, p: string, n: nat)
    decreases n
  {
    p in needs && (n == 0 || exists a :: ComesTo(needs, p, a) && GoesDown(needs, a.1, n - 1))
  }

  lemma {:induction false} DownIsChain(needs: Needs, p: string, n: nat)
    requires GoesDown(needs, p, n)
    ensures HasChain(Edges(needs), p, n)
    decreases n
  {
    if n > 0 {
      var a :| ComesTo(needs, p, a) && GoesDown(needs, a.1, n - 1);
      DownIsChain(needs, a.1, n - 1);
      assert a.1 in Edges(needs)[p];
    }
  }

  ghost predicate DownAt(needs: Needs, nodes: seq<string>, i: nat)
    requires i < |nodes| - 1
  {
    exists a :: ComesTo(needs, nodes[i], a) && a.1 == nodes[i + 1]
  }

  ghost predicate IsDescent(needs: Needs, nodes: seq<string>) {
    && nodes != [] && (forall i | 0 <= i < |nodes| :: nodes[i] in needs)
    && forall i: nat {:trigger DownAt(needs, nodes, i)} | i < |nodes| - 1 :: DownAt(needs, nodes, i)
  }

  lemma {:induction false} Descent(needs: Needs, p: string, n: nat) returns (nodes: seq<string>)
    requires GoesDown(needs, p, n)
    ensures IsDescent(needs, nodes) && nodes[0] == p && |nodes| == n + 1
    decreases n
  {
    nodes := [p];
    if n > 0 {
      var a :| ComesTo(needs, p, a) && GoesDown(needs, a.1, n - 1);
      var rest := Descent(needs, a.1, n - 1);
      nodes := [p] + rest;
      forall i: nat | i < |nodes| - 1
        ensures DownAt(needs, nodes, i)
      {
        assert i > 0 ==> DownAt(needs, rest, i - 1);
      }
    }
  }

  lemma DescentStep(needs: Needs, nodes: seq<string>, i: nat) returns (a: (string, string))
    requires IsDescent(needs, nodes) && i < |nodes| - 1
    ensures ComesTo(needs, nodes[i], a) && a.1 == nodes[i + 1]
  {
    assert DownAt(needs, nodes, i);
    a :| ComesTo(needs, nodes[i], a) && a.1 == nodes[i + 1];
  }

  lemma DescentKnown(needs: Needs, nodes: seq<string>, i: nat)
    requires IsDescent(needs, nodes) && i < |nodes|
    ensures nodes[i] in needs
  {
  }

  lemma {:induction false} CleanStays(needs: Needs, nodes: seq<string>, i: nat, j: nat)
    requires IsDescent(needs, nodes) && i <= j < |nodes| && Clean(needs, nodes[i])
    ensures Clean(needs, nodes[j])
  {
    if i < j {
      CleanStays(needs, nodes, i, j - 1);
      var a := DescentStep(needs, nodes, j - 1);
      CleanBelow(needs, nodes[j - 1], a);
    }
  }

  /** As long as it cannot be settled, the walk follows the one way to the missing file. */
  lemma {:induction false} OnTheWay(needs: Needs, nodes: seq<string>, n: nat, j: nat)
    requires IsDescent(needs, nodes) && j < |nodes| && MeetsIn(needs, nodes[0], n) && !Clean(needs, nodes[j])
    ensures j <= n && MeetsIn(needs, nodes[j], n - j)
  {
    hide Clean, ComesTo, MeetsIn, IsDescent;
    if j > 0 {
      if Clean(needs, nodes[j - 1]) {
        CleanStays(needs, nodes, j - 1, j);
      }
      OnTheWay(needs, nodes, n, j - 1);
      var a := DescentStep(needs, nodes, j - 1);
      MeetsNext(needs, nodes[j - 1], n - (j - 1), a);
      DescentKnown(needs, nodes, j);
    }
  }

  lemma DescentIsPath(needs: Needs, nodes: seq<string>)
    requires IsDescent(needs, nodes)
    ensures IsPath(Edges(needs), nodes)
  {
    forall i | 0 <= i < |nodes| - 1
      ensures nodes[i + 1] in Edges(needs)[nodes[i]]
    {
      var a := DescentStep(needs, nodes, i);
    }
  }

  lemma PathFrom(g: Graph, nodes: seq<string>, i: nat)
    requires IsPath(g, nodes) && i < |nodes|
    ensures IsPath(g, nodes[i..])
  {
    forall k | 0 <= k < |nodes[i..]| - 1
      ensures nodes[i..][k + 1] in g[nodes[i..][k]]
    {
      assert nodes[i + k + 1] in g[nodes[i + k]];
    }
  }

  lemma NoReturn(needs: Needs, nodes: seq<string>, n: nat, i: nat, j: nat)
    requires IsDescent(needs, nodes) && i < j < |nodes| && MeetsIn(needs, nodes[0], n)
    ensures nodes[i] != nodes[j]
  {
    if nodes[i] == nodes[j] {
      if Clean(needs, nodes[i]) {
        DescentIsPath(needs, nodes);
        var loop := nodes[i..];
        PathFrom(Edges(needs), nodes, i);
        assert loop[0] == loop[j - i];
        CleanHasNoCycle(needs, nodes[i]);
      } else {
        OnTheWay(needs, nodes, n, i);
        OnTheWay(needs, nodes, n, j);
        MeetsOnce(needs, nodes[i], n - i, n - j);
      }
    }
  }

  /** A walk that comes to a missing file goes down less far than there are files. */
  lemma MeetsIsShort(needs: Needs, p: string, n: nat)
    requires Meets(needs, p) && GoesDown(needs, p, n)
    ensures n < |needs|
  {
    var m: nat :| MeetsIn(needs, p, m);
    var nodes := Descent(needs, p, n);
    forall i, j | 0 <= i < j < |nodes|
      ensures nodes[i] != nodes[j]
    {
      NoReturn(needs, nodes, m, i, j);
    }
    NoRepeats(nodes, needs.Keys);
  }

  lemma MeetsIsNotClean(needs: Needs, p: string)
    requires Meets(needs, p)
    ensures !Clean(needs, p)
  {
    var n: nat :| MeetsIn(needs, p, n);
    var a :| ComesTo(needs, p, a) && !Clean(needs, a.1);
    if Clean(needs, p) {
      CleanBelow(needs, p, a);
    }
  }

  // ---------- the outcome ----------

  /** What each outcome of the walk from p with a bound says. */
  ghost predicate Shown(needs: Needs, p: string, max: int, r: Outcome)
    requires max >= -1
  {
    match r
    case Noted => Clean(needs, p)
    case Missing => Meets(needs, p)
    case TooLong => GoesDown(needs, p, max + 1)
    case Unusable => false
  }

  lemma ShownNoted(needs: Needs, p: string, max: int)
    requires max >= -1
    ensures Shown(needs, p, max, Noted) <==> Clean(needs, p)
  {
  }

  /** With as many steps allowed as there are files, only one outcome can be shown. */
  lemma OneOutcome(needs: Needs, p: string, q: Outcome, r: Outcome)
    requires Shown(needs, p, |needs|, q) && Shown(needs, p, |needs|, r)
    ensures q == r
  {
    hide Clean, Meets, GoesDown;
    OutcomesApart(needs, p);
  }

  lemma OutcomesApart(needs: Needs, p: string)
    ensures !(Clean(needs, p) && Meets(needs, p))
    ensures !(Clean(needs, p) && GoesDown(needs, p, |needs| + 1))
    ensures !(Meets(needs, p) && GoesDown(needs, p, |needs| + 1))
  {
    if Meets(needs, p) {
      MeetsIsNotClean(needs, p);
    }
    if GoesDown(needs, p, |needs| + 1) {
      DownIsCycle(needs, p);
      if Clean(needs, p) {
        CleanHasNoCycle(needs, p);
      }
      if Meets(needs, p) {
        MeetsIsShort(needs, p, |needs| + 1);
      }
    }
  }

  lemma DownIsCycle(needs: Needs, p: string)
    requires GoesDown(needs, p, |needs| + 1)
    ensures CycleFrom(Edges(needs), p)
  {
    var g := Edges(needs);
    DownIsChain(needs, p, |needs| + 1);
    assert g.Keys == needs.Keys && |g| == |g.Keys|;
    ShorterChain(g, p, |needs| + 1, |g|);
    LongChainIffCycle(g, p);
  }

  /** The walk from p has settled all but the rest of its needs. */
  ghost predicate Settled(needs: Needs, p: string, rest: Libs) {
    p in needs && rest <= needs[p] && forall b | b in needs[p] - rest :: Clean(needs, b.1)
  }

  lemma SettledNone(needs: Needs, p: string)
    requires p in needs
    ensures Settled(needs, p, needs[p])
  {
  }

  lemma SettledAll(needs: Needs, p: string)
    requires Settled(needs, p, {})
    ensures Clean(needs, p)
  {
    CleanAbove(needs, p);
  }

  /** The least of the rest is the next one the walk comes to. */
  lemma NextIsFirst(needs: Needs, p: string, rest: Libs, a: (string, string))
    requires Settled(needs, p, rest) && IsLeastPair(rest, a)
    ensures ComesTo(needs, p, a)
    ensures Clean(needs, a.1) ==> Settled(needs, p, Less(rest, a))
  {
    forall b | b in needs[p] && PairBefore(b, a)
      ensures Clean(needs, b.1)
    {
      PairAsymmetric(a, b);
    }
  }

  /** What stops at one need stops the walk. */
  lemma StopsAt(needs: Needs, p: string, max: nat, a: (string, string), r: Outcome)
    requires ComesTo(needs, p, a) && r != Noted
    requires if a.1 in needs then Shown(needs, a.1, max - 1, r) else r == Missing
    ensures Shown(needs, p, max, r)
  {
    if r == Missing {
      if a.1 in needs {
        MeetsIsNotClean(needs, a.1);
        var n: nat :| MeetsIn(needs, a.1, n);
        assert MeetsIn(needs, p, n + 1);
      } else {
        assert !Clean(needs, a.1);
        assert MeetsIn(needs, p, 0);
      }
    }
  }

  lemma {:induction false} WalkShows(needs: Needs, p: string, max: int)
    requires p in needs && max >= -1
    ensures Shown(needs, p, max, Walk(needs, p, max))
    decreases max + 1, 1, 0
  {
    if max >= 0 {
      WalkOverShows(needs, p, needs[p], max);
    }
  }

  lemma {:induction false} WalkOverShows(needs: Needs, p: string, rest: Libs, max: nat)
    requires Settled(needs, p, rest)
    ensures Shown(needs, p, max, WalkOver(needs, rest, max))
    decreases max + 1, 0, |rest|
  {
    hide Clean, Meets, GoesDown, ComesTo, Settled;
    if rest == {} {
      SettledAll(needs, p);
    } else {
      var a := First(rest);
      NextIsFirst(needs, p, rest, a);
      if a.1 !in needs {
        StopsAt(needs, p, max, a, Missing);
      } else {
        WalkShows(needs, a.1, max - 1);
        var r := Walk(needs, a.1, max - 1);
        if r == Noted {
          WalkOverShows(needs, p, Less(rest, a), max);
        } else {
          StopsAt(needs, p, max, a, r);
        }
      }
    }
  }

  /** The outcome of the walk with that bound: settled if everything p leads to was scanned
      and runs in no circle; else it is missing a file if it comes to one first, and else it
      runs in a circle. */
  lemma WalkDecides(needs: Needs, p: string)
    requires p in needs
    ensures var r := Walk(needs, p, |needs|);
            && (r == Noted <==> Clean(needs, p)) && (r == Missing <==> Meets(needs, p))
            && (r == TooLong ==> CycleFrom(Edges(needs), p))
  {
    hide Clean, Meets, GoesDown;
    WalkShows(needs, p, |needs|);
    OutcomesApart(needs, p);
    if Walk(needs, p, |needs|) == TooLong {
      DownIsCycle(needs, p);
    }
  }
}
