/** Chains in a finite graph of files, and the depth of a file. */
module Chains {
  type Graph = map<string, set<string>>

  ghost predicate Closed(g: Graph) {
    forall p | p in g :: g[p] <= g.Keys
  }

  /** A chain of n dependencies starts at p. */
  ghost predicate HasChain(g: Graph, p: string, n: nat)
    decreases n
  {
    p in g && (n == 0 || exists q :: q in g[p] && HasChain(g, q, n - 1))
  }

  /** The longest chain of dependencies from p has d steps. */
  ghost predicate Longest(g: Graph, p: string, d: nat) {
    HasChain(g, p, d) && !HasChain(g, p, d + 1)
  }

  ghost predicate IsPath(g: Graph, nodes: seq<string>) {
    && nodes != [] && (forall i | 0 <= i < |nodes| :: nodes[i] in g)
    && forall i | 0 <= i < |nodes| - 1 :: nodes[i + 1] in g[nodes[i]]
  }

  /** Some file that `root` leads to depends, in the end, on itself. */
  ghost predicate CycleFrom(g: Graph, root: string) {
    exists nodes, i, j :: IsPath(g, nodes) && nodes[0] == root && 0 <= i < j < |nodes| && nodes[i] == nodes[j]
  }

  lemma {:induction false} ShorterChain(g: Graph, p: string, n: nat, m: nat)
    requires HasChain(g, p, n) && m <= n
    ensures HasChain(g, p, m)
    decreases n
  {
    if m > 0 {
      var q :| q in g[p] && HasChain(g, q, n - 1);
      ShorterChain(g, q, n - 1, m - 1);
    }
  }

  lemma LongestUnique(g: Graph, p: string, d: nat, e: nat)
    requires Longest(g, p, d) && Longest(g, p, e)
    ensures d == e
  {
    if d < e {
      ShorterChain(g, p, e, d + 1);
    } else if e < d {
      ShorterChain(g, p, d, e + 1);
    }
  }

  /** A dependency lies strictly less deep. */
  lemma DependencyIsShallower(g: Graph, p: string, q: string, d: nat, e: nat)
    requires Longest(g, p, d) && Longest(g, q, e) && q in g[p]
    ensures e < d
  {
    if e >= d {
      ShorterChain(g, q, e, d);
    }
  }

  lemma {:induction false} ChainPath(g: Graph, p: string, n: nat) returns (nodes: seq<string>)
    requires HasChain(g, p, n)
    ensures IsPath(g, nodes) && nodes[0] == p && |nodes| == n + 1
    decreases n
  {
    if n == 0 {
      nodes := [p];
    } else {
      var q :| q in g[p] && HasChain(g, q, n - 1);
      var rest := ChainPath(g, q, n - 1);
      nodes := [p] + rest;
    }
  }

  lemma {:induction false} PathChain(g: Graph, nodes: seq<string>, n: nat)
    requires IsPath(g, nodes) && HasChain(g, nodes[|nodes| - 1], n)
    ensures HasChain(g, nodes[0], |nodes| - 1 + n)
  {
    if |nodes| > 1 {
      PathChain(g, nodes[1..], n);
      assert nodes[1..][|nodes| - 2] == nodes[|nodes| - 1];
      assert nodes[1] in g[nodes[0]];
    }
  }

  lemma {:induction false} NoRepeats(nodes: seq<string>, keys: set<string>)
    requires forall i | 0 <= i < |nodes| :: nodes[i] in keys
    requires forall i, j | 0 <= i < j < |nodes| :: nodes[i] != nodes[j]
    ensures |nodes| <= |keys|
  {
    if nodes != [] {
      NoRepeats(nodes[1..], keys - {nodes[0]});
    }
  }

  lemma {:induction false} LoopChain(g: Graph, loop: seq<string>, n: nat)
    requires IsPath(g, loop) && |loop| > 1 && loop[0] == loop[|loop| - 1]
    ensures HasChain(g, loop[0], n)
  {
    if n >= |loop| - 1 {
      LoopChain(g, loop, n - (|loop| - 1));
      PathChain(g, loop, n - (|loop| - 1));
    } else {
      PathChain(g, loop, 0);
      ShorterChain(g, loop[0], |loop| - 1, n);
    }
  }

  /** A chain with as many steps as there are files runs in a circle, and a circle can be
      followed for ever: the bound on the recursion is a test for cycles. */
  lemma LongChainIffCycle(g: Graph, root: string)
    ensures HasChain(g, root, |g|) <==> CycleFrom(g, root)
    ensures CycleFrom(g, root) ==> forall n: nat :: HasChain(g, root, n)
  {
    if HasChain(g, root, |g|) {
      var nodes := ChainPath(g, root, |g|);
      if forall i, j | 0 <= i < j < |nodes| :: nodes[i] != nodes[j] {
        NoRepeats(nodes, g.Keys);
      }
    }
    if CycleFrom(g, root) {
      var nodes, i, j :| IsPath(g, nodes) && nodes[0] == root && 0 <= i < j < |nodes| && nodes[i] == nodes[j];
      forall n: nat
        ensures HasChain(g, root, n)
      {
        LoopChain(g, nodes[i..j + 1], n);
        PathChain(g, nodes[..i + 1], n);
        ShorterChain(g, root, i + n, n);
      }
    }
  }

  lemma NoCycleIffLongest(g: Graph, root: string)
    requires root in g
    ensures !CycleFrom(g, root) <==> exists d: nat :: Longest(g, root, d)
  {
    LongChainIffCycle(g, root);
    if !CycleFrom(g, root) {
      FirstMissing(g, root, |g|);
    }
  }

  lemma {:induction false} FirstMissing(g: Graph, p: string, n: nat)
    requires HasChain(g, p, 0) && !HasChain(g, p, n)
    ensures exists d: nat :: Longest(g, p, d)
  {
    if HasChain(g, p, n - 1) {
      assert Longest(g, p, n - 1);
    } else {
      FirstMissing(g, p, n - 1);
    }
  }

  lemma LongestLeaf(g: Graph, p: string)
    requires p in g && g[p] == {}
    ensures Longest(g, p, 0)
  {
  }

  /** One step more than the deepest dependency. */
  lemma LongestStep(g: Graph, p: string, depths: map<string, nat>, reach: nat)
    requires p in g && depths.Keys == g[p]
    requires forall q | q in g[p] :: Longest(g, q, depths[q]) && depths[q] < reach
    requires exists q :: q in g[p] && depths[q] + 1 == reach
    ensures Longest(g, p, reach)
  {
    if HasChain(g, p, reach + 1) {
      var q :| q in g[p] && HasChain(g, q, reach);
      ShorterChain(g, q, reach, depths[q] + 1);
    }
  }
}
