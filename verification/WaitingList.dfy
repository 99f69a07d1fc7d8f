/** The list of threads suspended on something, oldest first. */
module WaitingList {
  type Thread = nat

  ghost predicate NoDuplicates(s: seq<Thread>) {
    forall i, j | 0 <= i < j < |s| :: s[i] != s[j]
  }

  function Remove(s: seq<Thread>, t: Thread): (r: seq<Thread>)
    ensures t !in r
    ensures forall u :: u in r <==> u in s && u != t
    ensures |r| <= |s|
  {
    if s == [] then []
    else (if s[0] == t then [] else [s[0]]) + Remove(s[1..], t)
  }

  lemma {:induction false} RemoveKeepsOrder(s: seq<Thread>, t: Thread)
    requires NoDuplicates(s)
    ensures NoDuplicates(Remove(s, t))
    ensures s != [] && s[0] != t ==> Remove(s, t) != [] && Remove(s, t)[0] == s[0]
    ensures t !in s ==> Remove(s, t) == s
  {
    if s != [] {
      assert s == [s[0]] + s[1..];
      assert s[0] !in s[1..] && NoDuplicates(s[1..]);
      RemoveKeepsOrder(s[1..], t);
      var rest := Remove(s[1..], t);
      assert s[0] !in rest;
      assert s[0] != t ==> Remove(s, t) == [s[0]] + rest;
    }
  }

  /** Only that element goes; the others keep their places. */
  lemma {:induction false} RemoveAt(before: seq<Thread>, t: Thread, after: seq<Thread>)
    requires t !in before && t !in after
    ensures Remove(before + [t] + after, t) == before + after
  {
    if before == [] {
      assert ([t] + after)[1..] == after;
      RemoveAbsent(after, t);
      assert [] + [t] + after == [t] + after && [] + after == after;
    } else {
      var s, rest := before + [t] + after, before[1..];
      assert s[1..] == rest + [t] + after;
      RemoveAt(rest, t, after);
      assert before == [before[0]] + rest;
      assert before + after == [before[0]] + (rest + after);
    }
  }

  lemma {:induction false} RemoveAbsent(s: seq<Thread>, t: Thread)
    requires t !in s
    ensures Remove(s, t) == s
  {
    if s != [] {
      RemoveAbsent(s[1..], t);
      assert s == [s[0]] + s[1..];
    }
  }

  lemma QueueAtEnd(s: seq<Thread>, t: Thread)
    requires NoDuplicates(s) && t !in s
    ensures NoDuplicates(s + [t])
    ensures forall u :: u in s + [t] <==> u in s || u == t
  {
  }

  /** One more of the elements has been looked at. */
  lemma RemoveNext(s: seq<Thread>, t: Thread, i: nat, kept: seq<Thread>)
    requires i < |s| && kept + Remove(s[i..], t) == Remove(s, t)
    ensures (if s[i] == t then kept else kept + [s[i]]) + Remove(s[i + 1..], t) == Remove(s, t)
  {
    assert s[i..][1..] == s[i + 1..];
  }

  method RemoveAll(s: seq<Thread>, t: Thread) returns (kept: seq<Thread>)
    ensures kept == Remove(s, t)
  {
    hide Remove;
    kept := [];
    assert [] + Remove(s, t) == Remove(s, t) && s[0..] == s;
    for i := 0 to |s|
      invariant kept + Remove(s[i..], t) == Remove(s, t)
    {
      RemoveNext(s, t, i, kept);
      if s[i] != t {
        kept := kept + [s[i]];
      }
    }
  }
}
