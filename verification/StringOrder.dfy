/** Strings in the order that sets and maps of them are walked in. */
module StringOrder {
  predicate Before(a: string, b: string) {
    b != [] && (a == [] || a[0] < b[0] || (a[0] == b[0] && Before(a[1..], b[1..])))
  }

  /** The two strings agree up to k, where the first ends or has the smaller character. */
  ghost predicate DifferAt(a: string, b: string, k: nat) {
    && k <= |a| && k < |b| && (forall i | 0 <= i < k :: a[i] == b[i])
    && (k < |a| ==> a[k] < b[k])
  }

  /** The order is that of dictionaries. */
  lemma {:induction false} BeforeMeans(a: string, b: string)
    ensures Before(a, b) <==> exists k: nat :: DifferAt(a, b, k)
  {
    if a == [] || b == [] || a[0] != b[0] {
      if Before(a, b) {
        assert DifferAt(a, b, 0);
      }
      forall k: nat | k > 0
        ensures !DifferAt(a, b, k)
      {
        assert a != [] && b != [] ==> a[0] != b[0];
      }
    } else {
      var c, d := a[1..], b[1..];
      BeforeMeans(c, d);
      if k: nat :| DifferAt(c, d, k) {
        forall i | 0 <= i < k + 1
          ensures a[i] == b[i]
        {
          assert i > 0 ==> c[i - 1] == d[i - 1];
        }
        assert DifferAt(a, b, k + 1);
      }
      if k: nat :| DifferAt(a, b, k) {
        forall i | 0 <= i < k - 1
          ensures c[i] == d[i]
        {
          assert a[i + 1] == b[i + 1];
        }
        assert DifferAt(c, d, k - 1);
      }
    }
  }

  lemma {:induction false} Total(a: string, b: string)
    ensures Before(a, b) || a == b || Before(b, a)
  {
    if a != [] && b != [] && a[0] == b[0] {
      Total(a[1..], b[1..]);
      assert a == [a[0]] + a[1..] && b == [b[0]] + b[1..];
    }
  }

  lemma {:induction false} Transitive(a: string, b: string, c: string)
    requires Before(a, b) && Before(b, c)
    ensures Before(a, c)
  {
    if a != [] && a[0] == b[0] && b[0] == c[0] {
      Transitive(a[1..], b[1..], c[1..]);
    }
  }

  lemma {:induction false} Irreflexive(a: string)
    ensures !Before(a, a)
  {
    if a != [] {
      Irreflexive(a[1..]);
    }
  }

  predicate PairBefore(p: (string, string), q: (string, string)) {
    Before(p.0, q.0) || (p.0 == q.0 && Before(p.1, q.1))
  }

  /** By the first strings, and by the second ones only where those are equal. */
  lemma PairBeforeMeans(p: (string, string), q: (string, string))
    ensures p.0 != q.0 ==> (PairBefore(p, q) <==> Before(p.0, q.0))
    ensures p.0 == q.0 ==> (PairBefore(p, q) <==> Before(p.1, q.1))
  {
    Irreflexive(p.0);
  }

  lemma PairTotal(p: (string, string), q: (string, string))
    ensures PairBefore(p, q) || p == q || PairBefore(q, p)
  {
    Total(p.0, q.0);
    Total(p.1, q.1);
  }

  lemma PairAsymmetric(p: (string, string), q: (string, string))
    ensures !(PairBefore(p, q) && PairBefore(q, p))
  {
    Asymmetric(p.0, q.0);
    Asymmetric(p.1, q.1);
  }

  lemma Asymmetric(a: string, b: string)
    ensures !(Before(a, b) && Before(b, a))
  {
    if Before(a, b) && Before(b, a) {
      Transitive(a, b, a);
      Irreflexive(a);
    }
    Irreflexive(a);
  }

  predicate IsLeast(s: set<string>, m: string) {
    m in s && forall q | q in s && q != m :: Before(m, q)
  }

  predicate IsLeastPair(s: set<(string, string)>, m: (string, string)) {
    m in s && forall q | q in s && q != m :: PairBefore(m, q)
  }

  lemma LeastExists(s: set<string>)
    requires s != {}
    ensures exists m :: IsLeast(s, m)
  {
    var x :| x in s;
    if s == {x} {
      assert IsLeast(s, x);
    } else {
      LeastExists(s - {x});
      var y :| IsLeast(s - {x}, y);
      Total(x, y);
      if Before(x, y) {
        forall q | q in s && q != x && q != y
          ensures Before(x, q)
        {
          Transitive(x, y, q);
        }
        assert IsLeast(s, x);
      } else {
        assert IsLeast(s, y);
      }
    }
  }

  lemma LeastPairExists(s: set<(string, string)>)
    requires s != {}
    ensures exists m :: IsLeastPair(s, m)
  {
    var firsts := set p | p in s :: p.0;
    var p0 :| p0 in s;
    assert p0.0 in firsts;
    LeastExists(firsts);
    var a :| IsLeast(firsts, a);
    var seconds := set p | p in s && p.0 == a :: p.1;
    var p1 :| p1 in s && p1.0 == a;
    assert p1.1 in seconds;
    LeastExists(seconds);
    var b :| IsLeast(seconds, b);
    forall q | q in s && q != (a, b)
      ensures PairBefore((a, b), q)
    {
      assert q.0 in firsts;
      if q.0 == a {
        assert q.1 in seconds;
      }
    }
    assert IsLeastPair(s, (a, b));
  }

  lemma OneLeastPair(s: set<(string, string)>)
    requires s != {}
    ensures exists m :: m in s && IsLeastPair(s, m)
    ensures forall m, n | IsLeastPair(s, m) && IsLeastPair(s, n) :: m == n
  {
    LeastPairExists(s);
    var l :| IsLeastPair(s, l);
    forall m, n | IsLeastPair(s, m) && IsLeastPair(s, n)
      ensures m == n
    {
      PairAsymmetric(m, n);
    }
  }
}
