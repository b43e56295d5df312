/**
 * Python's ordering of str values and `sorted()` over a listing of file
 * names. Strings compare code point by code point, and a proper prefix comes
 * first, so "out.part10.json" sorts before "out.part2.json".
 */
module Lexicographic {

  /** Python's `a < b` on str. */
  predicate Less(a: string, b: string)
    decreases |a|
  {
    if |a| == 0 then |b| > 0
    else if |b| == 0 then false
    else if a[0] != b[0] then a[0] < b[0]
    else Less(a[1..], b[1..])
  }

  lemma {:induction false} Irreflexive(a: string)
    ensures !Less(a, a)
    decreases |a|
  {
    if |a| > 0 {
      Irreflexive(a[1..]);
    }
  }

  lemma {:induction false} Transitive(a: string, b: string, c: string)
    requires Less(a, b) && Less(b, c)
    ensures Less(a, c)
    decreases |a|
  {
    if |a| > 0 && |b| > 0 && |c| > 0 && a[0] == b[0] && b[0] == c[0] {
      Transitive(a[1..], b[1..], c[1..]);
    }
  }

  lemma {:induction false} Total(a: string, b: string)
    ensures a == b || Less(a, b) || Less(b, a)
    decreases |a|
  {
    if |a| > 0 && |b| > 0 && a[0] == b[0] {
      Total(a[1..], b[1..]);
      if a[1..] == b[1..] {
        assert a == [a[0]] + a[1..] && b == [b[0]] + b[1..];
      }
    }
  }

  lemma Asymmetric(a: string, b: string)
    requires Less(a, b)
    ensures !Less(b, a)
  {
    if Less(b, a) {
      Transitive(a, b, a);
      Irreflexive(a);
    }
  }

  /** A shared prefix does not change the comparison. */
  lemma {:induction false} CommonPrefix(p: string, a: string, b: string)
    ensures Less(p + a, p + b) == Less(a, b)
    decreases |p|
  {
    if |p| > 0 {
      assert (p + a)[0] == p[0] == (p + b)[0];
      assert (p + a)[1..] == p[1..] + a && (p + b)[1..] == p[1..] + b;
      CommonPrefix(p[1..], a, b);
    } else {
      assert p + a == a && p + b == b;
    }
  }

  /** m is the smallest element of s. */
  ghost predicate IsLeast(m: string, s: set<string>) {
    m in s && forall y :: y in s && y != m ==> Less(m, y)
  }

  lemma {:induction false} LeastExists(s: set<string>)
    requires s != {}
    ensures exists m :: IsLeast(m, s)
    decreases |s|
  {
    var x :| x in s;
    if s == {x} {
      assert IsLeast(x, s);
    } else {
      LeastExists(s - {x});
      var m :| IsLeast(m, s - {x});
      if Less(x, m) {
        forall y | y in s && y != x
          ensures Less(x, y)
        {
          if y != m {
            Transitive(x, m, y);
          }
        }
        assert IsLeast(x, s);
      } else {
        Total(x, m);
        assert IsLeast(m, s);
      }
    }
  }

  lemma LeastUnique(a: string, b: string, s: set<string>)
    requires IsLeast(a, s) && IsLeast(b, s)
    ensures a == b
  {
    if a != b {
      Asymmetric(a, b);
    }
  }

  ghost function Least(s: set<string>): (m: string)
    requires s != {}
    ensures IsLeast(m, s)
  {
    LeastExists(s);
    var m :| IsLeast(m, s); m
  }

  /** `sorted()` of a list holding every element of s once. */
  ghost function Sorted(s: set<string>): seq<string>
    decreases |s|
  {
    if s == {} then [] else [Least(s)] + Sorted(s - {Least(s)})
  }

  predicate StrictlyIncreasing(xs: seq<string>) {
    forall i, j :: 0 <= i < j < |xs| ==> Less(xs[i], xs[j])
  }

  /** The sorted listing holds each element of the set once, in increasing order. */
  lemma {:induction false} SortedListsSet(s: set<string>)
    ensures StrictlyIncreasing(Sorted(s))
    ensures forall x :: x in Sorted(s) <==> x in s
    ensures |Sorted(s)| == |s|
    decreases |s|
  {
    if s != {} {
      var m := Least(s);
      SortedListsSet(s - {m});
      var xs := Sorted(s);
      assert xs == [m] + Sorted(s - {m});
      forall i, j | 0 <= i < j < |xs|
        ensures Less(xs[i], xs[j])
      {
        if i == 0 {
          assert xs[j] in s - {m};
        } else {
          assert xs[i] == Sorted(s - {m})[i - 1] && xs[j] == Sorted(s - {m})[j - 1];
        }
      }
    }
  }

  /** A listing without repeats holds each of its elements once. */
  lemma {:induction false} DistinctCount<T>(xs: seq<T>, x: T)
    requires forall i, j :: 0 <= i < j < |xs| ==> xs[i] != xs[j]
    ensures multiset(xs)[x] == if x in xs then 1 else 0
    decreases |xs|
  {
    if xs != [] {
      var pre := xs[..|xs| - 1];
      var last := xs[|xs| - 1];
      assert xs == pre + [last];
      assert last !in pre by {
        forall i | 0 <= i < |pre|
          ensures pre[i] != last
        {
          assert pre[i] == xs[i];
        }
      }
      DistinctCount(pre, x);
    }
  }

  /** Two listings without repeats of the same elements are permutations of each other. */
  lemma ListingsPermute<T>(xs: seq<T>, ys: seq<T>)
    requires forall i, j :: 0 <= i < j < |xs| ==> xs[i] != xs[j]
    requires forall i, j :: 0 <= i < j < |ys| ==> ys[i] != ys[j]
    requires forall x :: x in xs <==> x in ys
    ensures multiset(xs) == multiset(ys)
  {
    forall x
      ensures multiset(xs)[x] == multiset(ys)[x]
    {
      DistinctCount(xs, x);
      DistinctCount(ys, x);
    }
  }

  /** A strictly increasing listing names each element once. */
  lemma IncreasingDistinct(xs: seq<string>)
    requires StrictlyIncreasing(xs)
    ensures forall i, j :: 0 <= i < j < |xs| ==> xs[i] != xs[j]
  {
    forall i, j | 0 <= i < j < |xs|
      ensures xs[i] != xs[j]
    {
      if xs[i] == xs[j] {
        Irreflexive(xs[i]);
      }
    }
  }

  /**
   * Any strictly increasing listing of a set is its sorted listing: the
   * order in which the file system happens to list names does not matter.
   */
  lemma {:induction false} SortedIsUnique(xs: seq<string>, s: set<string>)
    requires StrictlyIncreasing(xs)
    requires forall x :: x in xs <==> x in s
    ensures xs == Sorted(s)
    decreases |xs|
  {
    if xs == [] {
      assert s == {};
    } else {
      var m := xs[0];
      assert IsLeast(m, s) by {
        forall y | y in s && y != m
          ensures Less(m, y)
        {
          var j :| 0 <= j < |xs| && xs[j] == y;
        }
      }
      LeastUnique(m, Least(s), s);
      forall x
        ensures x in xs[1..] <==> x in s - {m}
      {
        if x in xs[1..] {
          var j :| 1 <= j < |xs| && xs[j] == x;
          Irreflexive(m);
        }
        if x in s - {m} {
          var j :| 0 <= j < |xs| && xs[j] == x;
          assert j != 0;
          assert x == xs[1..][j - 1];
        }
      }
      SortedIsUnique(xs[1..], s - {m});
    }
  }

  /** The smallest element of a non-empty set, found by one pass over it. */
  method LeastOf(s: set<string>) returns (m: string)
    requires s != {}
    ensures m == Least(s)
  {
    m :| m in s;
    var todo := s - {m};
    while todo != {}
      invariant m in s && m !in todo && todo <= s
      invariant forall y :: y in s - todo && y != m ==> Less(m, y)
      decreases |todo|
    {
      var y :| y in todo;
      if Less(y, m) {
        forall z | z in s - (todo - {y}) && z != y
          ensures Less(y, z)
        {
          if z != m {
            Transitive(y, m, z);
          }
        }
        m := y;
      } else {
        Total(m, y);
      }
      todo := todo - {y};
    }
    LeastUnique(m, Least(s), s);
  }

  /** Python's `sorted()` applied to a list of the names in s. */
  method SortedPaths(s: set<string>) returns (xs: seq<string>)
    ensures xs == Sorted(s)
  {
    xs := [];
    var rest := s;
    while rest != {}
      invariant rest <= s
      invariant xs + Sorted(rest) == Sorted(s)
      decreases |rest|
    {
      var m := LeastOf(rest);
      assert Sorted(rest) == [m] + Sorted(rest - {m});
      xs := xs + [m];
      rest := rest - {m};
    }
    assert xs + [] == xs;
  }
}
