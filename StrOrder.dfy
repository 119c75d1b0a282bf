/**
  The ordering Python uses for `str` values (code point by code point, a
  proper prefix first), and `sorted(set(...) | set(...))` over entry names.
 */
module StrOrder {

  /** Python's `a < b` on strings. */
  predicate Below(a: string, b: string)
  {
    if |a| == 0 then |b| > 0
    else if |b| == 0 then false
    else a[0] < b[0] || (a[0] == b[0] && Below(a[1..], b[1..]))
  }

  lemma {:induction false} BelowIrreflexive(a: string)
    ensures !Below(a, a)
  {
    if |a| > 0 {
      BelowIrreflexive(a[1..]);
    }
  }

  lemma {:induction false} BelowTransitive(a: string, b: string, c: string)
    requires Below(a, b) && Below(b, c)
    ensures Below(a, c)
  {
    if |a| > 0 && a[0] == b[0] && b[0] == c[0] {
      BelowTransitive(a[1..], b[1..], c[1..]);
    }
  }

  lemma {:induction false} BelowTotal(a: string, b: string)
    ensures a == b || Below(a, b) || Below(b, a)
  {
    if |a| > 0 && |b| > 0 && a[0] == b[0] {
      BelowTotal(a[1..], b[1..]);
      if a[1..] == b[1..] {
        assert a == [a[0]] + a[1..] && b == [b[0]] + b[1..];
      }
    }
  }

  lemma BelowAsymmetric(a: string, b: string)
    requires Below(a, b)
    ensures !Below(b, a) && a != b
  {
    BelowIrreflexive(a);
    if Below(b, a) {
      BelowTransitive(a, b, a);
    }
  }

  /** Strictly ascending, hence also free of duplicates. */
  predicate StrictlyAscending(s: seq<string>)
  {
    forall i, j :: 0 <= i < j < |s| ==> Below(s[i], s[j])
  }

  ghost predicate IsLeast(m: string, s: set<string>)
  {
    m in s && forall x :: x in s && x != m ==> Below(m, x)
  }

  lemma {:induction false} LeastExists(s: set<string>)
    requires s != {}
    ensures exists m :: IsLeast(m, s)
    decreases |s|
  {
    var x :| x in s;
    if s - {x} == {} {
      assert s == {x};
      assert IsLeast(x, s);
    } else {
      LeastExists(s - {x});
      var m :| IsLeast(m, s - {x});
      BelowTotal(m, x);
      if Below(x, m) {
        forall y | y in s && y != x
          ensures Below(x, y)
        {
          if y != m {
            BelowTransitive(x, m, y);
          }
        }
        assert IsLeast(x, s);
      } else {
        assert IsLeast(m, s);
      }
    }
  }

  lemma LeastUnique(m: string, n: string, s: set<string>)
    requires IsLeast(m, s) && IsLeast(n, s)
    ensures m == n
  {
    if m != n {
      BelowAsymmetric(m, n);
    }
  }

  /** The names of `s` in ascending order: what `sorted(s)` returns. */
  ghost function SortedKeys(s: set<string>): seq<string>
    decreases |s|
  {
    if s == {} then []
    else
      LeastExists(s);
      var m :| IsLeast(m, s);
      [m] + SortedKeys(s - {m})
  }

  /** The first name `sorted` yields is the least, followed by the others in order. */
  lemma SortedKeysHead(s: set<string>)
    requires s != {}
    ensures var r := SortedKeys(s);
      |r| > 0 && IsLeast(r[0], s) && r[1..] == SortedKeys(s - {r[0]})
  {
  }

  /** `sorted` yields every name of the set and nothing else, once each. */
  lemma {:induction false} SortedKeysMembers(s: set<string>)
    ensures |SortedKeys(s)| == |s|
    ensures forall x :: x in SortedKeys(s) <==> x in s
    decreases |s|
  {
    if s != {} {
      var r := SortedKeys(s);
      SortedKeysHead(s);
      SortedKeysMembers(s - {r[0]});
      assert r == [r[0]] + r[1..];
    }
  }

  /** Taking the least name first and sorting the rest gives the sorted names. */
  lemma SortedKeysLeastFirst(s: set<string>, m: string)
    requires IsLeast(m, s)
    ensures SortedKeys(s) == [m] + SortedKeys(s - {m})
  {
    var r := SortedKeys(s);
    SortedKeysHead(s);
    LeastUnique(m, r[0], s);
    assert r == [r[0]] + r[1..];
  }

  /** `sorted` yields the names in strictly ascending order. */
  lemma {:induction false} SortedKeysAscending(s: set<string>)
    ensures StrictlyAscending(SortedKeys(s))
    decreases |s|
  {
    if s != {} {
      var r := SortedKeys(s);
      SortedKeysHead(s);
      var rest := SortedKeys(s - {r[0]});
      SortedKeysAscending(s - {r[0]});
      SortedKeysMembers(s - {r[0]});
      forall i, j | 0 <= i < j < |r| ensures Below(r[i], r[j]) {
        assert r[j] == rest[j - 1];
        if i == 0 {
          assert r[j] in s - {r[0]};
        } else {
          assert r[i] == rest[i - 1];
        }
      }
    }
  }

  /** A strictly ascending enumeration of a set is unique. */
  lemma {:induction false} AscendingEnumerationUnique(a: seq<string>, b: seq<string>)
    requires StrictlyAscending(a) && StrictlyAscending(b)
    requires |a| == |b| && forall x :: x in a <==> x in b
    ensures a == b
  {
    if |a| > 0 {
      assert a[0] in b;
      var k :| 0 <= k < |b| && b[k] == a[0];
      assert b[0] in a;
      var j :| 0 <= j < |a| && a[j] == b[0];
      if a[0] != b[0] {
        BelowAsymmetric(a[0], a[j]);
        assert false;
      }
      forall x
        ensures x in a[1..] <==> x in b[1..]
      {
        if x in a[1..] {
          var i :| 1 <= i < |a| && a[i] == x;
          BelowAsymmetric(a[0], a[i]);
          assert x in b;
        }
        if x in b[1..] {
          var i :| 1 <= i < |b| && b[i] == x;
          BelowAsymmetric(b[0], b[i]);
          assert x in a;
        }
      }
      AscendingEnumerationUnique(a[1..], b[1..]);
      assert a == [a[0]] + a[1..] && b == [b[0]] + b[1..];
    }
  }

  /** Two names come out of `sorted` in their order. */
  lemma SortedPair(a: string, b: string)
    requires Below(a, b)
    ensures SortedKeys({a, b}) == [a, b]
  {
    BelowAsymmetric(a, b);
    SortedKeysAscending({a, b});
    SortedKeysMembers({a, b});
    AscendingEnumerationUnique(SortedKeys({a, b}), [a, b]);
  }

  /** Finds the least name of a non-empty set by one pass over it. */
  method Least(s: set<string>) returns (m: string)
    requires s != {}
    ensures IsLeast(m, s)
  {
    m :| m in s;
    var rest := s - {m};
    while rest != {}
      invariant rest <= s && m in s && m !in rest
      invariant forall x :: x in s - rest && x != m ==> Below(m, x)
      decreases rest
    {
      var x :| x in rest;
      BelowTotal(x, m);
      if Below(x, m) {
        forall y | y in s - rest && y != x
          ensures Below(x, y)
        {
          if y != m {
            BelowTransitive(x, m, y);
          }
        }
        m := x;
      }
      rest := rest - {x};
    }
  }

  /** `sorted(set(keys1) | set(keys2))`: the union of both key sets in ascending order. */
  method SortedUnion(keys1: set<string>, keys2: set<string>) returns (names: seq<string>)
    ensures names == SortedKeys(keys1 + keys2)
  {
    var remaining := keys1 + keys2;
    names := [];
    while remaining != {}
      invariant names + SortedKeys(remaining) == SortedKeys(keys1 + keys2)
      decreases |remaining|
    {
      var m := Least(remaining);
      SortedKeysLeastFirst(remaining, m);
      names := names + [m];
      remaining := remaining - {m};
    }
  }
}
