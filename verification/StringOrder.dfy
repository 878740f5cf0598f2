/** The order of strings, and sorting by name. */
module StringOrder {

  /** `a` comes before `b`, code point by code point (the order of their UTF-8 bytes). */
  predicate Before(a: string, b: string) {
    if b == [] then false
    else if a == [] then true
    else a[0] < b[0] || (a[0] == b[0] && Before(a[1..], b[1..]))
  }

  lemma {:induction false} BeforeIsStrict(a: string, b: string)
    ensures Before(a, b) ==> a != b && !Before(b, a)
    ensures a != b ==> Before(a, b) || Before(b, a)
    decreases |a|
  {
    if a != [] && b != [] {
      BeforeIsStrict(a[1..], b[1..]);
      assert a == [a[0]] + a[1..] && b == [b[0]] + b[1..];
    }
  }

  lemma {:induction false} BeforeIsTransitive(a: string, b: string, c: string)
    requires Before(a, b) && Before(b, c)
    ensures Before(a, c)
    decreases |a|
  {
    if a != [] && a[0] == b[0] == c[0] {
      BeforeIsTransitive(a[1..], b[1..], c[1..]);
    }
  }

  predicate SortedByName<T>(s: seq<(string, T)>) {
    forall i, k | 0 <= i < k < |s| :: Before(s[i].0, s[k].0)
  }

  predicate DistinctNames<T>(s: seq<(string, T)>) {
    forall i, k | 0 <= i < k < |s| :: s[i].0 != s[k].0
  }

  function InsertByName<T>(x: (string, T), s: seq<(string, T)>): (r: seq<(string, T)>)
    ensures multiset(r) == multiset{x} + multiset(s)
  {
    if s == [] || Before(x.0, s[0].0) then [x] + s
    else
      assert s == [s[0]] + s[1..];
      [s[0]] + InsertByName(x, s[1..])
  }

  function SortByName<T>(s: seq<(string, T)>): (r: seq<(string, T)>)
    ensures multiset(r) == multiset(s)
  {
    if s == [] then []
    else
      assert s == [s[0]] + s[1..];
      InsertByName(s[0], SortByName(s[1..]))
  }

  lemma {:induction false} InsertKeepsSorted<T>(x: (string, T), s: seq<(string, T)>)
    requires SortedByName(s) && forall y :: y in s ==> y.0 != x.0
    ensures SortedByName(InsertByName(x, s))
    decreases |s|
  {
    if s != [] {
      BeforeIsStrict(x.0, s[0].0);
      if Before(x.0, s[0].0) {
        forall k | 1 <= k < |s| ensures Before(x.0, s[k].0) {
          BeforeIsTransitive(x.0, s[0].0, s[k].0);
        }
      } else {
        var r := InsertByName(x, s[1..]);
        InsertKeepsSorted(x, s[1..]);
        forall k | 0 <= k < |r| ensures Before(s[0].0, r[k].0) {
          assert r[k] in multiset(r);
        }
      }
    }
  }

  lemma {:induction false} SortIsSorted<T>(s: seq<(string, T)>)
    requires DistinctNames(s)
    ensures SortedByName(SortByName(s))
    decreases |s|
  {
    if s != [] {
      SortIsSorted(s[1..]);
      var r := SortByName(s[1..]);
      forall y | y in r ensures y.0 != s[0].0 {
        assert y in multiset(r) && y in s[1..];
      }
      InsertKeepsSorted(s[0], r);
    }
  }

  /** A sorted listing is determined by what it lists. */
  lemma {:induction false} SortedIsUnique<T>(s: seq<(string, T)>, t: seq<(string, T)>)
    requires SortedByName(s) && SortedByName(t)
    requires forall x :: x in s <==> x in t
    ensures s == t
    decreases |s|
  {
    assert s != [] ==> s[0] in t;
    assert t != [] ==> t[0] in s;
    if s != [] && t != [] {
      var i :| 0 <= i < |t| && t[i] == s[0];
      var k :| 0 <= k < |s| && s[k] == t[0];
      BeforeIsStrict(s[0].0, t[0].0);
      assert s[0] == t[0];
      forall x ensures x in s[1..] <==> x in t[1..] {
        if x in s[1..] {
          var n :| 1 <= n < |s| && s[n] == x;
          assert Before(s[0].0, s[n].0);
          BeforeIsStrict(s[0].0, s[n].0);
          assert x in t && x != t[0];
        }
        if x in t[1..] {
          var n :| 1 <= n < |t| && t[n] == x;
          assert Before(t[0].0, t[n].0);
          BeforeIsStrict(t[0].0, t[n].0);
          assert x in s && x != s[0];
        }
      }
      SortedIsUnique(s[1..], t[1..]);
      assert s == [s[0]] + s[1..] && t == [t[0]] + t[1..];
    }
  }
}
