/** The parts of Go's `strings`, `sort` and `fmt` packages that the resolver
    relies on: byte-wise string order, `sort.Strings`, `strings.Join` and
    the `%d` verb. Strings are sequences of code points; comparing code
    points orders valid UTF-8 text exactly as Go's byte comparison does. */
module Strings {

  /** Go's `a < b` on strings: lexicographic, a proper prefix sorts first. */
  predicate Less(a: string, b: string)
  {
    if a == [] then b != []
    else if b == [] then false
    else if a[0] != b[0] then a[0] < b[0]
    else Less(a[1..], b[1..])
  }

  lemma {:induction false} LessIrreflexive(a: string)
    ensures !Less(a, a)
  {
    if a != [] {
      LessIrreflexive(a[1..]);
    }
  }

  lemma {:induction false} LessTransitive(a: string, b: string, c: string)
    requires Less(a, b) && Less(b, c)
    ensures Less(a, c)
  {
    if a != [] && a[0] == b[0] && b[0] == c[0] {
      LessTransitive(a[1..], b[1..], c[1..]);
    }
  }

  lemma {:induction false} LessTotal(a: string, b: string)
    ensures a == b || Less(a, b) || Less(b, a)
  {
    if a != [] && b != [] && a[0] == b[0] {
      LessTotal(a[1..], b[1..]);
      if a[1..] == b[1..] {
        assert a == [a[0]] + a[1..] && b == [b[0]] + b[1..];
      }
    }
  }

  /** `!(b < a)` is transitive as well. */
  lemma NotLessTransitive(a: string, b: string, c: string)
    requires !Less(b, a) && !Less(c, b)
    ensures !Less(c, a)
  {
    if Less(c, a) {
      LessTotal(a, b);
      if Less(a, b) {
        LessTransitive(c, a, b);
      }
    }
  }

  /** Ascending in Go's sense: no later element is smaller than an earlier one. */
  ghost predicate Sorted(s: seq<string>)
  {
    forall i, j :: 0 <= i < j < |s| ==> !Less(s[j], s[i])
  }

  ghost predicate StrictlySorted(s: seq<string>)
  {
    forall i, j :: 0 <= i < j < |s| ==> Less(s[i], s[j])
  }

  ghost predicate NoDuplicates<T>(s: seq<T>)
  {
    forall i, j :: 0 <= i < j < |s| ==> s[i] != s[j]
  }

  /** Inserts `x` into the ascending sequence `s` before the first element
      that is not smaller than `x`. */
  function InsertSorted(x: string, s: seq<string>): (r: seq<string>)
    requires Sorted(s)
    ensures Sorted(r)
    ensures multiset(r) == multiset(s) + multiset{x}
  {
    if s == [] then [x]
    else if !Less(s[0], x) then
      SmallerHeadSorted(x, s);
      [x] + s
    else
      var t := InsertSorted(x, s[1..]);
      InsertBehindHead(x, s, t);
      [s[0]] + t
  }

  lemma SmallerHeadSorted(x: string, s: seq<string>)
    requires Sorted(s) && s != [] && !Less(s[0], x)
    ensures Sorted([x] + s)
  {
    forall i, j | 0 <= i < j < |s| + 1
      ensures !Less(([x] + s)[j], ([x] + s)[i])
    {
      if i == 0 {
        if j == 1 {
          assert ([x] + s)[j] == s[0];
        } else {
          NotLessTransitive(x, s[0], s[j - 1]);
        }
      } else {
        assert ([x] + s)[i] == s[i - 1] && ([x] + s)[j] == s[j - 1];
      }
    }
  }

  lemma InsertBehindHead(x: string, s: seq<string>, t: seq<string>)
    requires Sorted(s) && s != [] && Less(s[0], x)
    requires Sorted(t) && multiset(t) == multiset(s[1..]) + multiset{x}
    ensures Sorted([s[0]] + t)
    ensures multiset([s[0]] + t) == multiset(s) + multiset{x}
  {
    assert s == [s[0]] + s[1..];
    forall j | 0 <= j < |t|
      ensures !Less(t[j], s[0])
    {
      assert t[j] in multiset(t);
      if t[j] == x {
        if Less(x, s[0]) {
          LessTransitive(s[0], x, s[0]);
          LessIrreflexive(s[0]);
        }
      } else {
        assert t[j] in multiset(s[1..]);
        var k :| 0 <= k < |s[1..]| && s[1..][k] == t[j];
        assert s[k + 1] == t[j];
      }
    }
    forall i, j | 0 <= i < j < |t| + 1
      ensures !Less(([s[0]] + t)[j], ([s[0]] + t)[i])
    {
      assert ([s[0]] + t)[j] == t[j - 1];
      if i > 0 {
        assert ([s[0]] + t)[i] == t[i - 1];
      }
    }
  }

  /** `sort.Strings`: an ascending permutation of its input. */
  function SortStrings(s: seq<string>): (r: seq<string>)
    ensures Sorted(r)
    ensures multiset(r) == multiset(s)
  {
    if s == [] then []
    else
      assert s == [s[0]] + s[1..];
      InsertSorted(s[0], SortStrings(s[1..]))
  }

  lemma {:induction false} LeastExists(s: set<string>)
    requires s != {}
    ensures exists m :: m in s && forall x :: x in s ==> !Less(x, m)
  {
    var y :| y in s;
    if s == {y} {
      LessIrreflexive(y);
    } else {
      LeastExists(s - {y});
      var m :| m in s - {y} && forall x :: x in s - {y} ==> !Less(x, m);
      if Less(y, m) {
        forall x | x in s
          ensures !Less(x, y)
        {
          if x == y {
            LessIrreflexive(y);
          } else if Less(x, y) {
            LessTransitive(x, y, m);
          }
        }
      } else {
        assert forall x :: x in s ==> !Less(x, m);
      }
    }
  }

  /** The smallest element of a non-empty set. */
  ghost function Least(s: set<string>): (m: string)
    requires s != {}
    ensures m in s
    ensures forall x :: x in s ==> !Less(x, m)
  {
    LeastExists(s);
    var m :| m in s && forall x :: x in s ==> !Less(x, m);
    m
  }

  /** The elements of `s` in strictly ascending order. */
  ghost function SortedSet(s: set<string>): (r: seq<string>)
    ensures StrictlySorted(r)
    ensures |r| == |s|
    ensures forall x :: x in r <==> x in s
    decreases |s|
  {
    if s == {} then []
    else
      var m := Least(s);
      var t := SortedSet(s - {m});
      LeastBelowRest(s, m, t);
      [m] + t
  }

  lemma LeastBelowRest(s: set<string>, m: string, t: seq<string>)
    requires m in s && forall x :: x in s ==> !Less(x, m)
    requires StrictlySorted(t) && forall x :: x in t <==> x in s - {m}
    ensures StrictlySorted([m] + t)
  {
    forall j | 0 <= j < |t|
      ensures Less(m, t[j])
    {
      assert t[j] in t;
      LessTotal(m, t[j]);
    }
    forall i, j | 0 <= i < j < |t| + 1
      ensures Less(([m] + t)[i], ([m] + t)[j])
    {
      if i > 0 {
        assert ([m] + t)[i] == t[i - 1];
      }
      assert ([m] + t)[j] == t[j - 1];
    }
  }

  /** A strictly ascending sequence is determined by its elements. */
  lemma {:induction false} StrictlySortedUnique(a: seq<string>, b: seq<string>)
    requires StrictlySorted(a) && StrictlySorted(b)
    requires forall x :: x in a <==> x in b
    ensures a == b
  {
    if a == [] {
      assert forall i :: 0 <= i < |b| ==> b[i] in a;
    } else {
      assert a[0] in b;
      assert b != [];
      assert b[0] in a;
      if a[0] != b[0] {
        var i :| 0 <= i < |a| && a[i] == b[0];
        var j :| 0 <= j < |b| && b[j] == a[0];
        LessTransitive(a[0], b[0], a[0]);
        LessIrreflexive(a[0]);
      }
      forall x
        ensures x in a[1..] <==> x in b[1..]
      {
        if x in a[1..] {
          var i :| 1 <= i < |a| && a[i] == x;
          LessIrreflexive(a[0]);
          assert x in b;
        }
        if x in b[1..] {
          var j :| 1 <= j < |b| && b[j] == x;
          LessIrreflexive(b[0]);
          assert x in a;
        }
      }
      StrictlySortedUnique(a[1..], b[1..]);
      assert a == [a[0]] + a[1..] && b == [b[0]] + b[1..];
    }
  }

  lemma {:induction false} NoDuplicatesCount<T>(s: seq<T>)
    requires NoDuplicates(s)
    ensures forall x :: multiset(s)[x] <= 1
  {
    if s != [] {
      assert s == [s[0]] + s[1..];
      NoDuplicatesCount(s[1..]);
      assert s[0] !in s[1..];
    }
  }

  lemma CountNoDuplicates<T>(s: seq<T>)
    requires forall x :: multiset(s)[x] <= 1
    ensures NoDuplicates(s)
  {
    forall i, j | 0 <= i < j < |s|
      ensures s[i] != s[j]
    {
      var x := s[i];
      assert s == s[..j] + s[j..];
      assert multiset(s) == multiset(s[..j]) + multiset(s[j..]);
      assert s[..j][i] == x && s[j..][0] == s[j];
      assert multiset(s[..j])[x] >= 1;
      assert multiset(s)[x] <= 1;
      assert multiset(s)[x] == multiset(s[..j])[x] + multiset(s[j..])[x];
      assert multiset(s[j..])[x] == 0;
      assert s[j] in multiset(s[j..]);
    }
  }

  /** Sorting a sequence without duplicates yields the sorted set of its
      elements, however the input was ordered. */
  lemma SortedSetSingleton(x: string)
    ensures SortedSet({x}) == [x]
  {
    var r := SortedSet({x});
    assert r[0] in {x};
  }

  lemma SortedSetPair(a: string, b: string)
    requires Less(a, b)
    ensures SortedSet({a, b}) == [a, b]
  {
    LessIrreflexive(a);
    StrictlySortedUnique([a, b], SortedSet({a, b}));
  }

  lemma SortDistinct(ks: seq<string>, s: set<string>)
    requires NoDuplicates(ks)
    requires forall x :: x in ks <==> x in s
    ensures SortStrings(ks) == SortedSet(s)
  {
    var r := SortStrings(ks);
    NoDuplicatesCount(ks);
    CountNoDuplicates(r);
    forall i, j | 0 <= i < j < |r|
      ensures Less(r[i], r[j])
    {
      LessTotal(r[i], r[j]);
    }
    forall x
      ensures x in r <==> x in s
    {
      assert x in r <==> x in multiset(r);
      assert x in ks <==> x in multiset(ks);
    }
    StrictlySortedUnique(r, SortedSet(s));
  }

  /** `strings.Join`. */
  function Join(parts: seq<string>, sep: string): string
  {
    if parts == [] then ""
    else if |parts| == 1 then parts[0]
    else parts[0] + sep + Join(parts[1..], sep)
  }

  /** The decimal digits of `n`, most significant first (`fmt`'s `%d`). */
  function FormatNat(n: nat): (s: string)
    ensures |s| >= 1
    ensures forall i :: 0 <= i < |s| ==> '0' <= s[i] <= '9'
  {
    if n < 10 then [Digit(n)] else FormatNat(n / 10) + [Digit(n % 10)]
  }

  function Digit(d: nat): (c: char)
    requires d < 10
    ensures '0' <= c <= '9'
  {
    "0123456789"[d]
  }

  /** `fmt.Sprintf("%d", i)`: a minus sign before the digits of a negative number. */
  function FormatInt(i: int): string
  {
    if i < 0 then "-" + FormatNat(-i) else FormatNat(i)
  }

  /** Reads back a string of decimal digits. */
  function ParseNat(s: string): nat
    requires |s| >= 1
    requires forall i :: 0 <= i < |s| ==> '0' <= s[i] <= '9'
  {
    var d := (s[|s| - 1] as int) - ('0' as int);
    if |s| == 1 then d else ParseNat(s[..|s| - 1]) * 10 + d
  }

  lemma {:induction false} ParseFormat(n: nat)
    ensures ParseNat(FormatNat(n)) == n
  {
    if n >= 10 {
      var s := FormatNat(n);
      assert s[..|s| - 1] == FormatNat(n / 10);
      ParseFormat(n / 10);
    }
  }

  /** Distinct numbers print differently. */
  lemma FormatNatInjective(a: nat, b: nat)
    requires FormatNat(a) == FormatNat(b)
    ensures a == b
  {
    ParseFormat(a);
    ParseFormat(b);
  }
}
