/** Python's ordering of strings (code point by code point, a proper prefix
    first) and `sorted(set(xs))`, the form every data-group artifact is
    written in. */
module Ordering {

  /** `a < b` on Python strings. */
  predicate Less(a: string, b: string)
    decreases |a|
  {
    if a == [] then b != []
    else if b == [] then false
    else if a[0] != b[0] then a[0] < b[0]
    else Less(a[1..], b[1..])
  }

  lemma {:induction false} LessIrreflexive(a: string)
    ensures !Less(a, a)
  {
    if a != [] {
      LessIrreflexive(a[1..]);
    }
  }

  lemma {:induction false} LessTransitive(a: string, b: string, c: string)
    requires Less(a, b) && Less(b, c)
    ensures Less(a, c)
    decreases |a|
  {
    if a != [] && b != [] && c != [] && a[0] == b[0] && b[0] == c[0] {
      LessTransitive(a[1..], b[1..], c[1..]);
    }
  }

  lemma {:induction false} LessTotal(a: string, b: string)
    requires a != b
    ensures Less(a, b) || Less(b, a)
    decreases |a|
  {
    if a != [] && b != [] && a[0] == b[0] {
      assert a == [a[0]] + a[1..] && b == [b[0]] + b[1..];
      LessTotal(a[1..], b[1..]);
    }
  }

  lemma LessAsymmetric(a: string, b: string)
    requires Less(a, b)
    ensures !Less(b, a)
  {
    if Less(b, a) {
      LessTransitive(a, b, a);
      LessIrreflexive(a);
    }
  }

  /** Each element is strictly below every later one. */
  predicate StrictlyAscending(s: seq<string>) {
    forall i, j :: 0 <= i < j < |s| ==> Less(s[i], s[j])
  }

  /** A strictly ascending list holds no element twice. */
  lemma AscendingDistinct(s: seq<string>)
    requires StrictlyAscending(s)
    ensures forall i, j :: 0 <= i < j < |s| ==> s[i] != s[j]
  {
    forall i, j | 0 <= i < j < |s| ensures s[i] != s[j] {
      LessIrreflexive(s[i]);
    }
  }

  /** Adds `x` to an ascending list at its place, unless it is already there. */
  function Insert(x: string, s: seq<string>): (r: seq<string>)
    requires StrictlyAscending(s)
    ensures StrictlyAscending(r)
    ensures forall y :: y in r <==> y == x || y in s
  {
    if s == [] then [x]
    else if x == s[0] then s
    else if Less(x, s[0]) then
      assert forall j :: 0 <= j < |s| ==> Less(x, s[j]) by {
        forall j | 0 < j < |s| ensures Less(x, s[j]) { LessTransitive(x, s[0], s[j]); }
      }
      [x] + s
    else
      var t := Insert(x, s[1..]);
      LessTotal(x, s[0]);
      assert forall y :: y in t ==> Less(s[0], y) by {
        forall y | y in t ensures Less(s[0], y) {
          if y != x {
            var j :| 0 <= j < |s[1..]| && s[1..][j] == y;
            assert s[j + 1] == y;
          }
        }
      }
      assert forall j :: 0 <= j < |t| ==> Less(s[0], t[j]) by {
        forall j | 0 <= j < |t| ensures Less(s[0], t[j]) { assert t[j] in t; }
      }
      [s[0]] + t
  }

  /** `sorted(set(xs))`: the distinct elements of `xs` in ascending order. */
  function SortedUnique(xs: seq<string>): (r: seq<string>)
    ensures StrictlyAscending(r)
    ensures forall y :: y in r <==> y in xs
  {
    if xs == [] then [] else Insert(xs[|xs| - 1], SortedUnique(xs[..|xs| - 1]))
  }

  /** Two strictly ascending lists with the same elements are the same list. */
  lemma {:induction false} AscendingUnique(a: seq<string>, b: seq<string>)
    requires StrictlyAscending(a) && StrictlyAscending(b)
    requires forall y :: y in a <==> y in b
    ensures a == b
    decreases |a|
  {
    if a != [] {
      assert a[0] in b;
      assert a[0] == b[0] by {
        if a[0] != b[0] {
          assert a[0] in b && b[0] in a;
          var i :| 0 <= i < |b| && b[i] == a[0];
          var k :| 0 <= k < |a| && a[k] == b[0];
          assert Less(b[0], a[0]);
          assert Less(a[0], b[0]);
          LessAsymmetric(a[0], b[0]);
        }
      }
      AscendingDistinct(a);
      AscendingDistinct(b);
      assert forall y :: y in a[1..] <==> y in b[1..] by {
        forall y ensures y in a[1..] <==> y in b[1..] {
          if y in a[1..] {
            var i :| 0 <= i < |a[1..]| && a[1..][i] == y;
            assert y in b && y != b[0];
            var k :| 0 <= k < |b| && b[k] == y;
            assert b[1..][k - 1] == y;
          }
          if y in b[1..] {
            var i :| 0 <= i < |b[1..]| && b[1..][i] == y;
            assert y in a && y != a[0];
            var k :| 0 <= k < |a| && a[k] == y;
            assert a[1..][k - 1] == y;
          }
        }
      }
      AscendingUnique(a[1..], b[1..]);
      assert a == [a[0]] + a[1..] && b == [b[0]] + b[1..];
    } else {
      HeadIsMember(b);
    }
  }

  lemma HeadIsMember(s: seq<string>)
    ensures s != [] ==> s[0] in s
  {
  }

  /** `sorted(set(xs))` depends only on which elements occur, not on their
      order or how often they occur. */
  lemma SortedUniqueDependsOnElements(xs: seq<string>, ys: seq<string>)
    requires forall y :: y in xs <==> y in ys
    ensures SortedUnique(xs) == SortedUnique(ys)
  {
    AscendingUnique(SortedUnique(xs), SortedUnique(ys));
  }
}
