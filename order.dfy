/**
 The default ordering of `Array.prototype.sort` on strings: lexicographic
 by character code, a proper prefix before any of its extensions; and the
 sort itself, as an insertion sort on sequences.
 */
module Order {

  /** `a` sorts no later than `b`. */
  predicate LessEq(a: string, b: string) {
    a == [] || (b != [] && (a[0] < b[0] || (a[0] == b[0] && LessEq(a[1..], b[1..]))))
  }

  lemma {:induction false} LessEqReflexive(a: string)
    ensures LessEq(a, a)
  {
    if a != [] {
      LessEqReflexive(a[1..]);
    }
  }

  lemma {:induction false} LessEqTotal(a: string, b: string)
    ensures LessEq(a, b) || LessEq(b, a)
  {
    if a != [] && b != [] && a[0] == b[0] {
      LessEqTotal(a[1..], b[1..]);
    }
  }

  lemma {:induction false} LessEqAntisymmetric(a: string, b: string)
    requires LessEq(a, b) && LessEq(b, a)
    ensures a == b
  {
    if a != [] {
      LessEqAntisymmetric(a[1..], b[1..]);
      assert a == [a[0]] + a[1..] && b == [b[0]] + b[1..];
    }
  }

  lemma {:induction false} LessEqTransitive(a: string, b: string, c: string)
    requires LessEq(a, b) && LessEq(b, c)
    ensures LessEq(a, c)
  {
    if a != [] && a[0] == b[0] && b[0] == c[0] {
      LessEqTransitive(a[1..], b[1..], c[1..]);
    }
  }

  /** Every element sorts no later than every element after it. */
  predicate Sorted(s: seq<string>) {
    forall i, j :: 0 <= i < j < |s| ==> LessEq(s[i], s[j])
  }

  /** No string occurs twice. */
  predicate Distinct(s: seq<string>) {
    forall i, j :: 0 <= i < j < |s| ==> s[i] != s[j]
  }

  /** Dropping the head of a list without repeats leaves one without
      repeats that no longer holds the head. */
  lemma DistinctTail(ks: seq<string>)
    requires ks != [] && Distinct(ks)
    ensures Distinct(ks[1..]) && ks[0] !in ks[1..]
  {
    var rest := ks[1..];
    forall a, b | 0 <= a < b < |rest| ensures rest[a] != rest[b] {
      assert rest[a] == ks[a + 1] && rest[b] == ks[b + 1];
    }
    forall j | 0 <= j < |rest| ensures rest[j] != ks[0] {
      assert rest[j] == ks[j + 1];
    }
  }

  /** Strictly ascending: sorted and without repeats. */
  predicate Ascending(s: seq<string>) {
    Sorted(s) && Distinct(s)
  }

  /** `x` placed into the sorted sequence `s` before the first element it
      sorts no later than. */
  function Insert(x: string, s: seq<string>): (r: seq<string>)
    requires Sorted(s)
    ensures Sorted(r)
    ensures multiset(r) == multiset(s) + multiset{x}
    ensures Distinct(s) && x !in s ==> Distinct(r)
  {
    if s == [] then [x]
    else if LessEq(x, s[0]) then
      InsertFront(x, s);
      [x] + s
    else
      var t := Insert(x, s[1..]);
      InsertBehind(x, s, t);
      [s[0]] + t
  }

  lemma InsertFront(x: string, s: seq<string>)
    requires Sorted(s) && s != [] && LessEq(x, s[0])
    ensures Sorted([x] + s)
  {
    forall j | 0 < j < |s| ensures LessEq(x, s[j]) {
      LessEqTransitive(x, s[0], s[j]);
    }
  }

  /** The step of `Insert` that keeps `s[0]` in front of the insertion into
      the rest. */
  lemma InsertBehind(x: string, s: seq<string>, t: seq<string>)
    requires Sorted(s) && s != [] && !LessEq(x, s[0])
    requires Sorted(t) && multiset(t) == multiset(s[1..]) + multiset{x}
    requires Distinct(s) && x !in s ==> Distinct(t)
    ensures Sorted([s[0]] + t)
    ensures multiset([s[0]] + t) == multiset(s) + multiset{x}
    ensures Distinct(s) && x !in s ==> Distinct([s[0]] + t)
  {
    assert s == [s[0]] + s[1..];
    LessEqTotal(x, s[0]);
    forall j | 0 <= j < |t| ensures LessEq(s[0], t[j]) {
      assert t[j] in multiset(t);
      assert t[j] == x || t[j] in s[1..];
    }
    if s[0] in t {
      assert s[0] in multiset(t);
      assert s[0] == x || s[0] in multiset(s[1..]);
    }
  }

  /** `Array.prototype.sort()` with the default comparison. */
  function Sort(s: seq<string>): (r: seq<string>)
    ensures Sorted(r)
    ensures multiset(r) == multiset(s)
    ensures |r| == |s|
    ensures Distinct(s) ==> Ascending(r)
  {
    if s == [] then []
    else
      assert s == [s[0]] + s[1..];
      var t := Sort(s[1..]);
      assert Distinct(s) ==> s[0] !in t by {
        if s[0] in t {
          assert s[0] in multiset(s[1..]);
        }
      }
      Insert(s[0], t)
  }

  /** The sorted sequence holds exactly the elements it was given. */
  lemma SortSameElements(s: seq<string>)
    ensures forall x :: x in Sort(s) <==> x in s
  {
    forall x ensures x in Sort(s) <==> x in s {
      assert x in Sort(s) <==> x in multiset(Sort(s));
      assert x in s <==> x in multiset(s);
    }
  }

  /** Two strictly ascending sequences with the same elements are equal: the
      sorted labels do not depend on the order the keys were met in. */
  lemma {:induction false} AscendingUnique(r: seq<string>, t: seq<string>)
    requires Ascending(r) && Ascending(t)
    requires forall x :: x in r <==> x in t
    ensures r == t
  {
    if r != [] { assert r[0] in r; }
    if t != [] { assert t[0] in t; }
    if r != [] && t != [] {
      assert r[0] == t[0] by {
        assert r[0] in t && t[0] in r;
        var i :| 0 <= i < |t| && t[i] == r[0];
        var j :| 0 <= j < |r| && r[j] == t[0];
        LessEqReflexive(r[0]);
        assert LessEq(t[0], r[0]) by { if i > 0 { assert LessEq(t[0], t[i]); } }
        assert LessEq(r[0], t[0]) by { if j > 0 { assert LessEq(r[0], r[j]); } }
        LessEqAntisymmetric(r[0], t[0]);
      }
      forall x ensures x in r[1..] <==> x in t[1..] {
        if x in r[1..] {
          var i :| 1 <= i < |r| && r[i] == x;
          assert r[i] in r;
          var k :| 0 <= k < |t| && t[k] == x;
          assert k != 0 && t[1..][k - 1] == x;
        }
        if x in t[1..] {
          var i :| 1 <= i < |t| && t[i] == x;
          assert t[i] in t;
          var k :| 0 <= k < |r| && r[k] == x;
          assert k != 0 && r[1..][k - 1] == x;
        }
      }
      AscendingUnique(r[1..], t[1..]);
      assert r == [r[0]] + r[1..] && t == [t[0]] + t[1..];
    }
  }
}
