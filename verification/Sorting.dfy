/** Sorting by a text key (qsort with strcmp, list.sort with a key) and sums over sequences. */
module Sorting {
  import opened Text

  function Insert<T>(x: T, s: seq<T>, key: T -> string): (r: seq<T>)
    ensures multiset(r) == multiset(s) + multiset{x} && |r| == |s| + 1
  {
    if |s| == 0 || !Less(key(s[0]), key(x)) then [x] + s
    else
      assert s == [s[0]] + s[1..];
      [s[0]] + Insert(x, s[1..], key)
  }

  function Sort<T>(s: seq<T>, key: T -> string): (r: seq<T>)
    ensures multiset(r) == multiset(s) && |r| == |s|
  {
    if |s| == 0 then []
    else
      assert s == [s[0]] + s[1..];
      Insert(s[0], Sort(s[1..], key), key)
  }

  /** Never decreasing. */
  ghost predicate Sorted<T>(s: seq<T>, key: T -> string) {
    forall i, j | 0 <= i < j < |s| :: !Less(key(s[j]), key(s[i]))
  }

  /** Strictly increasing: sorted, and no two keys are equal. */
  ghost predicate Ascending<T>(s: seq<T>, key: T -> string) {
    forall i, j | 0 <= i < j < |s| :: Less(key(s[i]), key(s[j]))
  }

  ghost predicate DistinctKeys<T>(s: seq<T>, key: T -> string) {
    forall i, j | 0 <= i < j < |s| :: key(s[i]) != key(s[j])
  }

  lemma SameElements<T>(a: seq<T>, b: seq<T>, x: T)
    requires multiset(a) == multiset(b)
    ensures x in a <==> x in b
  {
    assert x in a <==> x in multiset(a);
  }

  lemma {:induction false} InsertSorted<T>(x: T, s: seq<T>, key: T -> string)
    requires Sorted(s, key)
    ensures Sorted(Insert(x, s, key), key)
  {
    var r := Insert(x, s, key);
    if |s| == 0 || !Less(key(s[0]), key(x)) {
      forall j | 0 < j < |r| ensures !Less(key(r[j]), key(x)) {
        if j > 1 { NotLessTransitive(key(s[j - 1]), key(s[0]), key(x)); }
      }
    } else {
      var t := s[1..];
      InsertSorted(x, t, key);
      forall j | 0 < j < |r| ensures !Less(key(r[j]), key(s[0])) {
        assert r[j] in multiset(Insert(x, t, key));
        assert r[j] in multiset(t) + multiset{x};
        if r[j] == x { LessAsymmetric(key(s[0]), key(x)); }
        else { assert r[j] in t; var k :| 0 <= k < |t| && t[k] == r[j]; assert s[k + 1] == r[j]; }
      }
    }
  }

  lemma NotLessTransitive(a: string, b: string, c: string)
    requires !Less(a, b) && !Less(b, c)
    ensures !Less(a, c)
  {
    LessTotal(a, b);
    LessTotal(b, c);
    if Less(a, c) {
      if a != b && b != c { LessTransitive(c, b, a); LessAsymmetric(a, c); }
    }
  }

  lemma {:induction false} SortSorts<T>(s: seq<T>, key: T -> string)
    ensures Sorted(Sort(s, key), key)
  {
    if |s| > 0 {
      SortSorts(s[1..], key);
      InsertSorted(s[0], Sort(s[1..], key), key);
    }
  }

  lemma {:induction false} InsertKeepsDistinct<T>(x: T, s: seq<T>, key: T -> string)
    requires DistinctKeys(s, key) && forall i | 0 <= i < |s| :: key(s[i]) != key(x)
    ensures DistinctKeys(Insert(x, s, key), key)
    ensures forall i | 0 <= i < |s| + 1 :: Insert(x, s, key)[i] == x || Insert(x, s, key)[i] in s
  {
    if |s| > 0 && Less(key(s[0]), key(x)) {
      InsertKeepsDistinct(x, s[1..], key);
    }
  }

  /** Distinct keys sort strictly. */
  lemma {:induction false} SortAscends<T>(s: seq<T>, key: T -> string)
    requires DistinctKeys(s, key)
    ensures DistinctKeys(Sort(s, key), key) && Ascending(Sort(s, key), key)
  {
    SortSorts(s, key);
    if |s| > 0 {
      SortAscends(s[1..], key);
      var rest := Sort(s[1..], key);
      forall i | 0 <= i < |rest| ensures key(rest[i]) != key(s[0]) {
        assert rest[i] in multiset(s[1..]);
        assert rest[i] in s[1..];
      }
      InsertKeepsDistinct(s[0], rest, key);
    }
    var r := Sort(s, key);
    forall i, j | 0 <= i < j < |r| ensures Less(key(r[i]), key(r[j])) { LessTotal(key(r[i]), key(r[j])); }
  }

  /** An ascending sequence is determined by its elements. */
  lemma {:induction false} AscendingUnique<T>(a: seq<T>, b: seq<T>, key: T -> string)
    requires Ascending(a, key) && Ascending(b, key)
    requires forall x :: x in a <==> x in b
    ensures a == b
  {
    assert |a| > 0 ==> a[0] in b;
    assert |b| > 0 ==> b[0] in a;
    if |a| > 0 && |b| > 0 {
      var i :| 0 <= i < |b| && b[i] == a[0];
      var j :| 0 <= j < |a| && a[j] == b[0];
      if a[0] != b[0] { LessAsymmetric(key(a[0]), key(b[0])); }
      forall x ensures x in a[1..] <==> x in b[1..] {
        AscendingHead(a, key, x);
        AscendingHead(b, key, x);
      }
      AscendingUnique(a[1..], b[1..], key);
      assert a == [a[0]] + a[1..] && b == [b[0]] + b[1..];
    }
  }

  lemma AscendingHead<T>(a: seq<T>, key: T -> string, x: T)
    requires Ascending(a, key) && |a| > 0
    ensures x in a[1..] <==> x in a && x != a[0]
  {
    LessIrreflexive(key(a[0]));
    assert a == [a[0]] + a[1..];
  }

  lemma SameHead<T>(s: seq<T>, t: seq<T>, key: T -> string)
    requires Sorted(s, key) && Ascending(t, key) && multiset(s) == multiset(t) && |s| > 0
    ensures |t| > 0 && s[0] == t[0]
  {
    assert s[0] in multiset(t);
    assert t[0] in multiset(s);
    var k :| 0 <= k < |t| && t[k] == s[0];
    var j :| 0 <= j < |s| && s[j] == t[0];
  }

  lemma SameTail<T>(s: seq<T>, t: seq<T>)
    requires multiset(s) == multiset(t) && |s| > 0 && |t| > 0 && s[0] == t[0]
    ensures multiset(s[1..]) == multiset(t[1..])
  {
    assert s == [s[0]] + s[1..];
    assert t == [t[0]] + t[1..];
    assert multiset(s) == multiset{s[0]} + multiset(s[1..]);
    assert multiset(t) == multiset{t[0]} + multiset(t[1..]);
    assert multiset(s[1..]) == multiset(s) - multiset{s[0]};
  }

  /** The only sorted arrangement of strictly ordered elements. */
  lemma {:induction false} SortedUnique<T>(s: seq<T>, t: seq<T>, key: T -> string)
    requires Sorted(s, key) && Ascending(t, key) && multiset(s) == multiset(t)
    ensures s == t
  {
    assert |s| == |multiset(s)| == |multiset(t)| == |t|;
    if |s| > 0 {
      SameHead(s, t, key);
      SameTail(s, t);
      SortedUnique(s[1..], t[1..], key);
      assert s == [s[0]] + s[1..] && t == [t[0]] + t[1..];
    }
  }

  lemma SortOfAscending<T>(t: seq<T>, key: T -> string)
    requires Ascending(t, key)
    ensures Sort(t, key) == t
  {
    SortSorts(t, key);
    SortedUnique(Sort(t, key), t, key);
  }

  lemma {:induction false} AdjacentAscend(lines: seq<string>, i: nat, j: nat)
    requires forall k | 0 < k < |lines| :: Less(lines[k - 1], lines[k])
    requires i < j < |lines|
    ensures Less(lines[i], lines[j])
  {
    if i + 1 < j {
      AdjacentAscend(lines, i, j - 1);
      LessTransitive(lines[i], lines[j - 1], lines[j]);
    }
  }

  // ----- Sums -----

  function Sum<T>(s: seq<T>, f: T -> nat): nat {
    if |s| == 0 then 0 else Sum(s[..|s| - 1], f) + f(s[|s| - 1])
  }

  lemma SumAppend<T>(s: seq<T>, x: T, f: T -> nat)
    ensures Sum(s + [x], f) == Sum(s, f) + f(x)
  {
    assert (s + [x])[..|s|] == s;
  }

  lemma {:induction false} SumHead<T>(s: seq<T>, f: T -> nat)
    requires |s| > 0
    ensures Sum(s, f) == f(s[0]) + Sum(s[1..], f)
  {
    if |s| > 1 {
      SumHead(s[..|s| - 1], f);
      assert s[..|s| - 1][1..] == s[1..][..|s| - 2];
    }
  }

  lemma {:induction false} SumInsert<T>(x: T, s: seq<T>, key: T -> string, f: T -> nat)
    ensures Sum(Insert(x, s, key), f) == Sum(s, f) + f(x)
  {
    var r := Insert(x, s, key);
    SumHead(r, f);
    if |s| == 0 || !Less(key(s[0]), key(x)) {
      assert r[1..] == s;
    } else {
      SumHead(s, f);
      SumInsert(x, s[1..], key, f);
      assert r[1..] == Insert(x, s[1..], key);
    }
  }

  /** Sorting keeps every sum and count. */
  lemma {:induction false} SumSort<T>(s: seq<T>, key: T -> string, f: T -> nat)
    ensures Sum(Sort(s, key), f) == Sum(s, f)
  {
    if |s| > 0 {
      SumSort(s[1..], key, f);
      SumInsert(s[0], Sort(s[1..], key), key, f);
      SumHead(s, f);
    }
  }

  lemma {:induction false} SumPointwise<T, U>(s: seq<T>, t: seq<U>, f: T -> nat, g: U -> nat)
    requires |s| == |t| && forall i | 0 <= i < |s| :: f(s[i]) == g(t[i])
    ensures Sum(s, f) == Sum(t, g)
  {
    if |s| > 0 { SumPointwise(s[..|s| - 1], t[..|t| - 1], f, g); }
  }
}
