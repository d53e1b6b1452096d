/** Byte-wise order on strings and insertion sort by a string key.

    What every caller needs of a sort is that it forgets the order in which the elements
    arrived: two lists with the same elements sort to the same list, and a list of distinct
    keys sorts to a strictly increasing one. The program sorts to the same end by other means.
    */
module Ordering {

  // Lexicographic order, the order of Rust's `str` comparison (one char stands for one byte).
  predicate Le(a: string, b: string) {
    |a| == 0 || (|b| > 0 && (a[0] < b[0] || (a[0] == b[0] && Le(a[1..], b[1..]))))
  }

  predicate Lt(a: string, b: string) {
    a != b && Le(a, b)
  }

  // The one is a prefix of the other, or less where they first differ.
  lemma {:induction false} LeMeans(a: string, b: string)
    ensures Le(a, b) <==> exists k :: LessAt(a, b, k)
  {
    if Le(a, b) {
      if a == "" || a[0] < b[0] {
        assert LessAt(a, b, 0);
      } else {
        LeMeans(a[1..], b[1..]);
        var k :| LessAt(a[1..], b[1..], k);
        LessAtNext(a, b, k + 1);
        assert LessAt(a, b, k + 1);
      }
    }
    if k :| LessAt(a, b, k) {
      if k > 0 {
        LessAtNext(a, b, k);
        assert LessAt(a[1..], b[1..], k - 1);
        LeMeans(a[1..], b[1..]);
      }
    }
  }

  ghost predicate LessAt(a: string, b: string, k: int) {
    0 <= k <= |a| && k <= |b| && a[..k] == b[..k] && (k == |a| || (k < |b| && a[k] < b[k]))
  }

  lemma LessAtNext(a: string, b: string, k: int)
    requires a != "" && b != "" && k > 0
    ensures a[0] == b[0] && LessAt(a[1..], b[1..], k - 1) <==> LessAt(a, b, k)
  {
    var x, y := a[1..], b[1..];
    if k <= |a| && k <= |b| {
      if a[..k] == b[..k] {
        assert a[0] == a[..k][0] && b[0] == b[..k][0];
        assert x[..k - 1] == a[..k][1..] && y[..k - 1] == b[..k][1..];
      }
      if a[0] == b[0] && x[..k - 1] == y[..k - 1] {
        assert a[..k] == [a[0]] + x[..k - 1] && b[..k] == [b[0]] + y[..k - 1];
      }
    }
  }

  lemma {:induction false} LeTotal(a: string, b: string)
    ensures Le(a, b) || Le(b, a)
  {
    if |a| > 0 && |b| > 0 && a[0] == b[0] {
      LeTotal(a[1..], b[1..]);
    }
  }

  lemma {:induction false} LeAntisymmetric(a: string, b: string)
    requires Le(a, b) && Le(b, a)
    ensures a == b
  {
    if |a| > 0 && |b| > 0 {
      LeAntisymmetric(a[1..], b[1..]);
      assert a == [a[0]] + a[1..] && b == [b[0]] + b[1..];
    }
  }

  lemma {:induction false} LeTransitive(a: string, b: string, c: string)
    requires Le(a, b) && Le(b, c)
    ensures Le(a, c)
  {
    if |a| > 0 && a[0] == b[0] && b[0] == c[0] {
      LeTransitive(a[1..], b[1..], c[1..]);
    }
  }

  ghost predicate SortedBy<T>(s: seq<T>, key: T -> string) {
    forall i, j :: 0 <= i < j < |s| ==> Le(key(s[i]), key(s[j]))
  }

  // Strictly increasing keys: sorted and without a repeated key.
  ghost predicate StrictBy<T>(s: seq<T>, key: T -> string) {
    forall i, j :: 0 <= i < j < |s| ==> Lt(key(s[i]), key(s[j]))
  }

  ghost predicate DistinctBy<T>(s: seq<T>, key: T -> string) {
    forall i, j :: 0 <= i < j < |s| ==> key(s[i]) != key(s[j])
  }

  function InsertBy<T>(x: T, s: seq<T>, key: T -> string): seq<T> {
    if |s| == 0 || Le(key(x), key(s[0])) then [x] + s
    else [s[0]] + InsertBy(x, s[1..], key)
  }

  function SortBy<T>(s: seq<T>, key: T -> string): seq<T> {
    if |s| == 0 then [] else InsertBy(s[0], SortBy(s[1..], key), key)
  }

  lemma {:induction false} InsertSorted<T>(x: T, s: seq<T>, key: T -> string)
    requires SortedBy(s, key)
    ensures SortedBy(InsertBy(x, s, key), key)
    ensures multiset(InsertBy(x, s, key)) == multiset(s) + multiset{x}
  {
    var r := InsertBy(x, s, key);
    if |s| == 0 {
    } else if Le(key(x), key(s[0])) {
      forall j | 0 <= j < |s| ensures Le(key(x), key(s[j])) {
        if j > 0 { LeTransitive(key(x), key(s[0]), key(s[j])); }
      }
    } else {
      InsertSorted(x, s[1..], key);
      LeTotal(key(x), key(s[0]));
      var t := InsertBy(x, s[1..], key);
      assert s == [s[0]] + s[1..];
      forall j | 0 <= j < |t| ensures Le(key(s[0]), key(t[j])) {
        assert t[j] in multiset(t);
        if t[j] != x {
          assert t[j] in multiset(s[1..]);
          var k :| 0 <= k < |s[1..]| && s[1..][k] == t[j];
          assert s[k + 1] == t[j];
        }
      }
    }
  }

  lemma {:induction false} SortSorts<T>(s: seq<T>, key: T -> string)
    ensures SortedBy(SortBy(s, key), key)
    ensures multiset(SortBy(s, key)) == multiset(s)
    ensures |SortBy(s, key)| == |s|
  {
    if |s| > 0 {
      SortSorts(s[1..], key);
      InsertSorted(s[0], SortBy(s[1..], key), key);
      assert s == [s[0]] + s[1..];
    }
    assert |multiset(SortBy(s, key))| == |multiset(s)|;
  }

  // Elements that share a key are equal.
  ghost predicate KeyIdentifies<T>(m: multiset<T>, key: T -> string) {
    forall x, y :: x in m && y in m && key(x) == key(y) ==> x == y
  }

  lemma HeadLeast<T>(a: seq<T>, b: seq<T>, key: T -> string)
    requires |a| > 0 && SortedBy(b, key) && multiset(a) == multiset(b)
    ensures |b| > 0 && Le(key(b[0]), key(a[0]))
  {
    assert a[0] in multiset(b);
    var i :| 0 <= i < |b| && b[i] == a[0];
    LeTotal(key(a[0]), key(a[0]));
  }

  lemma HeadsAgree<T>(a: seq<T>, b: seq<T>, key: T -> string)
    requires |a| > 0 && SortedBy(a, key) && SortedBy(b, key) && multiset(a) == multiset(b)
    requires KeyIdentifies(multiset(a), key)
    ensures |b| > 0 && a[0] == b[0]
  {
    HeadLeast(a, b, key);
    HeadLeast(b, a, key);
    LeAntisymmetric(key(a[0]), key(b[0]));
    assert a[0] in multiset(a) && b[0] in multiset(b);
  }

  lemma TailContents<T>(a: seq<T>, b: seq<T>)
    requires |a| > 0 && |b| > 0 && a[0] == b[0] && multiset(a) == multiset(b)
    ensures multiset(a[1..]) == multiset(b[1..])
    ensures forall x :: x in multiset(a[1..]) ==> x in multiset(a)
  {
    assert a == [a[0]] + a[1..] && b == [b[0]] + b[1..];
    assert multiset(a[1..]) == multiset(a) - multiset{a[0]};
    assert multiset(b[1..]) == multiset(b) - multiset{b[0]};
  }

  lemma TailsSorted<T>(a: seq<T>, key: T -> string)
    requires |a| > 0 && SortedBy(a, key)
    ensures SortedBy(a[1..], key)
    ensures KeyIdentifies(multiset(a), key) ==> KeyIdentifies(multiset(a[1..]), key)
  {
    TailContents(a, a);
  }

  // Two sorted sequences of the same elements are the same sequence.
  lemma {:induction false} SortedUnique<T>(a: seq<T>, b: seq<T>, key: T -> string)
    requires SortedBy(a, key) && SortedBy(b, key) && multiset(a) == multiset(b)
    requires KeyIdentifies(multiset(a), key)
    ensures a == b
  {
    if |a| == 0 {
      assert |multiset(b)| == 0;
    } else {
      HeadsAgree(a, b, key);
      TailContents(a, b);
      TailsSorted(a, key);
      TailsSorted(b, key);
      SortedUnique(a[1..], b[1..], key);
      assert a == [a[0]] + a[1..] && b == [b[0]] + b[1..];
    }
  }

  // Sorting is canonical: the arrival order of the elements is forgotten.
  lemma SortForgetsOrder<T>(a: seq<T>, b: seq<T>, key: T -> string)
    requires multiset(a) == multiset(b)
    requires KeyIdentifies(multiset(a), key)
    ensures SortBy(a, key) == SortBy(b, key)
  {
    SortSorts(a, key);
    SortSorts(b, key);
    SortedUnique(SortBy(a, key), SortBy(b, key), key);
  }

  function Self(s: string): string { s }

  function Sort(s: seq<string>): seq<string> {
    SortBy(s, Self)
  }

  // Sorting strings by themselves depends only on how often each string occurs.
  lemma SortByContents(a: seq<string>, b: seq<string>)
    ensures Sort(a) == Sort(b) <==> multiset(a) == multiset(b)
  {
    SortSorts(a, Self);
    SortSorts(b, Self);
    if multiset(a) == multiset(b) {
      SortForgetsOrder(a, b, Self);
    }
  }

  lemma SortTwice(s: seq<string>)
    ensures Sort(Sort(s)) == Sort(s)
  {
    SortSorts(s, Self);
    SortForgetsOrder(Sort(s), s, Self);
  }

  // Strictly sorted sequences with the same set of elements are equal.
  lemma StrictUnique<T>(a: seq<T>, b: seq<T>, key: T -> string)
    requires StrictBy(a, key) && StrictBy(b, key)
    requires forall x :: x in a <==> x in b
    ensures a == b
  {
    forall x ensures multiset(a)[x] == multiset(b)[x] {
      OccursOnce(a, key, x);
      OccursOnce(b, key, x);
    }
    assert multiset(a) == multiset(b);
    forall x, y | x in multiset(a) && y in multiset(a) && key(x) == key(y) ensures x == y {
      var i :| 0 <= i < |a| && a[i] == x;
      var j :| 0 <= j < |a| && a[j] == y;
      StrictIsDistinct(a, key, i, j);
    }
    SortedUnique(a, b, key);
  }

  lemma {:induction false} OccursOnce<T>(a: seq<T>, key: T -> string, x: T)
    requires StrictBy(a, key)
    ensures multiset(a)[x] == if x in a then 1 else 0
  {
    if |a| > 0 {
      OccursOnce(a[1..], key, x);
      assert a == [a[0]] + a[1..];
      forall k | 0 <= k < |a[1..]| ensures a[1..][k] != a[0] {
        assert Lt(key(a[0]), key(a[k + 1]));
      }
    }
  }

  lemma SortMembers<T>(s: seq<T>, key: T -> string, x: T)
    ensures x in SortBy(s, key) <==> x in s
  {
    SortSorts(s, key);
    assert x in multiset(SortBy(s, key)) <==> x in multiset(s);
  }

  // Sorting elements with distinct keys gives strictly increasing keys.
  lemma SortStrict<T>(s: seq<T>, key: T -> string)
    requires DistinctBy(s, key)
    ensures StrictBy(SortBy(s, key), key)
  {
    var r := SortBy(s, key);
    SortSorts(s, key);
    forall i, j | 0 <= i < j < |r| ensures Lt(key(r[i]), key(r[j])) {
      SortMembers(s, key, r[i]);
      SortMembers(s, key, r[j]);
      if key(r[i]) == key(r[j]) {
        SameKeySameElement(s, key, r[i], r[j]);
        TwiceInMultiset(r, i, j);
        TwoIndices(s, r[i]);
      }
    }
  }

  lemma DistinctIndices<T>(s: seq<T>, key: T -> string, i: nat, j: nat)
    requires DistinctBy(s, key) && i < |s| && j < |s|
    ensures key(s[i]) == key(s[j]) ==> i == j
  {
  }

  lemma StrictIsDistinct<T>(s: seq<T>, key: T -> string, i: nat, j: nat)
    requires StrictBy(s, key) && i < |s| && j < |s|
    ensures key(s[i]) == key(s[j]) ==> i == j
  {
  }

  lemma SameKeySameElement<T>(s: seq<T>, key: T -> string, x: T, y: T)
    requires DistinctBy(s, key) && x in s && y in s && key(x) == key(y)
    ensures x == y
  {
    var i :| 0 <= i < |s| && s[i] == x;
    var j :| 0 <= j < |s| && s[j] == y;
    DistinctIndices(s, key, i, j);
  }

  lemma TwiceInMultiset<T>(s: seq<T>, i: nat, j: nat)
    requires i < j < |s| && s[i] == s[j]
    ensures multiset(s)[s[i]] >= 2
  {
    assert s == s[..j] + s[j..];
    assert s[i] in s[..j] && s[i] in s[j..] by { assert s[..j][i] == s[i]; assert s[j..][0] == s[i]; }
    assert multiset(s) == multiset(s[..j]) + multiset(s[j..]);
  }

  lemma {:induction false} TwoIndices<T>(s: seq<T>, x: T)
    requires multiset(s)[x] >= 2
    ensures exists i, j :: 0 <= i < j < |s| && s[i] == x && s[j] == x
  {
    assert s == [s[0]] + s[1..];
    if s[0] == x {
      assert x in multiset(s[1..]);
      var k :| 0 <= k < |s[1..]| && s[1..][k] == x;
      assert s[0] == x && s[k + 1] == x;
    } else {
      TwoIndices(s[1..], x);
      var i, j :| 0 <= i < j < |s[1..]| && s[1..][i] == x && s[1..][j] == x;
      assert s[i + 1] == x && s[j + 1] == x;
    }
  }

  // The keys of a hash map, sorted.
  method SortedKeys(keys: set<string>) returns (r: seq<string>)
    ensures StrictBy(r, Self)
    ensures forall k :: k in r <==> k in keys
  {
    var rest := keys;
    var all: seq<string> := [];
    while rest != {}
      invariant rest <= keys && DistinctBy(all, Self)
      invariant forall k :: k in all <==> k in keys - rest
    {
      var k :| k in rest;
      assert k !in all;
      rest := rest - {k};
      all := all + [k];
    }
    SortStrict(all, Self);
    r := Sort(all);
    forall k ensures k in r <==> k in keys { SortMembers(all, Self, k); }
  }
}
