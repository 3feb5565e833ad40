/** The byte order of Rust strings, and sorting by it. */
module Ordering {
  import opened Prelude

  predicate Lt(a: string, b: string) {
    |b| > 0 && (|a| == 0 || a[0] < b[0] || (a[0] == b[0] && Lt(a[1..], b[1..])))
  }

  predicate Le(a: string, b: string) {
    a == b || Lt(a, b)
  }

  /** `a` and `b` agree up to `k`, and there `a` ends or has the smaller character. */
  ghost predicate FirstDifference(a: string, b: string, k: nat) {
    && k <= |a| && k < |b| && a[..k] == b[..k]
    && (k == |a| || a[k] < b[k])
  }

  lemma {:induction false} LtMeaning(a: string, b: string)
    ensures Lt(a, b) <==> exists k: nat :: FirstDifference(a, b, k)
  {
    if |a| == 0 {
      if |b| > 0 { assert FirstDifference(a, b, 0); }
    } else if |b| > 0 {
      LtMeaning(a[1..], b[1..]);
      if a[0] < b[0] {
        assert FirstDifference(a, b, 0);
      } else if a[0] == b[0] {
        if k: nat :| FirstDifference(a[1..], b[1..], k) {
          assert a[..k + 1] == [a[0]] + a[1..][..k] && b[..k + 1] == [b[0]] + b[1..][..k];
          assert FirstDifference(a, b, k + 1);
        }
      }
      if k: nat :| FirstDifference(a, b, k) {
        if k > 0 {
          assert a[0] == a[..k][0] == b[..k][0] == b[0];
          assert a[1..][..k - 1] == a[..k][1..] && b[1..][..k - 1] == b[..k][1..];
          assert FirstDifference(a[1..], b[1..], k - 1);
        }
      }
    }
  }

  lemma {:induction false} LtIrreflexive(a: string)
    ensures !Lt(a, a)
  {
    if |a| > 0 { LtIrreflexive(a[1..]); }
  }

  lemma {:induction false} LtTransitive(a: string, b: string, c: string)
    requires Lt(a, b) && Lt(b, c)
    ensures Lt(a, c)
  {
    if |a| > 0 && a[0] == b[0] && b[0] == c[0] {
      LtTransitive(a[1..], b[1..], c[1..]);
    }
  }

  lemma {:induction false} LtTotal(a: string, b: string)
    ensures Lt(a, b) || a == b || Lt(b, a)
  {
    if |a| > 0 && |b| > 0 && a[0] == b[0] {
      LtTotal(a[1..], b[1..]);
      assert a == [a[0]] + a[1..] && b == [b[0]] + b[1..];
    }
  }

  /** Lt is a strict total order. */
  lemma {:induction false} TotalOrder()
    ensures forall a :: !Lt(a, a)
    ensures forall a, b, c :: Lt(a, b) && Lt(b, c) ==> Lt(a, c)
    ensures forall a, b :: Lt(a, b) || a == b || Lt(b, a)
  {
    forall a ensures !Lt(a, a) { LtIrreflexive(a); }
    forall a, b, c | Lt(a, b) && Lt(b, c) ensures Lt(a, c) { LtTransitive(a, b, c); }
    forall a, b ensures Lt(a, b) || a == b || Lt(b, a) { LtTotal(a, b); }
  }

  ghost predicate Sorted(s: seq<string>) {
    forall i, j :: 0 <= i < j < |s| ==> Le(s[i], s[j])
  }

  ghost predicate StrictlySorted(s: seq<string>) {
    forall i, j :: 0 <= i < j < |s| ==> Lt(s[i], s[j])
  }

  function Insert(x: string, s: seq<string>): (r: seq<string>)
    ensures multiset(r) == multiset(s) + multiset{x}
  {
    if s == [] then [x]
    else if Le(x, s[0]) then [x] + s
    else
      assert s == [s[0]] + s[1..];
      [s[0]] + Insert(x, s[1..])
  }

  lemma {:induction false} InsertKeepsSorted(x: string, s: seq<string>)
    requires Sorted(s)
    ensures Sorted(Insert(x, s))
  {
    TotalOrder();
    if s != [] && !Le(x, s[0]) {
      InsertKeepsSorted(x, s[1..]);
      var t := Insert(x, s[1..]);
      forall j | 0 <= j < |t| ensures Le(s[0], t[j]) {
        assert t[j] in multiset(t);
        assert t[j] == x || t[j] in multiset(s[1..]);
      }
    }
  }

  /** The standard library's sort, known to its callers by this contract. */
  function Sort(s: seq<string>): (r: seq<string>)
    ensures Sorted(r)
    ensures multiset(r) == multiset(s)
    ensures |r| == |s|
  {
    if s == [] then []
    else
      assert s == [s[0]] + s[1..];
      InsertKeepsSorted(s[0], Sort(s[1..]));
      var r := Insert(s[0], Sort(s[1..]));
      assert |r| == |multiset(r)| && |s| == |multiset(s)|;
      r
  }

  lemma {:induction false} SortKeepsMembers(s: seq<string>)
    ensures forall x :: x in Sort(s) <==> x in s
  {
    forall x ensures x in Sort(s) <==> x in s {
      assert x in Sort(s) <==> x in multiset(Sort(s));
      assert x in s <==> x in multiset(s);
    }
  }

  /** `Vec::dedup`: drops an element equal to its predecessor. */
  function Dedup(s: seq<string>): (r: seq<string>)
    ensures |r| <= |s|
  {
    if |s| <= 1 then s
    else if s[0] == s[1] then Dedup(s[1..])
    else [s[0]] + Dedup(s[1..])
  }

  /** On a sorted sequence, dedup keeps the length exactly when nothing repeats. */
  lemma {:induction false} DedupKeepsLengthIffDistinct(s: seq<string>)
    requires Sorted(s)
    ensures |Dedup(s)| == |s| <==> Distinct(s)
  {
    if |s| >= 2 {
      DedupKeepsLengthIffDistinct(s[1..]);
      TotalOrder();
      if s[0] != s[1] && Distinct(s[1..]) {
        assert forall j :: 0 < j < |s| ==> s[j] == s[1..][j - 1];
        forall j | 0 < j < |s| ensures s[0] != s[j] {
          assert Le(s[0], s[1]) && (j == 1 || Le(s[1], s[j]));
        }
      }
      if Distinct(s) {
        assert forall i, j :: 0 <= i < j < |s[1..]| ==> s[1..][i] == s[i + 1] && s[1..][j] == s[j + 1];
      }
    }
  }

  lemma {:induction false} DistinctFromHead<T>(s: seq<T>)
    requires s != []
    ensures Distinct(s) <==> s[0] !in s[1..] && Distinct(s[1..])
  {
    var t := s[1..];
    if Distinct(s) {
      assert forall i :: 0 <= i < |t| ==> t[i] == s[i + 1];
    }
    if s[0] !in t && Distinct(t) {
      assert forall j :: 0 < j < |s| ==> s[j] == t[j - 1] && s[j] in t;
    }
  }

  lemma {:induction false} DistinctIffCounts<T>(s: seq<T>)
    ensures Distinct(s) <==> forall x :: multiset(s)[x] <= 1
  {
    if s != [] {
      var t := s[1..];
      DistinctFromHead(s);
      DistinctIffCounts(t);
      assert s == [s[0]] + t;
      assert forall x :: multiset(s)[x] == multiset(t)[x] + if x == s[0] then 1 else 0;
      assert s[0] in t <==> multiset(t)[s[0]] > 0;
      if forall x :: multiset(s)[x] <= 1 {
        forall x ensures multiset(t)[x] <= 1 { assert multiset(s)[x] <= 1; }
        assert multiset(s)[s[0]] <= 1;
      }
    }
  }

  /** Sorting does not change whether a sequence has repeats. */
  lemma {:induction false} SortKeepsDistinct(s: seq<string>)
    ensures Distinct(Sort(s)) <==> Distinct(s)
  {
    DistinctIffCounts(s);
    DistinctIffCounts(Sort(s));
  }
}
