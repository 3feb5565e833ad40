/** Shared result types and sequence vocabulary. */
module Prelude {

  datatype Option<+T> = None | Some(value: T) {
    function GetOr(default: T): T {
      if Some? then value else default
    }
  }

  datatype Result<+T, +E> = Ok(value: T) | Err(error: E) {
    predicate IsFailure() { Err? }

    function PropagateFailure<U>(): Result<U, E>
      requires Err?
    {
      Err(error)
    }

    function Extract(): T
      requires Ok?
    {
      value
    }
  }

  /** No two positions hold the same element. */
  ghost predicate Distinct<T>(s: seq<T>) {
    forall i, j :: 0 <= i < j < |s| ==> s[i] != s[j]
  }

  /** `a` can be had from `b` by dropping elements: same order, no element more often. */
  ghost predicate Subsequence<T>(a: seq<T>, b: seq<T>) {
    || a == []
    || (b != []
        && var (a', b') := (a[..|a| - 1], b[..|b| - 1]);
           (a[|a| - 1] == b[|b| - 1] && Subsequence(a', b')) || Subsequence(a, b'))
  }

  /** The elements that satisfy a predicate, as an iterator's `filter` gives them. */
  function Filtered<T>(s: seq<T>, keep: T -> bool): seq<T> {
    if s == [] then []
    else
      var (init, last) := (Filtered(s[..|s| - 1], keep), s[|s| - 1]);
      if keep(last) then init + [last] else init
  }

  lemma {:induction false} FilteredFromHead<T>(s: seq<T>, keep: T -> bool)
    requires s != []
    ensures Filtered(s, keep) == (if keep(s[0]) then [s[0]] else []) + Filtered(s[1..], keep)
  {
    if |s| == 1 {
      assert s[..0] == [] && s[1..] == [];
    } else {
      FilteredFromHead(s[..|s| - 1], keep);
      assert s[1..][..|s| - 2] == s[..|s| - 1][1..];
    }
  }

  /** Filtering keeps every occurrence of what satisfies the predicate, in order, and nothing else. */
  lemma {:induction false} FilteredMeaning<T>(s: seq<T>, keep: T -> bool)
    ensures Subsequence(Filtered(s, keep), s)
    ensures forall x :: x in Filtered(s, keep) <==> x in s && keep(x)
    ensures forall x :: multiset(Filtered(s, keep))[x] == if keep(x) then multiset(s)[x] else 0
  {
    if s != [] {
      var (init, last) := (s[..|s| - 1], s[|s| - 1]);
      FilteredMeaning(init, keep);
      assert s == init + [last];
      if keep(last) { assert Filtered(s, keep)[..|Filtered(s, keep)| - 1] == Filtered(init, keep); }
    }
  }
}
