/** Ordered listings read page by page: a map's entries in key order, an exclusive start, an
    optional filter, and a limit. */
module Paging {
  import opened Prelude
  import opened Ordering

  const DEFAULT_LIMIT := 10
  const MAX_LIMIT := 30

  /** The page size a query uses for the limit it was given. */
  function CalcLimit(request: Option<nat>): nat {
    var n := request.GetOr(DEFAULT_LIMIT);
    if n < MAX_LIMIT then n else MAX_LIMIT
  }

  type Filter<!V> = ((string, V)) -> bool

  ghost predicate InKeyOrder<V(!new)>(es: seq<(string, V)>) {
    forall i, j :: 0 <= i < j < |es| ==> Lt(es[i].0, es[j].0)
  }

  /** The entries after an exclusive start, in order, that the filter admits. */
  ghost function Select<V(!new)>(es: seq<(string, V)>, start: Option<string>, keep: Filter<V>): seq<(string, V)> {
    if es == [] then []
    else
      var rest := Select(es[1..], start, keep);
      if (start.None? || Lt(start.value, es[0].0)) && keep(es[0]) then [es[0]] + rest else rest
  }

  /** The first `limit` of them. */
  ghost function Page<V(!new)>(es: seq<(string, V)>, start: Option<string>, limit: nat, keep: Filter<V>)
    : seq<(string, V)>
  {
    var all := Select(es, start, keep);
    if limit < |all| then all[..limit] else all
  }

  lemma {:induction false} SelectedAreEntries<V(!new)>(es: seq<(string, V)>, start: Option<string>, keep: Filter<V>)
    ensures forall e :: e in Select(es, start, keep) <==>
                          e in es && keep(e) && (start.None? || Lt(start.value, e.0))
  {
    if es != [] {
      SelectedAreEntries(es[1..], start, keep);
      assert es == [es[0]] + es[1..];
    }
  }

  lemma {:induction false} SelectedInOrder<V(!new)>(es: seq<(string, V)>, start: Option<string>, keep: Filter<V>)
    requires InKeyOrder(es)
    ensures InKeyOrder(Select(es, start, keep))
  {
    if es != [] {
      SelectedInOrder(es[1..], start, keep);
      SelectedAreEntries(es[1..], start, keep);
      var rest := Select(es[1..], start, keep);
      forall j | 0 <= j < |rest| ensures Lt(es[0].0, rest[j].0) {
        assert rest[j] in es[1..];
      }
    }
  }

  /** A start before every entry filters nothing out. */
  lemma {:induction false} StartBelowAll<V(!new)>(
    es: seq<(string, V)>, a: Option<string>, b: Option<string>, keep: Filter<V>)
    requires forall e :: e in es ==> (a.None? || Lt(a.value, e.0)) && (b.None? || Lt(b.value, e.0))
    ensures Select(es, a, keep) == Select(es, b, keep)
  {
    if es != [] { StartBelowAll(es[1..], a, b, keep); }
  }

  /** Restarting after the k-th selected entry leaves exactly the entries after it. */
  lemma {:induction false} RestartAfter<V(!new)>(es: seq<(string, V)>, start: Option<string>, keep: Filter<V>, k: nat)
    requires InKeyOrder(es)
    requires k < |Select(es, start, keep)|
    ensures Select(es, Some(Select(es, start, keep)[k].0), keep) == Select(es, start, keep)[k + 1..]
  {
    TotalOrder();
    var (head, rest) := (es[0], es[1..]);
    var chosen := Select(rest, start, keep);
    if (start.None? || Lt(start.value, head.0)) && keep(head) {
      if k == 0 {
        forall e | e in rest ensures Lt(head.0, e.0) && (start.None? || Lt(start.value, e.0)) {}
        StartBelowAll(rest, start, Some(head.0), keep);
      } else {
        RestartAfter(rest, start, keep, k - 1);
        SelectedAreEntries(rest, start, keep);
        assert chosen[k - 1] in rest;
      }
    } else {
      RestartAfter(rest, start, keep, k);
      SelectedAreEntries(rest, start, keep);
      assert chosen[k] in rest;
    }
  }

  /** A client reading on from the last key of each page until a page comes back empty. */
  ghost function Walk<V(!new)>(es: seq<(string, V)>, start: Option<string>, limit: nat, keep: Filter<V>)
    : seq<(string, V)>
    requires InKeyOrder(es)
    decreases |Select(es, start, keep)|
  {
    var page := Page(es, start, limit, keep);
    if page == [] then []
    else
      RestartAfter(es, start, keep, |page| - 1);
      page + Walk(es, Some(page[|page| - 1].0), limit, keep)
  }

  /** With a positive limit the walk reads every matching entry once, in key order. */
  lemma {:induction false} WalkReadsAll<V(!new)>(
    es: seq<(string, V)>, start: Option<string>, limit: nat, keep: Filter<V>)
    requires InKeyOrder(es) && limit > 0
    ensures Walk(es, start, limit, keep) == Select(es, start, keep)
    decreases |Select(es, start, keep)|
  {
    var (all, page) := (Select(es, start, keep), Page(es, start, limit, keep));
    if page != [] {
      var next := Some(page[|page| - 1].0);
      RestartAfter(es, start, keep, |page| - 1);
      WalkReadsAll(es, next, limit, keep);
      assert page == all[..|page|] && Select(es, next, keep) == all[|page|..];
    }
  }

  /** The walk reads everything exactly when the limit is not zero or there is nothing to read. */
  lemma {:induction false} WalkReadsEverything<V(!new)>(
    es: seq<(string, V)>, start: Option<string>, limit: nat, keep: Filter<V>)
    requires InKeyOrder(es)
    ensures Walk(es, start, limit, keep) == Select(es, start, keep) <==> limit > 0 || Select(es, start, keep) == []
  {
    if limit > 0 {
      WalkReadsAll(es, start, limit, keep);
    } else {
      assert Walk(es, start, limit, keep) == [];
    }
  }

  /* ---- a map as an ordered listing ---- */

  ghost predicate IsFirst<V(!new)>(m: map<string, V>, k: string) {
    k in m && forall x :: x in m ==> Le(k, x)
  }

  lemma {:induction false} FirstExists<V(!new)>(m: map<string, V>)
    requires m != map[]
    ensures exists k :: IsFirst(m, k)
    decreases |m|
  {
    TotalOrder();
    var k :| k in m;
    var rest := m - {k};
    if rest == map[] {
      assert forall x :: x in m && x != k ==> x in rest;
      assert IsFirst(m, k);
    } else {
      FirstExists(rest);
      var f :| IsFirst(rest, f);
      assert forall x :: x in m ==> x == k || x in rest;
      assert IsFirst(m, if Lt(k, f) then k else f);
    }
  }

  ghost function First<V(!new)>(m: map<string, V>): (k: string)
    requires m != map[]
    ensures IsFirst(m, k)
  {
    FirstExists(m);
    var k :| IsFirst(m, k); k
  }

  ghost function Entries<V(!new)>(m: map<string, V>): (es: seq<(string, V)>)
    ensures forall e :: e in es <==> e.0 in m && m[e.0] == e.1
    decreases |m|
  {
    if m == map[] then []
    else [(First(m), m[First(m)])] + Entries(m - {First(m)})
  }

  lemma {:induction false} EntriesInOrder<V(!new)>(m: map<string, V>)
    ensures InKeyOrder(Entries(m))
    decreases |m|
  {
    if m != map[] {
      var k := First(m);
      EntriesInOrder(m - {k});
      forall j | 0 <= j < |Entries(m - {k})| ensures Lt(k, Entries(m - {k})[j].0) {
        assert Entries(m - {k})[j] in Entries(m - {k});
      }
    }
  }

  ghost function WalkMap<V(!new)>(m: map<string, V>, request: Option<nat>, keep: Filter<V>): seq<(string, V)> {
    EntriesInOrder(m);
    Walk(Entries(m), None, CalcLimit(request), keep)
  }

  /** `r` lists the entries of `m` that `keep` admits: each once, in key order, and nothing else. */
  ghost predicate ListsExactly<V(!new)>(r: seq<(string, V)>, m: map<string, V>, keep: Filter<V>) {
    && InKeyOrder(r)
    && forall e :: e in r <==> e.0 in m && m[e.0] == e.1 && keep(e)
  }

  lemma {:induction false} WalkListsMap<V(!new)>(m: map<string, V>, request: Option<nat>, keep: Filter<V>)
    ensures ListsExactly(WalkMap(m, request, keep), m, keep)
            <==> request != Some(0) || (forall k :: k in m ==> !keep((k, m[k])))
  {
    EntriesInOrder(m);
    var es := Entries(m);
    SelectedInOrder(es, None, keep);
    SelectedAreEntries(es, None, keep);
    WalkReadsEverything(es, None, CalcLimit(request), keep);
    var all := Select(es, None, keep);
    if request == Some(0) {
      assert Walk(es, None, 0, keep) == [];
      if all != [] { assert all[0] in all; }
      forall k | k in m && keep((k, m[k])) ensures (k, m[k]) in all { assert (k, m[k]) in es; }
    }
  }

  /* ---- a client of a paged query ---- */

  type Query<!V> = Option<string> -> seq<(string, V)>

  /** What a client gets that asks again from the last key it received, until a page is empty. */
  ghost predicate Reads<V(!new)>(query: Query<V>, start: Option<string>, pages: seq<seq<(string, V)>>)
    decreases |pages|
  {
    && pages != [] && pages[0] == query(start)
    && if pages[0] == [] then |pages| == 1
       else Reads(query, Some(pages[0][|pages[0]| - 1].0), pages[1..])
  }

  ghost function Concat<T>(pages: seq<seq<T>>): seq<T> {
    if pages == [] then [] else pages[0] + Concat(pages[1..])
  }

  ghost predicate Pages<V(!new)>(query: Query<V>, es: seq<(string, V)>, limit: nat, keep: Filter<V>) {
    forall start :: query(start) == Page(es, start, limit, keep)
  }

  lemma {:induction false} ReadingIsWalking<V(!new)>(
    query: Query<V>, es: seq<(string, V)>, limit: nat, keep: Filter<V>,
    start: Option<string>, pages: seq<seq<(string, V)>>)
    requires InKeyOrder(es) && Pages(query, es, limit, keep) && Reads(query, start, pages)
    ensures Concat(pages) == Walk(es, start, limit, keep)
    decreases |pages|
  {
    if pages[0] != [] {
      ReadingIsWalking(query, es, limit, keep, Some(pages[0][|pages[0]| - 1].0), pages[1..]);
    }
  }

  lemma {:induction false} ReadingEnds<V(!new)>(
    query: Query<V>, es: seq<(string, V)>, limit: nat, keep: Filter<V>, start: Option<string>)
    returns (pages: seq<seq<(string, V)>>)
    requires InKeyOrder(es) && Pages(query, es, limit, keep)
    ensures Reads(query, start, pages)
    decreases |Select(es, start, keep)|
  {
    var page := query(start);
    pages := [page];
    if page != [] {
      RestartAfter(es, start, keep, |page| - 1);
      var rest := ReadingEnds(query, es, limit, keep, Some(page[|page| - 1].0));
      pages := [page] + rest;
    }
  }

  /** Reading a paged query over a map to its end is possible, and lists exactly the admitted
      entries for any limit but zero; with limit zero it does so only when there are none. */
  lemma {:induction false} ReadingListsMap<V(!new)>(
    query: Query<V>, m: map<string, V>, request: Option<nat>, keep: Filter<V>)
    requires Pages(query, Entries(m), CalcLimit(request), keep)
    ensures exists pages :: Reads(query, None, pages)
    ensures forall pages :: Reads(query, None, pages) ==>
              (ListsExactly(Concat(pages), m, keep)
               <==> request != Some(0) || (forall k :: k in m ==> !keep((k, m[k]))))
  {
    EntriesInOrder(m);
    WalkListsMap(m, request, keep);
    var some := ReadingEnds(query, Entries(m), CalcLimit(request), keep, None);
    forall pages | Reads(query, None, pages) ensures Concat(pages) == WalkMap(m, request, keep) {
      ReadingIsWalking(query, Entries(m), CalcLimit(request), keep, None, pages);
    }
  }

  /** What a page may hold: the admitted entries after the start. */
  ghost predicate Admitted<V(!new)>(e: (string, V), m: map<string, V>, start: Option<string>, keep: Filter<V>) {
    e.0 in m && m[e.0] == e.1 && keep(e) && (start.None? || Lt(start.value, e.0))
  }

  /** One page: in key order as many of the first admitted entries as were asked for, 10 if nothing
      was asked and 30 at most, or all that are left. */
  ghost predicate IsPage<V(!new)>(
    page: seq<(string, V)>, m: map<string, V>, start: Option<string>, request: Option<nat>, keep: Filter<V>)
  {
    var size := if request.None? then 10 else if request.value < 30 then request.value else 30;
    && InKeyOrder(page) && |page| <= size
    && (forall e :: e in page ==> Admitted(e, m, start, keep))
    && (forall e :: Admitted(e, m, start, keep) && e !in page ==>
          |page| == size && forall p :: p in page ==> Lt(p.0, e.0))
  }

  /** What is left behind by taking the first `n` comes after all of them. */
  lemma {:induction false} RestComesLater<V(!new)>(all: seq<(string, V)>, n: nat, e: (string, V))
    requires InKeyOrder(all) && n <= |all| && e in all && e !in all[..n]
    ensures forall p :: p in all[..n] ==> Lt(p.0, e.0)
  {
    var j :| 0 <= j < |all| && all[j] == e;
    assert j >= n;
    assert forall i :: 0 <= i < n ==> Lt(all[i].0, all[j].0);
  }

  lemma {:induction false} PageIsPage<V(!new)>(
    m: map<string, V>, start: Option<string>, request: Option<nat>, keep: Filter<V>)
    ensures IsPage(Page(Entries(m), start, CalcLimit(request), keep), m, start, request, keep)
  {
    var es := Entries(m);
    var all := Select(es, start, keep);
    EntriesInOrder(m);
    SelectedInOrder(es, start, keep);
    SelectedAreEntries(es, start, keep);
    assert forall e :: e in all <==> Admitted(e, m, start, keep);
    FirstOnes(all, m, start, request, keep);
  }

  lemma {:induction false} FirstOnes<V(!new)>(
    all: seq<(string, V)>, m: map<string, V>, start: Option<string>, request: Option<nat>, keep: Filter<V>)
    requires InKeyOrder(all) && forall e :: e in all <==> Admitted(e, m, start, keep)
    ensures var n := CalcLimit(request);
            IsPage(if n < |all| then all[..n] else all, m, start, request, keep)
  {
    var n := CalcLimit(request);
    if n < |all| {
      forall e | Admitted(e, m, start, keep) && e !in all[..n] ensures forall p :: p in all[..n] ==> Lt(p.0, e.0) {
        RestComesLater(all, n, e);
      }
    }
  }

  /** Every answer of the query is a page. */
  ghost predicate AnswersPages<V(!new)>(query: Query<V>, m: map<string, V>, request: Option<nat>, keep: Filter<V>) {
    forall start :: IsPage(query(start), m, start, request, keep)
  }

  lemma {:induction false} PagesArePages<V(!new)>(
    query: Query<V>, m: map<string, V>, request: Option<nat>, keep: Filter<V>)
    requires Pages(query, Entries(m), CalcLimit(request), keep)
    ensures AnswersPages(query, m, request, keep)
  {
    forall start ensures IsPage(query(start), m, start, request, keep) { PageIsPage(m, start, request, keep); }
  }

  /** Every complete reading of the query lists exactly the admitted entries, and there is one. */
  ghost predicate ListsAll<V(!new)>(query: Query<V>, m: map<string, V>, keep: Filter<V>) {
    && (exists pages :: Reads(query, None, pages))
    && (forall pages :: Reads(query, None, pages) ==> ListsExactly(Concat(pages), m, keep))
  }
}
