/** The paged queries of the token. */
module Cw20Listings {
  import opened Prelude
  import opened Chain
  import opened Paging
  import opened Cw20Ledger
  import opened Cw20Invariants
  import opened Cw20Start

  ghost const ALL_ALLOWANCES: Filter<Allowance> := (_: (string, Allowance)) => true
  ghost const ALL_ACCOUNTS: Filter<Uint128> := (_: (string, Uint128)) => true

  /** The entries whose first key is `a`, keyed by the second. */
  ghost function Under(m: Allowances, a: Addr): map<string, Allowance> {
    map key | key in m && key.0 == a :: key.1 := m[key]
  }

  ghost function AllAllowances(api: AddrCheck, l: Ledger, owner: string, start: Option<string>, limit: Option<nat>)
    : Result<seq<(string, Allowance)>, Error>
  {
    var o :- Validate(api, owner);
    Ok(Page(Entries(Under(l.allowances, o)), start, CalcLimit(limit), ALL_ALLOWANCES))
  }

  ghost function AllSpenderAllowances(
    api: AddrCheck, l: Ledger, spender: string, start: Option<string>, limit: Option<nat>)
    : Result<seq<(string, Allowance)>, Error>
  {
    var s :- Validate(api, spender);
    Ok(Page(Entries(Under(l.spenderIndex, s)), start, CalcLimit(limit), ALL_ALLOWANCES))
  }

  ghost function AllAccounts(l: Ledger, start: Option<string>, limit: Option<nat>): seq<(string, Uint128)> {
    Page(Entries(l.balances), start, CalcLimit(limit), ALL_ACCOUNTS)
  }

  /** The owners that granted `spender` a forward allowance, with what they granted. */
  ghost function OwnersGranting(l: Ledger, spender: Addr): map<string, Allowance> {
    map key | key in l.allowances && key.1 == spender :: key.0 := l.allowances[key]
  }

  lemma {:induction false} IndexHoldsOwners(l: Ledger, spender: Addr)
    requires Mirrored(l)
    ensures Under(l.spenderIndex, spender) == OwnersGranting(l, spender)
  {
    var under, owners := Under(l.spenderIndex, spender), OwnersGranting(l, spender);
    forall o | o in under ensures o in owners && owners[o] == under[o] {
      assert (spender, o) in l.spenderIndex && (o, spender) in l.allowances;
    }
    forall o | o in owners ensures o in under {
      assert (o, spender) in l.allowances && (spender, o) in l.spenderIndex;
    }
  }

  /** A page, or nothing when the query fails. */
  ghost function PageOf<V>(r: Result<seq<(string, V)>, Error>): seq<(string, V)> {
    if r.Ok? then r.value else []
  }

  /** Where the maps mirror each other, a spender's listing through the reverse index consists of
      pages of the owners that granted a forward allowance, and reading it to its end lists exactly
      those; an invalid address is refused. */
  lemma {:induction false} SpenderListingIsComplete(api: AddrCheck, l: Ledger, spender: Addr, limit: Option<nat>)
    requires Mirrored(l)
    ensures forall e :: ALL_ALLOWANCES(e)
    ensures var query := start => PageOf(AllSpenderAllowances(api, l, spender, start, limit));
            api(spender) ==>
              && AnswersPages(query, OwnersGranting(l, spender), limit, ALL_ALLOWANCES)
              && (limit != Some(0) ==> ListsAll(query, OwnersGranting(l, spender), ALL_ALLOWANCES))
    ensures !api(spender) ==>
              forall start :: AllSpenderAllowances(api, l, spender, start, limit) == Err(Std(InvalidAddress))
  {
    IndexHoldsOwners(l, spender);
    if api(spender) {
      var query := start => PageOf(AllSpenderAllowances(api, l, spender, start, limit));
      PagesArePages(query, OwnersGranting(l, spender), limit, ALL_ALLOWANCES);
      ReadingListsMap(query, OwnersGranting(l, spender), limit, ALL_ALLOWANCES);
    }
  }

  /** So it is after any run of messages. */
  lemma {:induction false} ReachableSpenderListing(
    api: AddrCheck, data: InstantiateData, es: seq<Event>, spender: Addr, limit: Option<nat>)
    requires Instantiate(api, EMPTY, data).Ok? && limit != Some(0) && api(spender)
    ensures var l := Run(api, Instantiate(api, EMPTY, data).value, es);
            ListsAll(start => PageOf(AllSpenderAllowances(api, l, spender, start, limit)),
                     OwnersGranting(l, spender), ALL_ALLOWANCES)
  {
    ReachableStates(api, data, es);
    SpenderListingIsComplete(api, Run(api, Instantiate(api, EMPTY, data).value, es), spender, limit);
  }

  /** The owner's listing and the accounts consist of pages too, and list each entry once. */
  lemma {:induction false} OwnerAndAccountListings(api: AddrCheck, l: Ledger, owner: Addr, limit: Option<nat>)
    ensures (forall e :: ALL_ALLOWANCES(e)) && forall e :: ALL_ACCOUNTS(e)
    ensures var query := start => PageOf(AllAllowances(api, l, owner, start, limit));
            api(owner) ==>
              && AnswersPages(query, Under(l.allowances, owner), limit, ALL_ALLOWANCES)
              && (limit != Some(0) ==> ListsAll(query, Under(l.allowances, owner), ALL_ALLOWANCES))
    ensures !api(owner) ==> forall start :: AllAllowances(api, l, owner, start, limit) == Err(Std(InvalidAddress))
    ensures var query := start => AllAccounts(l, start, limit);
            && AnswersPages(query, l.balances, limit, ALL_ACCOUNTS)
            && (limit != Some(0) ==> ListsAll(query, l.balances, ALL_ACCOUNTS))
  {
    if api(owner) {
      var query := start => PageOf(AllAllowances(api, l, owner, start, limit));
      PagesArePages(query, Under(l.allowances, owner), limit, ALL_ALLOWANCES);
      ReadingListsMap(query, Under(l.allowances, owner), limit, ALL_ALLOWANCES);
    }
    var accounts := start => AllAccounts(l, start, limit);
    PagesArePages(accounts, l.balances, limit, ALL_ACCOUNTS);
    ReadingListsMap(accounts, l.balances, limit, ALL_ACCOUNTS);
  }
}
