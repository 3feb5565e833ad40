/** How the invariant of the token comes about: instantiation, and migration of a legacy state. */
module Cw20Start {
  import opened Prelude
  import opened Chain
  import opened MapSum
  import opened Cw20Ledger
  import opened Cw20Invariants
  import opened Cw20Accounting

  ghost function Requested(rows: seq<Coin>): nat {
    if rows == [] then 0 else rows[0].amount + Requested(rows[1..])
  }

  ghost predicate AllValid(api: AddrCheck, rows: seq<Coin>) {
    forall i :: 0 <= i < |rows| ==> api(rows[i].address)
  }

  ghost predicate RowsError(api: AddrCheck, rows: seq<Coin>, total: Uint128, error: Error) {
    || (error == Std(InvalidAddress) && !AllValid(api, rows))
    || (error == Panic && total + Requested(rows) > LARGEST)
  }

  /** The rows are accepted exactly when every address is valid and the total fits. */
  lemma {:induction false} SaveRowsAccepted(api: AddrCheck, rows: seq<Coin>, b: Balances, total: Uint128)
    ensures SaveRows(api, rows, b, total).Ok? <==> AllValid(api, rows) && total + Requested(rows) <= LARGEST
    ensures match SaveRows(api, rows, b, total)
            case Ok((_, sum)) => sum == total + Requested(rows)
            case Err(error) => RowsError(api, rows, total, error)
    decreases |rows|
  {
    if rows != [] {
      assert AllValid(api, rows) <==> api(rows[0].address) && AllValid(api, rows[1..]) by {
        assert forall i :: 0 < i < |rows| ==> rows[i] == rows[1..][i - 1];
      }
      if api(rows[0].address) && total + rows[0].amount <= LARGEST {
        SaveRowsAccepted(api, rows[1..], b[rows[0].address := rows[0].amount], total + rows[0].amount);
      }
    }
  }

  ghost predicate Unused(rows: seq<Coin>, b: Balances) {
    forall r :: r in rows ==> r.address !in b
  }

  lemma {:induction false} RestUnused(rows: seq<Coin>, b: Balances)
    requires rows != [] && Distinct(Addresses(rows)) && Unused(rows, b)
    ensures Distinct(Addresses(rows[1..])) && Unused(rows[1..], b[rows[0].address := rows[0].amount])
  {
    assert Addresses(rows)[1..] == Addresses(rows[1..]);
    forall r | r in rows[1..] ensures r.address !in b[rows[0].address := rows[0].amount] {
      var i :| 0 <= i < |rows[1..]| && rows[1..][i] == r;
      assert rows[i + 1] == r;
    }
  }

  /** With no repeated address nothing is overwritten, so the sum is what was requested. */
  lemma {:induction false} SaveRowsAddsUp(api: AddrCheck, rows: seq<Coin>, b: Balances, total: Uint128)
    requires Distinct(Addresses(rows)) && Unused(rows, b) && SaveRows(api, rows, b, total).Ok?
    ensures Sum(SaveRows(api, rows, b, total).value.0) == Sum(b) + Requested(rows)
    decreases |rows|
  {
    if rows != [] {
      RestUnused(rows, b);
      SumAfterUpdate(b, rows[0].address, rows[0].amount);
      SaveRowsAddsUp(api, rows[1..], b[rows[0].address := rows[0].amount], total + rows[0].amount);
    }
  }

  ghost predicate HasRow(rows: seq<Coin>, a: Addr) {
    exists r :: r in rows && r.address == a
  }

  /** The saved accounts are the given ones and exactly the rows. */
  lemma {:induction false} SaveRowsContents(api: AddrCheck, rows: seq<Coin>, b: Balances, total: Uint128)
    requires Distinct(Addresses(rows)) && Unused(rows, b) && SaveRows(api, rows, b, total).Ok?
    ensures var saved := SaveRows(api, rows, b, total).value.0;
            && (forall a :: a in saved <==> a in b || HasRow(rows, a))
            && (forall a :: a in b ==> saved[a] == b[a])
            && (forall r :: r in rows ==> saved[r.address] == r.amount)
    decreases |rows|
  {
    if rows != [] {
      var (row, rest) := (rows[0], rows[1..]);
      var b' := b[row.address := row.amount];
      RestUnused(rows, b);
      SaveRowsContents(api, rest, b', total + row.amount);
      assert SaveRows(api, rows, b, total) == SaveRows(api, rest, b', total + row.amount);
      assert rows == [row] + rest;
      forall a ensures HasRow(rows, a) <==> a == row.address || HasRow(rest, a) {
        if a == row.address { assert row in rows; }
      }
      assert row.address in b' && row.address !in b;
    }
  }

  ghost function InitialCap(data: InstantiateData): Uint128 {
    if data.mint.Some? then data.mint.value.cap.GetOr(LARGEST) else LARGEST
  }

  ghost predicate AcceptableMarketing(api: AddrCheck, m: InitialMarketing) {
    (m.logo.Some? ==> VerifyLogo(m.logo.value).Ok?) && (m.marketing.Some? ==> api(m.marketing.value))
  }

  ghost function FirstInfo(m: InitialMarketing): MarketingInfo {
    MarketingInfo(m.project, m.description, m.marketing,
                  if m.logo.Some? then Some(InfoOf(m.logo.value)) else None)
  }

  /** Which error a refused request may report: the first check that fails decides. */
  ghost predicate StartReason(api: AddrCheck, data: InstantiateData, error: Error) {
    var rows := data.initialBalances;
    if !WellFormed(data) then error == Std(Generic)
    else if !Distinct(Addresses(rows)) then error == DuplicateInitialBalanceAddresses
    else if !AllValid(api, rows) || Requested(rows) > LARGEST then RowsError(api, rows, 0, error)
    else if Requested(rows) > InitialCap(data) then error == Std(Generic)
    else if data.mint.Some? && !api(data.mint.value.minter) then error == Std(InvalidAddress)
    else
      && data.marketing.Some?
      && var logo := data.marketing.value.logo;
         error == if logo.Some? && VerifyLogo(logo.value).Err? then VerifyLogo(logo.value).error
                  else Std(InvalidAddress)
  }

  /** A name of 3 to 50 bytes, a symbol of 3 to 12 letters or dashes, at most 18 decimals. */
  ghost predicate WellFormed(data: InstantiateData) {
    && 3 <= |data.name| <= 50 && 3 <= |data.symbol| <= 12 && data.decimals <= 18
    && forall i :: 0 <= i < |data.symbol| ==>
         var c := data.symbol[i] as char; c == '-' || 'A' <= c <= 'Z' || 'a' <= c <= 'z'
  }

  /** Instantiation accepts exactly the well-formed, duplicate-free requests within the cap, and
      starts the token with the requested balances and nothing else. */
  lemma {:induction false} InstantiateStarts(api: AddrCheck, data: InstantiateData)
    ensures Instantiate(api, EMPTY, data).Ok? <==>
              && WellFormed(data)
              && Distinct(Addresses(data.initialBalances)) && AllValid(api, data.initialBalances)
              && Requested(data.initialBalances) <= InitialCap(data)
              && (data.mint.Some? ==> api(data.mint.value.minter))
              && (data.marketing.Some? ==> AcceptableMarketing(api, data.marketing.value))
    ensures Instantiate(api, EMPTY, data).Err? ==>
              StartReason(api, data, Instantiate(api, EMPTY, data).error)
    ensures Instantiate(api, EMPTY, data).Ok? ==>
              var l := Instantiate(api, EMPTY, data).value;
              && Inv(l)
              && l.version == Some(ContractVersion("crates.io:cw20-base", Version(0, 5, 0)))
              && l.info.value.name == data.name && l.info.value.symbol == data.symbol
              && l.info.value.decimals == data.decimals
              && l.Supply() == Requested(data.initialBalances)
              && (forall a :: a in l.balances <==> HasRow(data.initialBalances, a))
              && (forall r :: r in data.initialBalances ==> Bal(l, r.address) == r.amount)
              && (l.Minter().Some? <==> data.mint.Some?)
              && (data.mint.Some? ==> l.Minter() == Some(MinterData(data.mint.value.minter, data.mint.value.cap)))
              && l.allowances == map[]
              && (if data.marketing.None? then l.marketing.None? && l.logo.None?
                  else l.logo == data.marketing.value.logo && l.marketing == Some(FirstInfo(data.marketing.value)))
  {
    var rows := data.initialBalances;
    SaveRowsAccepted(api, rows, map[], 0);
    if SaveRows(api, rows, map[], 0).Ok? && Distinct(Addresses(rows)) {
      SaveRowsAddsUp(api, rows, map[], 0);
      SaveRowsContents(api, rows, map[], 0);
    }
  }

  /** Every state any run of messages can reach satisfies the invariant and the initial cap. */
  lemma {:induction false} ReachableStates(api: AddrCheck, data: InstantiateData, es: seq<Event>)
    requires Instantiate(api, EMPTY, data).Ok?
    ensures var l := Run(api, Instantiate(api, EMPTY, data).value, es);
            && Inv(l)
            && (data.mint.Some? && data.mint.value.cap.Some? ==> l.Supply() <= data.mint.value.cap.value)
            && (data.mint.None? ==> l.Minter().None? && l.Supply() <= Requested(data.initialBalances))
  {
    InstantiateStarts(api, data);
    var start := Instantiate(api, EMPTY, data).value;
    RunKeepsInvariant(api, start, es);
    RunMinting(api, start, es);
    if data.mint.Some? && data.mint.value.cap.Some? { assert CapRespected(start, data.mint.value.cap.value); }
  }

  /* ---- migration ---- */

  /** Migrating from before 0.14.0 yields the exact mirror if and only if every entry already in
      the reverse index belongs to some forward allowance; nothing else but the version changes. */
  lemma {:induction false} MigrateRebuildsMirror(l: Ledger, release: Version)
    requires MigrateTo(l, release).Ok? && l.version.value.version.Older(REVERSE_INDEX_SINCE)
    ensures var after := MigrateTo(l, release).value;
            && (Mirrored(after) <==> forall a, b :: (b, a) in l.spenderIndex ==> (a, b) in l.allowances)
            && after == l.(version := Some(ContractVersion(CONTRACT_NAME, release)), spenderIndex := after.spenderIndex)
  {
    ReversedMirrors(l.allowances);
    var after := MigrateTo(l, release).value;
    if Mirrored(after) {
      forall a, b | (b, a) in l.spenderIndex ensures (a, b) in l.allowances {
        assert (b, a) in after.spenderIndex;
      }
    }
  }

  /** A legacy ledger whose amounts add up, with no self-allowance and an empty or partial reverse
      index, satisfies the full invariant after migration. */
  lemma {:induction false} MigrateEstablishesInvariant(l: Ledger, release: Version)
    requires MigrateTo(l, release).Ok? && l.version.value.version.Older(REVERSE_INDEX_SINCE)
    requires l.info.Some? && Sum(l.balances) == l.Supply() && NoSelfAllowance(l)
    requires forall a, b :: (b, a) in l.spenderIndex ==> (a, b) in l.allowances
    ensures Inv(MigrateTo(l, release).value)
  {
    MigrateRebuildsMirror(l, release);
  }

  /** With this package's version, 0.5.0, a migration is accepted only from a version that still
      lacks the index, so an accepted migration always rebuilds it; any newer stored version is refused. */
  lemma {:induction false} MigrationToThisPackage(l: Ledger)
    ensures MigrateTo(l, CONTRACT_VERSION).Ok? ==>
              MigrateTo(l, CONTRACT_VERSION).value.spenderIndex == l.spenderIndex + Reversed(l.allowances)
    ensures l.version.Some? && CONTRACT_VERSION.Older(l.version.value.version) ==>
              MigrateTo(l, CONTRACT_VERSION).Err?
  {
  }
}
