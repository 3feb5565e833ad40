/** The cw20-base contract as an object over its storage; every handler writes entry by entry, as
    the source does, and is proved to do to the stored ledger what Cw20Ledger says. */
module Cw20Base {
  import opened Prelude
  import opened Chain
  import opened Ordering
  import opened Cw20Ledger

  /** Sort, drop adjacent repeats, compare the lengths. */
  method ValidateAccounts(accounts: seq<Coin>) returns (r: Result<(), Error>)
    ensures r == if Distinct(Addresses(accounts)) then Ok(()) else Err(DuplicateInitialBalanceAddresses)
  {
    var addresses := Addresses(accounts);
    SortKeepsDistinct(addresses);
    addresses := Sort(addresses);
    DedupKeepsLengthIffDistinct(addresses);
    addresses := Dedup(addresses);
    if |addresses| != |accounts| {
      r := Err(DuplicateInitialBalanceAddresses);
    } else {
      r := Ok(());
    }
  }

  method HasValidSymbol(symbol: seq<Byte>) returns (ok: bool)
    ensures ok <==> 3 <= |symbol| <= 12 && forall i :: 0 <= i < |symbol| ==> ValidSymbolByte(symbol[i])
  {
    if |symbol| < 3 || |symbol| > 12 {
      return false;
    }
    for i := 0 to |symbol|
      invariant forall k :: 0 <= k < i ==> ValidSymbolByte(symbol[k])
    {
      var b := symbol[i];
      if b != 45 && (b < 65 || b > 90) && (b < 97 || b > 122) {
        return false;
      }
    }
    return true;
  }

  class Contract {
    const api: AddrCheck
    var version: Option<ContractVersion>
    var tokenInfo: Option<TokenInfo>
    var balances: Balances
    var allowances: Allowances
    var allowancesSpender: Allowances
    var marketingInfo: Option<MarketingInfo>
    var logo: Option<Logo>

    function State(): Ledger
      reads this
    {
      Ledger(version, tokenInfo, balances, allowances, allowancesSpender, marketingInfo, logo)
    }

    /** An accepted call leaves the specified ledger; a refused one reports the specified error. */
    ghost predicate Meets(r: Result<(), Error>, spec: Result<Ledger, Error>)
      reads this
    {
      match spec
      case Ok(l) => r == Ok(()) && State() == l
      case Err(error) => r == Err(error)
    }

    constructor (api: AddrCheck)
      ensures this.api == api && State() == EMPTY
    {
      this.api := api;
      version, tokenInfo, balances, allowances, allowancesSpender := None, None, map[], map[], map[];
      marketingInfo, logo := None, None;
    }

    method CreateAccounts(accounts: seq<Coin>) returns (r: Result<Uint128, Error>)
      modifies this`balances
      ensures var spec := Cw20Ledger.CreateAccounts(api, accounts, old(balances));
              match spec
              case Ok((b, total)) => r == Ok(total) && balances == b
              case Err(error) => r == Err(error)
    {
      var checked := ValidateAccounts(accounts);
      if checked.Err? {
        return Err(checked.error);
      }
      var totalSupply: Uint128 := 0;
      ghost var spec := SaveRows(api, accounts, balances, 0);
      var i := 0;
      while i < |accounts|
        invariant 0 <= i <= |accounts|
        invariant SaveRows(api, accounts[i..], balances, totalSupply) == spec
      {
        var row := accounts[i];
        assert accounts[i..][0] == row && accounts[i..][1..] == accounts[i + 1..];
        if !api(row.address) {
          return Err(Std(InvalidAddress));
        }
        balances := balances[row.address := row.amount];
        if totalSupply + row.amount > U128_MAX {
          return Err(Panic);
        }
        totalSupply := totalSupply + row.amount;
        i := i + 1;
      }
      r := Ok(totalSupply);
    }

    method Instantiate(data: InstantiateData) returns (r: Result<(), Error>)
      modifies this
      ensures Meets(r, Cw20Ledger.Instantiate(api, old(State()), data))
    {
      version := Some(ContractVersion(CONTRACT_NAME, CONTRACT_VERSION));
      var symbolOk := HasValidSymbol(data.symbol);
      if |data.name| < 3 || |data.name| > 50 || !symbolOk || data.decimals > 18 {
        return Err(Std(Generic));
      }
      var created := CreateAccounts(data.initialBalances);
      if created.Err? {
        return Err(created.error);
      }
      var totalSupply := created.value;
      if data.mint.Some? && data.mint.value.cap.Some? && totalSupply > data.mint.value.cap.value {
        return Err(Std(Generic));
      }
      var mint: Option<MinterData> := None;
      if data.mint.Some? {
        if !api(data.mint.value.minter) {
          return Err(Std(InvalidAddress));
        }
        mint := Some(MinterData(data.mint.value.minter, data.mint.value.cap));
      }
      tokenInfo := Some(TokenInfo(data.name, data.symbol, data.decimals, totalSupply, mint));
      r := Ok(());
      if data.marketing.Some? {
        r := SaveMarketing(data.marketing.value);
      }
    }

    method SaveMarketing(m: InitialMarketing) returns (r: Result<(), Error>)
      modifies this`marketingInfo, this`logo
      ensures Meets(r, StartMarketing(api, old(State()), m))
    {
      var logoInfo: Option<LogoInfo> := None;
      if m.logo.Some? {
        var verified := VerifyLogo(m.logo.value);
        if verified.Err? {
          return verified;
        }
        logo := m.logo;
        logoInfo := Some(InfoOf(m.logo.value));
      }
      if m.marketing.Some? && !api(m.marketing.value) {
        return Err(Std(InvalidAddress));
      }
      marketingInfo := Some(MarketingInfo(m.project, m.description, m.marketing, logoInfo));
      r := Ok(());
    }

    /** One stored balance, absent meaning zero, lowered by a checked subtraction. */
    method SubBalance(a: Addr, n: Uint128) returns (r: Result<(), Error>)
      modifies this`balances
      ensures match Debit(old(balances), a, n)
              case Ok(b) => r == Ok(()) && balances == b
              case Err(error) => r == Err(error) && balances == old(balances)
    {
      var held := if a in balances then balances[a] else 0;
      if held < n {
        return Err(Std(Overflow));
      }
      balances := balances[a := held - n];
      r := Ok(());
    }

    /** The matching addition; checked and bare additions differ only in how they fail. */
    method AddBalance(a: Addr, n: Uint128, overflow: Error) returns (r: Result<(), Error>)
      modifies this`balances
      ensures match Credit(old(balances), a, n, overflow)
              case Ok(b) => r == Ok(()) && balances == b
              case Err(error) => r == Err(error) && balances == old(balances)
    {
      var held := if a in balances then balances[a] else 0;
      if held + n > U128_MAX {
        return Err(overflow);
      }
      balances := balances[a := held + n];
      r := Ok(());
    }

    method ReduceSupply(n: Uint128) returns (r: Result<(), Error>)
      modifies this`tokenInfo
      ensures match LowerSupply(old(tokenInfo), n)
              case Ok(info) => r == Ok(()) && tokenInfo == info
              case Err(error) => r == Err(error) && tokenInfo == old(tokenInfo)
    {
      if tokenInfo.None? {
        return Err(Std(NotFound));
      }
      if tokenInfo.value.supply < n {
        return Err(Std(Overflow));
      }
      tokenInfo := Some(tokenInfo.value.(supply := tokenInfo.value.supply - n));
      r := Ok(());
    }

    method DeductAllowance(owner: Addr, spender: Addr, block: Block, n: Uint128) returns (r: Result<(), Error>)
      modifies this`allowances, this`allowancesSpender
      ensures Meets(r, DeductBoth(old(State()), owner, spender, n, block))
    {
      var forward := Deducted(allowances, (owner, spender), n, block);
      if forward.Err? {
        return Err(forward.error);
      }
      allowances := forward.value;
      var reverse := Deducted(allowancesSpender, (spender, owner), n, block);
      if reverse.Err? {
        return Err(reverse.error);
      }
      allowancesSpender := reverse.value;
      r := Ok(());
    }

    method Transfer(ctx: Ctx, recipient: string, n: Uint128) returns (r: Result<(), Error>)
      modifies this`balances
      ensures Meets(r, ApplyTransfer(api, old(State()), ctx, recipient, n))
    {
      if n == 0 {
        return Err(InvalidZeroAmount);
      }
      if !api(recipient) {
        return Err(Std(InvalidAddress));
      }
      r := SubBalance(ctx.sender, n);
      if r.Ok? {
        r := AddBalance(recipient, n, Std(Overflow));
      }
    }

    method Burn(ctx: Ctx, n: Uint128) returns (r: Result<(), Error>)
      modifies this`balances, this`tokenInfo
      ensures Meets(r, ApplyBurn(old(State()), ctx, n))
    {
      if n == 0 {
        return Err(InvalidZeroAmount);
      }
      r := SubBalance(ctx.sender, n);
      if r.Ok? {
        r := ReduceSupply(n);
      }
    }

    /** The message to the receiving contract is a later step of the run. */
    method Send(ctx: Ctx, contract: string, n: Uint128) returns (r: Result<(), Error>)
      modifies this`balances
      ensures Meets(r, ApplyTransfer(api, old(State()), ctx, contract, n))
    {
      if n == 0 {
        return Err(InvalidZeroAmount);
      }
      if !api(contract) {
        return Err(Std(InvalidAddress));
      }
      r := SubBalance(ctx.sender, n);
      if r.Ok? {
        r := AddBalance(contract, n, Std(Overflow));
      }
    }

    method IncreaseAllowance(ctx: Ctx, spender: string, n: Uint128, expires: Option<Expiration>)
      returns (r: Result<(), Error>)
      modifies this`allowances, this`allowancesSpender
      ensures Meets(r, ApplyIncrease(api, old(State()), ctx, spender, n, expires))
    {
      if !api(spender) {
        return Err(Std(InvalidAddress));
      }
      if spender == ctx.sender {
        return Err(CannotSetOwnAccount);
      }
      var forward := Increased(allowances, (ctx.sender, spender), n, expires, ctx.block);
      if forward.Err? {
        return Err(forward.error);
      }
      allowances := forward.value;
      var reverse := Increased(allowancesSpender, (spender, ctx.sender), n, expires, ctx.block);
      if reverse.Err? {
        return Err(reverse.error);
      }
      allowancesSpender := reverse.value;
      r := Ok(());
    }

    method DecreaseAllowance(ctx: Ctx, spender: string, n: Uint128, expires: Option<Expiration>)
      returns (r: Result<(), Error>)
      modifies this`allowances, this`allowancesSpender
      ensures Meets(r, ApplyDecrease(old(State()), ctx, spender, n, expires))
    {
      if spender == ctx.sender {
        return Err(CannotSetOwnAccount);
      }
      var key, back := (ctx.sender, spender), (spender, ctx.sender);
      if key !in allowances {
        return Err(Std(NotFound));
      }
      var allowance := allowances[key];
      if n < allowance.amount {
        allowance := allowance.(amount := allowance.amount - n);
        if expires.Some? {
          if expires.value.IsExpired(ctx.block) {
            return Err(InvalidExpiration);
          }
          allowance := allowance.(expires := expires.value);
        }
        allowances := allowances[key := allowance];
        allowancesSpender := allowancesSpender[back := allowance];
      } else {
        allowances := allowances - {key};
        allowancesSpender := allowancesSpender - {back};
      }
      r := Ok(());
    }

    method TransferFrom(ctx: Ctx, owner: string, recipient: string, n: Uint128) returns (r: Result<(), Error>)
      modifies this`balances, this`allowances, this`allowancesSpender
      ensures Meets(r, ApplyTransferFrom(api, old(State()), ctx, owner, recipient, n))
    {
      if !api(recipient) || !api(owner) {
        return Err(Std(InvalidAddress));
      }
      if recipient == owner {
        return Ok(());
      }
      if ctx.sender != owner {
        r := DeductAllowance(owner, ctx.sender, ctx.block, n);
        if r.Err? {
          return r;
        }
      }
      r := SubBalance(owner, n);
      if r.Ok? {
        r := AddBalance(recipient, n, Panic);
      }
    }

    method SendFrom(ctx: Ctx, owner: string, contract: string, n: Uint128) returns (r: Result<(), Error>)
      modifies this`balances, this`allowances, this`allowancesSpender
      ensures Meets(r, ApplySendFrom(api, old(State()), ctx, owner, contract, n))
    {
      if !api(contract) || !api(owner) {
        return Err(Std(InvalidAddress));
      }
      r := DeductAllowance(owner, ctx.sender, ctx.block, n);
      if r.Err? {
        return r;
      }
      r := SubBalance(owner, n);
      if r.Ok? {
        r := AddBalance(contract, n, Panic);
      }
    }

    method BurnFrom(ctx: Ctx, owner: string, n: Uint128) returns (r: Result<(), Error>)
      modifies this`balances, this`tokenInfo, this`allowances, this`allowancesSpender
      ensures Meets(r, ApplyBurnFrom(api, old(State()), ctx, owner, n))
    {
      if !api(owner) {
        return Err(Std(InvalidAddress));
      }
      r := DeductAllowance(owner, ctx.sender, ctx.block, n);
      if r.Err? {
        return r;
      }
      r := SubBalance(owner, n);
      if r.Ok? {
        r := ReduceSupply(n);
      }
    }

    /** The new supply is stored before the recipient is validated. */
    method Mint(ctx: Ctx, recipient: string, n: Uint128) returns (r: Result<(), Error>)
      modifies this`balances, this`tokenInfo
      ensures Meets(r, ApplyMint(api, old(State()), ctx, recipient, n))
    {
      if n == 0 {
        return Err(InvalidZeroAmount);
      }
      if tokenInfo.None? || tokenInfo.value.mint.None? || tokenInfo.value.mint.value.minter != ctx.sender {
        return Err(Unauthorized);
      }
      var config := tokenInfo.value;
      if config.supply + n > U128_MAX {
        return Err(Panic);
      }
      config := config.(supply := config.supply + n);
      var cap := config.mint.value.cap;
      if cap.Some? && config.supply > cap.value {
        return Err(CannotExceedCap);
      }
      tokenInfo := Some(config);
      if !api(recipient) {
        return Err(Std(InvalidAddress));
      }
      r := AddBalance(recipient, n, Panic);
    }

    method UpdateMinter(ctx: Ctx, newMinter: Option<string>) returns (r: Result<(), Error>)
      modifies this`tokenInfo
      ensures Meets(r, ApplyUpdateMinter(api, old(State()), ctx, newMinter))
    {
      if tokenInfo.None? || tokenInfo.value.mint.None? || tokenInfo.value.mint.value.minter != ctx.sender {
        return Err(Unauthorized);
      }
      var config := tokenInfo.value;
      var minterData: Option<MinterData> := None;
      if newMinter.Some? {
        if !api(newMinter.value) {
          return Err(Std(InvalidAddress));
        }
        minterData := Some(MinterData(newMinter.value, config.mint.value.cap));
      }
      tokenInfo := Some(config.(mint := minterData));
      r := Ok(());
    }

    method UpdateMarketing(
      ctx: Ctx, project: Option<string>, description: Option<string>, marketing: Option<string>)
      returns (r: Result<(), Error>)
      modifies this`marketingInfo
      ensures Meets(r, ApplyUpdateMarketing(api, old(State()), ctx, project, description, marketing))
    {
      if marketingInfo.None? {
        return Err(Unauthorized);
      }
      var info := marketingInfo.value;
      if info.marketing.None? || info.marketing.value != ctx.sender {
        return Err(Unauthorized);
      }
      if project.Some? {
        info := info.(project := if Blank(project.value) then None else project);
      }
      if description.Some? {
        info := info.(description := if Blank(description.value) then None else description);
      }
      if marketing.Some? {
        if Blank(marketing.value) {
          info := info.(marketing := None);
        } else if api(marketing.value) {
          info := info.(marketing := marketing);
        } else {
          return Err(Std(InvalidAddress));
        }
      }
      if info.project.None? && info.description.None? && info.marketing.None? && info.logo.None? {
        marketingInfo := None;
      } else {
        marketingInfo := Some(info);
      }
      r := Ok(());
    }

    method UploadLogo(ctx: Ctx, newLogo: Logo) returns (r: Result<(), Error>)
      modifies this`marketingInfo, this`logo
      ensures Meets(r, ApplyUploadLogo(old(State()), ctx, newLogo))
    {
      if marketingInfo.None? {
        return Err(Unauthorized);
      }
      var info := marketingInfo.value;
      var verified := VerifyLogo(newLogo);
      if verified.Err? {
        return verified;
      }
      if info.marketing.None? || info.marketing.value != ctx.sender {
        return Err(Unauthorized);
      }
      logo := Some(newLogo);
      marketingInfo := Some(info.(logo := Some(InfoOf(newLogo))));
      r := Ok(());
    }

    /** The loop of the migration; the collected rows may be saved in any order. */
    method RebuildSpenderIndex()
      modifies this`allowancesSpender
      ensures allowancesSpender == old(allowancesSpender) + Reversed(allowances)
    {
      var data := allowances.Keys;
      ghost var start := allowancesSpender;
      ghost var done: set<(Addr, Addr)> := {};
      while data != {}
        invariant data !! done && data + done == allowances.Keys
        invariant Saved(start, allowances, done, allowancesSpender)
        decreases |data|
      {
        var key :| key in data;
        SaveOneMore(start, allowances, done, allowancesSpender, key);
        allowancesSpender := allowancesSpender[(key.1, key.0) := allowances[key]];
        data, done := data - {key}, done + {key};
      }
      AllSaved(start, allowances, allowancesSpender);
    }

    method Migrate() returns (r: Result<(), Error>)
      modifies this`version, this`allowancesSpender
      ensures Meets(r, MigrateTo(old(State()), CONTRACT_VERSION))
    {
      if version.None? {
        return Err(Std(NotFound));
      }
      var original := version.value;
      if original.contract != CONTRACT_NAME || CONTRACT_VERSION.Older(original.version) {
        return Err(Std(Generic));
      }
      version := Some(ContractVersion(CONTRACT_NAME, CONTRACT_VERSION));
      if original.version.Older(REVERSE_INDEX_SINCE) {
        RebuildSpenderIndex();
      }
      r := Ok(());
    }

    method HandleAllowances(e: Event) returns (r: Result<(), Error>)
      requires e.msg.IncreaseAllowance? || e.msg.DecreaseAllowance?
               || e.msg.TransferFrom? || e.msg.SendFrom? || e.msg.BurnFrom?
      modifies this
      ensures Meets(r, Apply(api, old(State()), e))
    {
      match e.msg {
        case IncreaseAllowance(spender, n, expires) => r := IncreaseAllowance(e.ctx, spender, n, expires);
        case DecreaseAllowance(spender, n, expires) => r := DecreaseAllowance(e.ctx, spender, n, expires);
        case TransferFrom(owner, recipient, n) => r := TransferFrom(e.ctx, owner, recipient, n);
        case SendFrom(owner, contract, n) => r := SendFrom(e.ctx, owner, contract, n);
        case BurnFrom(owner, n) => r := BurnFrom(e.ctx, owner, n);
      }
    }

    method HandleMintingOrMarketing(e: Event) returns (r: Result<(), Error>)
      requires e.msg.Mint? || e.msg.UpdateMinter? || e.msg.UpdateMarketing? || e.msg.UploadLogo?
      modifies this
      ensures Meets(r, Apply(api, old(State()), e))
    {
      match e.msg {
        case Mint(recipient, n) => r := Mint(e.ctx, recipient, n);
        case UpdateMinter(newMinter) => r := UpdateMinter(e.ctx, newMinter);
        case UpdateMarketing(project, description, marketing) =>
          r := UpdateMarketing(e.ctx, project, description, marketing);
        case UploadLogo(newLogo) => r := UploadLogo(e.ctx, newLogo);
      }
    }

    method Handle(e: Event) returns (r: Result<(), Error>)
      modifies this
      ensures Meets(r, Apply(api, old(State()), e))
    {
      match e.msg {
        case Transfer(recipient, n) => r := Transfer(e.ctx, recipient, n);
        case Burn(n) => r := Burn(e.ctx, n);
        case Send(contract, n) => r := Send(e.ctx, contract, n);
        case Migrate => r := Migrate();
        case Mint(_, _) => r := HandleMintingOrMarketing(e);
        case UpdateMinter(_) => r := HandleMintingOrMarketing(e);
        case UpdateMarketing(_, _, _) => r := HandleMintingOrMarketing(e);
        case UploadLogo(_) => r := HandleMintingOrMarketing(e);
        case _ => r := HandleAllowances(e);
      }
    }

    /** One message as the chain runs it: what a failing handler wrote is discarded. */
    method Execute(e: Event) returns (r: Result<(), Error>)
      modifies this
      ensures r.Ok? <==> Apply(api, old(State()), e).Ok?
      ensures r.Err? ==> r.error == Apply(api, old(State()), e).error
      ensures State() == Next(api, old(State()), e)
    {
      var saved := State();
      r := Handle(e);
      if r.Err? {
        version, tokenInfo, balances := saved.version, saved.info, saved.balances;
        allowances, allowancesSpender := saved.allowances, saved.spenderIndex;
        marketingInfo, logo := saved.marketing, saved.logo;
      }
    }
  }

  /** `index` is `start` with the entries of `done` written over it, addresses swapped. */
  ghost predicate Saved(start: Allowances, m: Allowances, done: set<(Addr, Addr)>, index: Allowances) {
    && done <= m.Keys
    && (forall a, b :: (b, a) in index <==> (a, b) in done || (b, a) in start)
    && (forall a, b :: (a, b) in done ==> (b, a) in index && index[(b, a)] == m[(a, b)])
    && (forall a, b :: (b, a) in start && (a, b) !in done ==> (b, a) in index && index[(b, a)] == start[(b, a)])
  }

  lemma {:induction false} SaveOneMore(
    start: Allowances, m: Allowances, done: set<(Addr, Addr)>, index: Allowances, key: (Addr, Addr))
    requires key in m && Saved(start, m, done, index)
    ensures Saved(start, m, done + {key}, index[(key.1, key.0) := m[key]])
  {
    assert key == (key.0, key.1);
  }

  lemma {:induction false} AllSaved(start: Allowances, m: Allowances, index: Allowances)
    requires Saved(start, m, m.Keys, index)
    ensures index == start + Reversed(m)
  {
    var merged := start + Reversed(m);
    forall k | k in merged || k in index ensures k in merged && k in index && merged[k] == index[k] {
      assert k == (k.0, k.1);
      if (k.1, k.0) in m { assert ((k.1, k.0).1, (k.1, k.0).0) == k; }
    }
  }
}
