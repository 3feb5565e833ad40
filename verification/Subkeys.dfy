/** The cw1-subkeys contract: admins give spenders expiring allowances in several denominations. */
module Subkeys {
  import opened Prelude
  import opened Chain
  import opened Whitelist
  import opened Paging

  datatype Error =
    | Std
    | Panic // a bare `+` on Uint128 aborts the call
    | Unauthorized
    | ContractFrozen
    | CannotSetOwnAccount
    | NoAllowance
    | SettingExpiredAllowance(expires: Expiration)

  function FromWhitelist(error: Whitelist.Error): Error {
    match error
    case Std => Error.Std
    case Unauthorized => Error.Unauthorized
    case ContractFrozen => Error.ContractFrozen
  }

  function Forwarded<T>(r: Result<T, Whitelist.Error>): Result<T, Error> {
    match r
    case Ok(value) => Ok(value)
    case Err(error) => Err(FromWhitelist(error))
  }

  /** A `NativeBalance`, as the amount under each denomination it lists. */
  type Balance = map<string, Uint128>

  datatype Coin = Coin(denom: string, amount: Uint128)

  datatype Allowance = Allowance(balance: Balance, expires: Expiration)

  datatype Permissions = Permissions(delegate: bool, redelegate: bool, undelegate: bool, withdraw: bool)

  datatype SubkeysState = SubkeysState(
    admin: AdminState,
    permissions: map<Addr, Permissions>,
    allowances: map<Addr, Allowance>)

  datatype StakingKind = Delegate | Undelegate | Redelegate | OtherStaking

  datatype DistributionKind = SetWithdrawAddress | WithdrawDelegatorReward | OtherDistribution

  datatype CosmosMsg =
    | BankSend(coins: seq<Coin>)
    | Staking(staking: StakingKind)
    | Distribution(distribution: DistributionKind)
    | OtherMsg

  datatype Ctx = Ctx(sender: Addr, block: Block)

  datatype SubkeysMsg =
    | Admin(msg: Whitelist.Msg)
    | IncreaseAllowance(spender: string, coin: Coin, expires: Option<Expiration>)
    | DecreaseAllowance(spender: string, coin: Coin, expires: Option<Expiration>)
    | SetPermissions(spender: string, permissions: Permissions)
    | Execute(msgs: seq<CosmosMsg>)

  datatype Call = Call(ctx: Ctx, msg: SubkeysMsg)

  function AmountOf(b: Balance, denom: string): Uint128 {
    if denom in b then b[denom] else 0
  }

  /** `balance += coin` */
  function AddCoin(b: Balance, c: Coin): Result<Balance, Error> {
    if AmountOf(b, c.denom) + c.amount > U128_MAX then Err(Panic)
    else Ok(b[c.denom := AmountOf(b, c.denom) + c.amount])
  }

  /** `balance.sub_saturating(coin)`: tolerates too large an amount, but not a missing denomination. */
  function SubSaturating(b: Balance, c: Coin): Result<Balance, Error> {
    if c.denom !in b then Err(Error.Std)
    else if b[c.denom] <= c.amount then Ok(b - {c.denom})
    else Ok(b[c.denom := b[c.denom] - c.amount])
  }

  predicate IsEmpty(b: Balance) {
    forall d :: d in b ==> b[d] == 0
  }

  /** `balance - coin`, which drops a denomination that reaches zero. */
  function SubCoin(b: Balance, c: Coin): Result<Balance, Error> {
    if c.denom !in b || b[c.denom] < c.amount then Err(Error.Std)
    else if b[c.denom] == c.amount then Ok(b - {c.denom})
    else Ok(b[c.denom := b[c.denom] - c.amount])
  }

  /** `balance - coins`, coin by coin. */
  function SubCoins(b: Balance, coins: seq<Coin>): Result<Balance, Error>
    decreases |coins|
  {
    if coins == [] then Ok(b)
    else
      var rest :- SubCoin(b, coins[0]);
      SubCoins(rest, coins[1..])
  }

  /* ---- messages ---- */

  function Raised(stored: Option<Allowance>, c: Coin, expires: Option<Expiration>, block: Block)
    : Result<Allowance, Error>
  {
    var prevExpires := if stored.Some? then stored.value.expires else Never;
    var live :=
      if stored.Some? && !stored.value.expires.IsExpired(block) then stored.value else Allowance(map[], Never);
    if expires.Some? && expires.value.IsExpired(block) then Err(SettingExpiredAllowance(expires.value))
    else if expires.None? && prevExpires.IsExpired(block) then Err(SettingExpiredAllowance(prevExpires))
    else
      var balance :- AddCoin(live.balance, c);
      Ok(Allowance(balance, expires.GetOr(live.expires)))
  }

  function Lowered(stored: Option<Allowance>, c: Coin, expires: Option<Expiration>, block: Block)
    : Result<Allowance, Error>
  {
    if stored.None? || stored.value.expires.IsExpired(block) then Err(NoAllowance)
    else if expires.Some? && expires.value.IsExpired(block) then Err(SettingExpiredAllowance(expires.value))
    else
      var balance :- SubSaturating(stored.value.balance, c);
      Ok(Allowance(balance, expires.GetOr(stored.value.expires)))
  }

  function Lookup<V>(m: map<Addr, V>, a: Addr): Option<V> {
    if a in m then Some(m[a]) else None
  }

  /** The checks shared by the three admin messages about a spender. */
  ghost function ForSpender(api: AddrCheck, s: SubkeysState, ctx: Ctx, spender: string): Result<Addr, Error> {
    if ctx.sender !in s.admin.admins then Err(Error.Unauthorized)
    else if !api(spender) then Err(Error.Std)
    else if ctx.sender == spender then Err(CannotSetOwnAccount)
    else Ok(spender)
  }

  /** Admins may do anything; a subkey needs a covering allowance or a permission. Nothing is deducted. */
  ghost predicate Authorized(s: SubkeysState, block: Block, sender: Addr, msg: CosmosMsg) {
    sender in s.admin.admins ||
    match msg
    case BankSend(coins) =>
      && sender in s.allowances && !s.allowances[sender].expires.IsExpired(block)
      && SubCoins(s.allowances[sender].balance, coins).Ok?
    case Staking(kind) =>
      sender in s.permissions &&
      match kind {
        case Delegate => s.permissions[sender].delegate
        case Undelegate => s.permissions[sender].undelegate
        case Redelegate => s.permissions[sender].redelegate
        case OtherStaking => false
      }
    case Distribution(kind) => sender in s.permissions && s.permissions[sender].withdraw && !kind.OtherDistribution?
    case OtherMsg => false
  }

  ghost function ApplyCall(api: AddrCheck, s: SubkeysState, e: Call): Result<SubkeysState, Error> {
    match e.msg
    case Admin(msg) =>
      var admin :- Forwarded(Whitelist.Apply(api, s.admin, Whitelist.Event(e.ctx.sender, msg)));
      Ok(s.(admin := admin))
    case IncreaseAllowance(spender, coin, expires) =>
      var sp :- ForSpender(api, s, e.ctx, spender);
      var allowance :- Raised(Lookup(s.allowances, sp), coin, expires, e.ctx.block);
      Ok(s.(allowances := s.allowances[sp := allowance]))
    case DecreaseAllowance(spender, coin, expires) =>
      var sp :- ForSpender(api, s, e.ctx, spender);
      var allowance :- Lowered(Lookup(s.allowances, sp), coin, expires, e.ctx.block);
      Ok(s.(allowances := if IsEmpty(allowance.balance) then s.allowances - {sp} else s.allowances[sp := allowance]))
    case SetPermissions(spender, permissions) =>
      var sp :- ForSpender(api, s, e.ctx, spender);
      Ok(s.(permissions := s.permissions[sp := permissions]))
    case Execute(msgs) =>
      if forall m :: m in msgs ==> Authorized(s, e.ctx.block, e.ctx.sender, m) then Ok(s) else Err(Error.Unauthorized)
  }

  ghost function NextCall(api: AddrCheck, s: SubkeysState, e: Call): SubkeysState {
    match ApplyCall(api, s, e)
    case Ok(after) => after
    case Err(_) => s
  }

  ghost function RunCalls(api: AddrCheck, s: SubkeysState, es: seq<Call>): SubkeysState
    decreases |es|
  {
    if es == [] then s else RunCalls(api, NextCall(api, s, es[0]), es[1..])
  }

  /* ---- one call ---- */

  /** Why an admin's message about a spender is refused before anything is looked up. */
  ghost function SpenderRefusal(api: AddrCheck, s: SubkeysState, ctx: Ctx, spender: string): Option<Error> {
    if ctx.sender !in s.admin.admins then Some(Error.Unauthorized)
    else if !api(spender) then Some(Error.Std)
    else if spender == ctx.sender then Some(CannotSetOwnAccount)
    else None
  }

  ghost predicate HasLive(s: SubkeysState, block: Block, spender: Addr) {
    spender in s.allowances && Live(s.allowances[spender].expires, block)
  }

  /** Why a call is refused, if it is. */
  ghost function Refusal(api: AddrCheck, s: SubkeysState, e: Call): Option<Error> {
    var block := e.ctx.block;
    match e.msg
    case Admin(msg) =>
      var refusal := Whitelist.Refusal(api, s.admin, Whitelist.Event(e.ctx.sender, msg));
      if refusal.Some? then Some(FromWhitelist(refusal.value)) else None
    case IncreaseAllowance(spender, coin, expires) =>
      if SpenderRefusal(api, s, e.ctx, spender).Some? then SpenderRefusal(api, s, e.ctx, spender)
      else if expires.Some? && !Live(expires.value, block) then Some(SettingExpiredAllowance(expires.value))
      else if expires.None? && spender in s.allowances && !HasLive(s, block, spender)
      then Some(SettingExpiredAllowance(s.allowances[spender].expires))
      else if HasLive(s, block, spender) && AmountOf(s.allowances[spender].balance, coin.denom) + coin.amount > LARGEST
      then Some(Panic)
      else None
    case DecreaseAllowance(spender, coin, expires) =>
      if SpenderRefusal(api, s, e.ctx, spender).Some? then SpenderRefusal(api, s, e.ctx, spender)
      else if !HasLive(s, block, spender) then Some(NoAllowance)
      else if expires.Some? && !Live(expires.value, block) then Some(SettingExpiredAllowance(expires.value))
      else if coin.denom !in s.allowances[spender].balance then Some(Error.Std)
      else None
    case SetPermissions(spender, _) => SpenderRefusal(api, s, e.ctx, spender)
    case Execute(msgs) =>
      if exists m :: m in msgs && !Authorized(s, block, e.ctx.sender, m) then Some(Error.Unauthorized) else None
  }

  /** A call is refused for exactly that reason. */
  lemma {:induction false} CallAccepted(api: AddrCheck, s: SubkeysState, e: Call)
    ensures ApplyCall(api, s, e).Ok? <==> Refusal(api, s, e).None?
    ensures ApplyCall(api, s, e).Err? ==> Refusal(api, s, e) == Some(ApplyCall(api, s, e).error)
  {
    if e.msg.Admin? { StepByAdmin(api, s.admin, Whitelist.Event(e.ctx.sender, e.msg.msg)); }
  }

  /** The spender a message is about. */
  ghost function About(msg: SubkeysMsg): Option<string> {
    match msg
    case IncreaseAllowance(spender, _, _) => Some(spender)
    case DecreaseAllowance(spender, _, _) => Some(spender)
    case SetPermissions(spender, _) => Some(spender)
    case _ => None
  }

  ghost predicate SameEntry<V>(before: map<Addr, V>, after: map<Addr, V>, a: Addr) {
    (a in after <==> a in before) && (a in before ==> after[a] == before[a])
  }

  /** Only an admin's message about somebody else changes an entry, and only that spender's; the
      admins change only by a message for them. */
  lemma {:induction false} EntriesChangeByAdmin(api: AddrCheck, s: SubkeysState, e: Call, a: Addr)
    ensures var after := NextCall(api, s, e);
            && (!SameEntry(s.allowances, after.allowances, a) || !SameEntry(s.permissions, after.permissions, a) ==>
                  e.ctx.sender in s.admin.admins && e.ctx.sender != a && About(e.msg) == Some(a))
            && (!SameEntry(s.allowances, after.allowances, a) ==> !e.msg.SetPermissions?)
            && (!SameEntry(s.permissions, after.permissions, a) ==> e.msg.SetPermissions?)
            && (after.admin != s.admin ==> e.msg.Admin? && e.ctx.sender in s.admin.admins)
  {
    if e.msg.Admin? { StepByAdmin(api, s.admin, Whitelist.Event(e.ctx.sender, e.msg.msg)); }
  }

  /** What an accepted message about a spender leaves: the date asked for or the one still running,
      the denominations listed, no entry without tokens, and the permissions asked for. The amounts
      are those of StepEffective. */
  lemma {:induction false} SpenderEntry(api: AddrCheck, s: SubkeysState, e: Call)
    requires ApplyCall(api, s, e).Ok? && About(e.msg).Some?
    ensures var (sp, after) := (About(e.msg).value, NextCall(api, s, e));
            match e.msg
            case IncreaseAllowance(_, coin, expires) =>
              var live := HasLive(s, e.ctx.block, sp);
              && sp in after.allowances
              && after.allowances[sp].expires == expires.GetOr(if live then s.allowances[sp].expires else Never)
              && after.allowances[sp].balance.Keys
                 == (if live then s.allowances[sp].balance.Keys else {}) + {coin.denom}
            case DecreaseAllowance(_, coin, expires) =>
              var held := s.allowances[sp].balance;
              && (sp in after.allowances <==>
                    exists d :: d in held && held[d] > if d == coin.denom then coin.amount else 0)
              && (sp in after.allowances ==>
                    && after.allowances[sp].expires == expires.GetOr(s.allowances[sp].expires)
                    && after.allowances[sp].balance.Keys
                       == if held[coin.denom] > coin.amount then held.Keys else held.Keys - {coin.denom})
            case SetPermissions(_, permissions) =>
              sp in after.permissions && after.permissions[sp] == permissions
  {
    if e.msg.DecreaseAllowance? {
      var (sp, coin) := (e.msg.spender, e.msg.coin);
      var held := s.allowances[sp].balance;
      var left := SubSaturating(held, coin).value;
      assert IsEmpty(left) <==> !exists d :: d in held && held[d] > if d == coin.denom then coin.amount else 0 by {
        if d :| d in held && held[d] > if d == coin.denom then coin.amount else 0 {
          assert d in left && left[d] > 0;
        }
        if d :| d in left && left[d] > 0 {
          assert d in held;
        }
      }
    }
  }

  /** The i-th call of a run is a message about `a` from an admin of that moment. */
  ghost predicate AdminActs(api: AddrCheck, s: SubkeysState, es: seq<Call>, i: nat, a: Addr) {
    && i < |es| && About(es[i].msg) == Some(a)
    && es[i].ctx.sender in RunCalls(api, s, es[..i]).admin.admins
  }

  /** Over any run an account's allowance and permissions change only if an admin of some moment
      sends a message about it. */
  lemma {:induction false} RunEntriesChangeByAdmin(api: AddrCheck, s: SubkeysState, es: seq<Call>, a: Addr)
    ensures var after := RunCalls(api, s, es);
            !SameEntry(s.allowances, after.allowances, a) || !SameEntry(s.permissions, after.permissions, a) ==>
              exists i: nat :: AdminActs(api, s, es, i, a)
    decreases |es|
  {
    if es != [] {
      var (next, rest) := (NextCall(api, s, es[0]), es[1..]);
      EntriesChangeByAdmin(api, s, es[0], a);
      RunEntriesChangeByAdmin(api, next, rest, a);
      if !SameEntry(s.allowances, next.allowances, a) || !SameEntry(s.permissions, next.permissions, a) {
        assert es[..0] == [];
        assert AdminActs(api, s, es, 0, a);
      }
      if i: nat :| AdminActs(api, next, rest, i, a) {
        assert es[..i + 1][1..] == rest[..i];
        assert AdminActs(api, s, es, i + 1, a);
      }
    }
  }

  /* ---- effective balances over a moving clock ---- */

  /** The `allowance` query: the default, empty one once expired. */
  function QueryAllowance(s: SubkeysState, block: Block, spender: string): Allowance {
    if spender in s.allowances && !s.allowances[spender].expires.IsExpired(block)
    then s.allowances[spender] else Allowance(map[], Never)
  }

  ghost function Effective(s: SubkeysState, block: Block, spender: Addr, denom: string): Uint128 {
    AmountOf(QueryAllowance(s, block, spender).balance, denom)
  }

  ghost function Increase(api: AddrCheck, s: SubkeysState, e: Call, spender: Addr, denom: string): nat {
    if e.msg.IncreaseAllowance? && e.msg.spender == spender && e.msg.coin.denom == denom && ApplyCall(api, s, e).Ok?
    then e.msg.coin.amount else 0
  }

  ghost function Decrease(api: AddrCheck, s: SubkeysState, e: Call, spender: Addr, denom: string): nat {
    if e.msg.DecreaseAllowance? && e.msg.spender == spender && e.msg.coin.denom == denom && ApplyCall(api, s, e).Ok?
    then
      var held := Effective(s, e.ctx.block, spender, denom);
      if e.msg.coin.amount < held then e.msg.coin.amount else held
    else 0
  }

  /** At the block of a message, it moves an effective balance by exactly what it announces; an
      increase leaves the allowance unexpired there. */
  lemma {:induction false} StepEffective(api: AddrCheck, s: SubkeysState, e: Call, spender: Addr, denom: string)
    ensures Effective(NextCall(api, s, e), e.ctx.block, spender, denom) + Decrease(api, s, e, spender, denom)
            == Effective(s, e.ctx.block, spender, denom) + Increase(api, s, e, spender, denom)
    ensures e.msg.IncreaseAllowance? && e.msg.spender == spender && ApplyCall(api, s, e).Ok? ==>
              var after := NextCall(api, s, e).allowances;
              spender in after && !after[spender].expires.IsExpired(e.ctx.block)
  {
    match e.msg
    case IncreaseAllowance(sp, coin, expires) =>
    case DecreaseAllowance(sp, coin, expires) =>
      if ApplyCall(api, s, e).Ok? && sp == spender {
        LoweredAmount(s.allowances[sp].balance, coin, denom);
      }
    case _ => assert NextCall(api, s, e).allowances == s.allowances;
  }

  lemma {:induction false} LoweredAmount(b: Balance, c: Coin, denom: string)
    requires SubSaturating(b, c).Ok?
    ensures var held := AmountOf(b, denom);
            AmountOf(SubSaturating(b, c).value, denom)
            == if denom != c.denom then held else if c.amount < held then held - c.amount else 0
  {
  }

  /** The clock alone only lowers an effective balance. */
  lemma {:induction false} ClockOnlyExpires(s: SubkeysState, earlier: Block, later: Block, spender: Addr, denom: string)
    requires later.NotBefore(earlier)
    ensures Effective(s, later, spender, denom) <= Effective(s, earlier, spender, denom)
  {
    if spender in s.allowances { ExpiryIsMonotone(s.allowances[spender].expires, earlier, later); }
  }

  ghost predicate ClockRuns(from: Block, es: seq<Call>, to: Block)
    decreases |es|
  {
    if es == [] then to.NotBefore(from)
    else es[0].ctx.block.NotBefore(from) && ClockRuns(es[0].ctx.block, es[1..], to)
  }

  ghost function Increases(api: AddrCheck, s: SubkeysState, es: seq<Call>, spender: Addr, denom: string): nat
    decreases |es|
  {
    if es == [] then 0
    else Increase(api, s, es[0], spender, denom) + Increases(api, NextCall(api, s, es[0]), es[1..], spender, denom)
  }

  ghost function Decreases(api: AddrCheck, s: SubkeysState, es: seq<Call>, spender: Addr, denom: string): nat
    decreases |es|
  {
    if es == [] then 0
    else Decrease(api, s, es[0], spender, denom) + Decreases(api, NextCall(api, s, es[0]), es[1..], spender, denom)
  }

  /** Under a clock that never runs back, an effective balance never exceeds what it was plus the
      later increases minus the later decreases. */
  lemma {:induction false} EffectiveIsBounded(
    api: AddrCheck, s: SubkeysState, from: Block, es: seq<Call>, to: Block, spender: Addr, denom: string)
    requires ClockRuns(from, es, to)
    ensures Effective(RunCalls(api, s, es), to, spender, denom) + Decreases(api, s, es, spender, denom)
            <= Effective(s, from, spender, denom) + Increases(api, s, es, spender, denom)
    decreases |es|
  {
    if es == [] {
      ClockOnlyExpires(s, from, to, spender, denom);
    } else {
      ClockOnlyExpires(s, from, es[0].ctx.block, spender, denom);
      StepEffective(api, s, es[0], spender, denom);
      EffectiveIsBounded(api, NextCall(api, s, es[0]), es[0].ctx.block, es[1..], to, spender, denom);
    }
  }

  /** Once an allowance has expired, only increases made after that are ever available. */
  lemma {:induction false} ExpiredIsGone(
    api: AddrCheck, s: SubkeysState, from: Block, es: seq<Call>, to: Block, spender: Addr, denom: string)
    requires ClockRuns(from, es, to)
    requires spender in s.allowances && s.allowances[spender].expires.IsExpired(from)
    ensures Effective(RunCalls(api, s, es), to, spender, denom) <= Increases(api, s, es, spender, denom)
  {
    EffectiveIsBounded(api, s, from, es, to, spender, denom);
  }

  /** The admin messages of a run. */
  ghost function AdminEvents(es: seq<Call>): seq<Whitelist.Event> {
    if es == [] then []
    else AdminEvents(es[..|es| - 1]) + AdminEvent(es[|es| - 1])
  }

  ghost function AdminEvent(e: Call): seq<Whitelist.Event> {
    if e.msg.Admin? then [Whitelist.Event(e.ctx.sender, e.msg.msg)] else []
  }

  lemma {:induction false} RunCallsSplits(api: AddrCheck, s: SubkeysState, es: seq<Call>, e: Call)
    ensures RunCalls(api, s, es + [e]) == NextCall(api, RunCalls(api, s, es), e)
    decreases |es|
  {
    if es == [] {
      assert es + [e] == [e];
      assert RunCalls(api, NextCall(api, s, e), []) == NextCall(api, s, e);
    } else {
      RunCallsSplits(api, NextCall(api, s, es[0]), es[1..], e);
      assert (es + [e])[1..] == es[1..] + [e];
    }
  }

  lemma {:induction false} AdminOfNext(api: AddrCheck, s: SubkeysState, e: Call)
    ensures NextCall(api, s, e).admin == Whitelist.Run(api, s.admin, AdminEvent(e))
  {
    if e.msg.Admin? {
      var event := Whitelist.Event(e.ctx.sender, e.msg.msg);
      assert [event][..0] == [];
      assert Whitelist.Run(api, s.admin, []) == s.admin;
      assert Whitelist.Run(api, s.admin, [event]) == Whitelist.Next(api, s.admin, event);
    }
  }

  /** The embedded admin list runs exactly the whitelist machine on the admin messages alone. */
  lemma {:induction false} AdminsRunAsWhitelist(api: AddrCheck, s: SubkeysState, es: seq<Call>)
    ensures RunCalls(api, s, es).admin == Whitelist.Run(api, s.admin, AdminEvents(es))
    decreases |es|
  {
    if es != [] {
      var (init, last) := (es[..|es| - 1], es[|es| - 1]);
      assert es == init + [last];
      RunCallsSplits(api, s, init, last);
      AdminsRunAsWhitelist(api, s, init);
      AdminOfNext(api, RunCalls(api, s, init), last);
      RunSplits(api, s.admin, AdminEvents(init), AdminEvent(last));
    }
  }

  /* ---- authorization ---- */

  ghost function TotalOf(coins: seq<Coin>, denom: string): nat {
    if coins == [] then 0
    else (if coins[0].denom == denom then coins[0].amount else 0) + TotalOf(coins[1..], denom)
  }

  /** The i-th coin still finds its denomination listed: it is held at first, and the earlier
      coins of the same denomination, if any, have not used all of it up. */
  ghost predicate Listed(b: Balance, coins: seq<Coin>, i: nat)
    requires i < |coins|
  {
    var d := coins[i].denom;
    d in b && ((forall k :: 0 <= k < i ==> coins[k].denom != d) || TotalOf(coins[..i], d) < b[d])
  }

  ghost predicate Covered(b: Balance, coins: seq<Coin>) {
    forall d :: TotalOf(coins, d) <= AmountOf(b, d)
  }

  ghost predicate AllListed(b: Balance, coins: seq<Coin>) {
    forall i :: 0 <= i < |coins| ==> Listed(b, coins, i)
  }

  /** A send subtracts cleanly exactly when it asks for no more than is held of any denomination
      and every coin, zero coins included, still finds its denomination listed. */
  lemma {:induction false} SubCoinsCovers(b: Balance, coins: seq<Coin>)
    ensures SubCoins(b, coins).Ok? <==> Covered(b, coins) && AllListed(b, coins)
    decreases |coins|
  {
    if coins != [] {
      var (c, rest) := (coins[0], coins[1..]);
      if SubCoin(b, c).Ok? {
        SubCoinsCovers(SubCoin(b, c).value, rest);
        CoveredAfter(b, coins);
        ListedAfter(b, coins);
      } else if c.denom in b {
        assert TotalOf(coins, c.denom) > AmountOf(b, c.denom);
      } else {
        assert !Listed(b, coins, 0);
      }
    }
  }

  lemma {:induction false} CoveredAfter(b: Balance, coins: seq<Coin>)
    requires coins != [] && SubCoin(b, coins[0]).Ok?
    ensures Covered(b, coins) <==> Covered(SubCoin(b, coins[0]).value, coins[1..])
  {
    var (c, rest) := (coins[0], coins[1..]);
    var left := SubCoin(b, c).value;
    forall d ensures TotalOf(coins, d) <= AmountOf(b, d) <==> TotalOf(rest, d) <= AmountOf(left, d) {
      assert AmountOf(left, d) == AmountOf(b, d) - if d == c.denom then c.amount else 0;
      assert TotalOf(coins, d) == TotalOf(rest, d) + if d == c.denom then c.amount else 0;
    }
  }

  lemma {:induction false} ListedAfter(b: Balance, coins: seq<Coin>)
    requires coins != [] && SubCoin(b, coins[0]).Ok?
    ensures AllListed(b, coins) <==> AllListed(SubCoin(b, coins[0]).value, coins[1..])
  {
    var (left, rest) := (SubCoin(b, coins[0]).value, coins[1..]);
    forall i: nat | i < |rest| ensures Listed(b, coins, i + 1) <==> Listed(left, rest, i) {
      ListedShifts(b, coins, i);
    }
    assert Listed(b, coins, 0);
    if AllListed(left, rest) {
      forall i | 0 <= i < |coins| ensures Listed(b, coins, i) {
        if i > 0 { assert Listed(left, rest, i - 1); }
      }
    }
  }

  lemma {:induction false} ListedShifts(b: Balance, coins: seq<Coin>, i: nat)
    requires i + 1 < |coins| && SubCoin(b, coins[0]).Ok?
    ensures Listed(b, coins, i + 1) <==> Listed(SubCoin(b, coins[0]).value, coins[1..], i)
  {
    var (c, rest) := (coins[0], coins[1..]);
    var d := rest[i].denom;
    assert coins[..i + 1][1..] == rest[..i];
    assert TotalOf(coins[..i + 1], d) == TotalOf(rest[..i], d) + if d == c.denom then c.amount else 0;
    assert (forall k :: 0 <= k < i + 1 ==> coins[k].denom != d)
      <==> c.denom != d && forall k :: 0 <= k < i ==> rest[k].denom != d by {
      if c.denom != d && forall k :: 0 <= k < i ==> rest[k].denom != d {
        forall k | 0 <= k < i + 1 ensures coins[k].denom != d {
          if k > 0 { assert rest[k - 1] == coins[k]; }
        }
      }
    }
    if forall k :: 0 <= k < i ==> rest[k].denom != d { NoneOf(rest[..i], d); }
  }

  lemma {:induction false} NoneOf(coins: seq<Coin>, d: string)
    requires forall k :: 0 <= k < |coins| ==> coins[k].denom != d
    ensures TotalOf(coins, d) == 0
  {
    if coins != [] { NoneOf(coins[1..], d); }
  }

  lemma {:induction false} TotalAtLeast(coins: seq<Coin>, i: nat)
    requires i < |coins|
    ensures TotalOf(coins[..i], coins[i].denom) + coins[i].amount <= TotalOf(coins, coins[i].denom)
  {
    if i > 0 {
      TotalAtLeast(coins[1..], i - 1);
      assert coins[..i][1..] == coins[1..][..i - 1];
    }
  }

  /** Without zero coins the totals alone decide. */
  lemma {:induction false} PositiveSendCovered(b: Balance, coins: seq<Coin>)
    requires forall c :: c in coins ==> c.amount > 0
    ensures SubCoins(b, coins).Ok? <==> Covered(b, coins)
  {
    SubCoinsCovers(b, coins);
    if Covered(b, coins) {
      forall i | 0 <= i < |coins| ensures Listed(b, coins, i) {
        TotalAtLeast(coins, i);
        assert coins[i] in coins;
        assert TotalOf(coins, coins[i].denom) <= AmountOf(b, coins[i].denom);
      }
    }
  }

  /** A zero coin after its denomination has been spent makes a covered send fail. */
  lemma {:induction false} ZeroCoinRefused()
    ensures var (b, coins) := (map["u" := 5], [Coin("u", 5), Coin("u", 0)]);
            Covered(b, coins) && SubCoins(b, coins).Err?
  {
    var (b, coins) := (map["u" := 5], [Coin("u", 5), Coin("u", 0)]);
    assert coins[1..] == [Coin("u", 0)];
    assert SubCoin(b, coins[0]) == Ok(b - {"u"});
    assert SubCoins(b - {"u"}, coins[1..]).Err?;
    forall d ensures TotalOf(coins, d) <= AmountOf(b, d) {
      assert TotalOf(coins[1..][1..], d) == 0;
      assert TotalOf(coins[1..], d) == 0;
    }
  }

  /* ---- authorized messages use nothing up ---- */

  /** The message may change what the sender is authorized to do. */
  ghost predicate Concerns(e: Call, sender: Addr) {
    match e.msg
    case Admin(_) => true
    case IncreaseAllowance(spender, _, _) => spender == sender
    case DecreaseAllowance(spender, _, _) => spender == sender
    case SetPermissions(spender, _) => spender == sender
    case Execute(_) => false
  }

  /** Only messages of admins change an authorization: executing a send, even over and over, leaves
      it as authorized as it was. */
  lemma {:induction false} ExecutingUsesNothingUp(
    api: AddrCheck, s: SubkeysState, es: seq<Call>, block: Block, sender: Addr, msg: CosmosMsg)
    requires forall e :: e in es ==> !Concerns(e, sender)
    ensures Authorized(RunCalls(api, s, es), block, sender, msg) <==> Authorized(s, block, sender, msg)
    ensures (forall e :: e in es ==> e.msg.Execute?) ==> RunCalls(api, s, es) == s
    decreases |es|
  {
    if es != [] {
      var next := NextCall(api, s, es[0]);
      assert !Concerns(es[0], sender);
      assert Authorized(next, block, sender, msg) <==> Authorized(s, block, sender, msg);
      ExecutingUsesNothingUp(api, next, es[1..], block, sender, msg);
      assert es[0] in es;
    }
  }

  /* ---- who may do what ---- */

  /** A send by somebody who is no admin is authorized exactly if the sender has an allowance still
      live at the block that covers each denomination in total, and every coin, zero coins
      included, still finds its denomination listed. */
  lemma {:induction false} SendAuthorizedIff(s: SubkeysState, block: Block, sender: Addr, coins: seq<Coin>)
    requires sender !in s.admin.admins
    ensures Authorized(s, block, sender, BankSend(coins)) <==>
              && HasLive(s, block, sender)
              && (forall d :: TotalOf(coins, d) <= Effective(s, block, sender, d))
              && AllListed(s.allowances[sender].balance, coins)
  {
    if HasLive(s, block, sender) {
      SubCoinsCovers(s.allowances[sender].balance, coins);
      assert QueryAllowance(s, block, sender) == s.allowances[sender];
      assert forall d :: Effective(s, block, sender, d) == AmountOf(s.allowances[sender].balance, d);
    }
  }

  /** No send authorized after a run exceeds what was effective before it and what was added and not
      taken back since; once an allowance has expired, what was added since. */
  lemma {:induction false} SendsAreBounded(
    api: AddrCheck, s: SubkeysState, from: Block, es: seq<Call>, to: Block,
    sender: Addr, coins: seq<Coin>, denom: string)
    requires ClockRuns(from, es, to)
    requires var after := RunCalls(api, s, es);
             sender !in after.admin.admins && Authorized(after, to, sender, BankSend(coins))
    ensures TotalOf(coins, denom) + Decreases(api, s, es, sender, denom)
            <= Effective(s, from, sender, denom) + Increases(api, s, es, sender, denom)
    ensures sender !in s.allowances || !Live(s.allowances[sender].expires, from) ==>
              TotalOf(coins, denom) <= Increases(api, s, es, sender, denom)
  {
    SendAuthorizedIff(RunCalls(api, s, es), to, sender, coins);
    EffectiveIsBounded(api, s, from, es, to, sender, denom);
  }

  /** Every other message needs its own permission, whatever else the sender holds; what no
      permission is for is for admins only, who may do anything. */
  lemma {:induction false} PermissionForEachKind(s: SubkeysState, block: Block, sender: Addr, msg: CosmosMsg)
    ensures sender in s.admin.admins ==> Authorized(s, block, sender, msg)
    ensures sender !in s.admin.admins && !msg.BankSend? ==>
              (Authorized(s, block, sender, msg) <==>
                 && sender in s.permissions
                 && var p := s.permissions[sender];
                    || (msg == Staking(Delegate) && p.delegate)
                    || (msg == Staking(Undelegate) && p.undelegate)
                    || (msg == Staking(Redelegate) && p.redelegate)
                    || (msg == Distribution(SetWithdrawAddress) && p.withdraw)
                    || (msg == Distribution(WithdrawDelegatorReward) && p.withdraw))
  {
  }

  /* ---- listings ---- */

  ghost function Unexpired(block: Block): Filter<Allowance> {
    (e: (string, Allowance)) => !e.1.expires.IsExpired(block)
  }

  ghost const ALL_PERMISSIONS: Filter<Permissions> := (_: (string, Permissions)) => true

  /** The expiry filter comes before the limit. */
  ghost function AllAllowances(s: SubkeysState, block: Block, start: Option<string>, limit: Option<nat>)
    : seq<(string, Allowance)>
  {
    Page(Entries(s.allowances), start, CalcLimit(limit), Unexpired(block))
  }

  ghost function AllPermissions(s: SubkeysState, start: Option<string>, limit: Option<nat>)
    : seq<(string, Permissions)>
  {
    Page(Entries(s.permissions), start, CalcLimit(limit), ALL_PERMISSIONS)
  }

  /** At one block, reading either listing to its end gives exactly the unexpired allowances, and
      exactly the permissions, each once and in key order. */
  lemma {:induction false} ListingsAreComplete(s: SubkeysState, block: Block, limit: Option<nat>)
    ensures forall e :: Unexpired(block)(e) <==> Live(e.1.expires, block)
    ensures forall e :: ALL_PERMISSIONS(e)
    ensures var query := start => AllAllowances(s, block, start, limit);
            && AnswersPages(query, s.allowances, limit, Unexpired(block))
            && (limit != Some(0) ==> ListsAll(query, s.allowances, Unexpired(block)))
    ensures var query := start => AllPermissions(s, start, limit);
            && AnswersPages(query, s.permissions, limit, ALL_PERMISSIONS)
            && (limit != Some(0) ==> ListsAll(query, s.permissions, ALL_PERMISSIONS))
  {
    var allowances := start => AllAllowances(s, block, start, limit);
    PagesArePages(allowances, s.allowances, limit, Unexpired(block));
    ReadingListsMap(allowances, s.allowances, limit, Unexpired(block));
    var permissions := start => AllPermissions(s, start, limit);
    PagesArePages(permissions, s.permissions, limit, ALL_PERMISSIONS);
    ReadingListsMap(permissions, s.permissions, limit, ALL_PERMISSIONS);
  }

  /* ---- the stored contract ---- */

  class Contract {
    const whitelist: Whitelist.Contract
    var permissions: map<Addr, Permissions>
    var allowances: map<Addr, Allowance>

    function State(): SubkeysState
      reads this, whitelist
    {
      SubkeysState(whitelist.State(), permissions, allowances)
    }

    /** An accepted call leaves the specified state; a refused one reports the specified error. */
    ghost predicate Meets(r: Result<(), Error>, spec: Result<SubkeysState, Error>)
      reads this, whitelist
    {
      match spec
      case Ok(s) => r == Ok(()) && State() == s
      case Err(error) => r == Err(error)
    }

    constructor (api: AddrCheck)
      ensures whitelist.api == api && fresh(whitelist)
      ensures State() == SubkeysState(NO_ADMINS, map[], map[])
    {
      whitelist := new Whitelist.Contract(api);
      permissions, allowances := map[], map[];
    }

    method Instantiate(admins: seq<string>, mutable: bool) returns (r: Result<(), Error>)
      modifies whitelist
      ensures r.Ok? <==> AllValid(whitelist.api, admins)
      ensures r.Ok? ==>
                State() == old(State()).(admin := AdminState(old(whitelist.admins) + AsSet(admins), Some(mutable)))
    {
      var result := whitelist.Instantiate(admins, mutable);
      r := Forwarded(result);
    }

    method Freeze(ctx: Ctx) returns (r: Result<(), Error>)
      modifies whitelist
      ensures Meets(r, ApplyCall(whitelist.api, old(State()), Call(ctx, SubkeysMsg.Admin(Msg.Freeze))))
    {
      var result := whitelist.Freeze(ctx.sender);
      r := Forwarded(result);
    }

    method UpdateAdmins(ctx: Ctx, admins: seq<string>) returns (r: Result<(), Error>)
      modifies whitelist
      ensures Meets(r, ApplyCall(whitelist.api, old(State()), Call(ctx, SubkeysMsg.Admin(Msg.UpdateAdmins(admins)))))
    {
      var result := whitelist.UpdateAdmins(ctx.sender, admins);
      r := Forwarded(result);
    }

    method CheckSpender(ctx: Ctx, spender: string) returns (r: Result<(), Error>)
      ensures match ForSpender(whitelist.api, State(), ctx, spender)
              case Ok(sp) => r == Ok(()) && sp == spender
              case Err(error) => r == Err(error)
    {
      if !whitelist.IsAdmin(ctx.sender) {
        return Err(Error.Unauthorized);
      }
      if !whitelist.api(spender) {
        return Err(Error.Std);
      }
      if ctx.sender == spender {
        return Err(CannotSetOwnAccount);
      }
      r := Ok(());
    }

    method IncreaseAllowance(ctx: Ctx, spender: string, coin: Coin, expires: Option<Expiration>)
      returns (r: Result<(), Error>)
      modifies this`allowances
      ensures var e := Call(ctx, SubkeysMsg.IncreaseAllowance(spender, coin, expires));
              Meets(r, ApplyCall(whitelist.api, old(State()), e))
    {
      r := CheckSpender(ctx, spender);
      if r.Err? {
        return r;
      }
      var stored := Lookup(allowances, spender);
      var prevExpires := if stored.Some? then stored.value.expires else Never;
      var allowance := Allowance(map[], Never);
      if stored.Some? && !stored.value.expires.IsExpired(ctx.block) {
        allowance := stored.value;
      }
      if expires.Some? {
        if expires.value.IsExpired(ctx.block) {
          return Err(SettingExpiredAllowance(expires.value));
        }
        allowance := allowance.(expires := expires.value);
      } else if prevExpires.IsExpired(ctx.block) {
        return Err(SettingExpiredAllowance(prevExpires));
      }
      var balance := AddCoin(allowance.balance, coin);
      if balance.Err? {
        return Err(balance.error);
      }
      allowances := allowances[spender := allowance.(balance := balance.value)];
      r := Ok(());
    }

    method DecreaseAllowance(ctx: Ctx, spender: string, coin: Coin, expires: Option<Expiration>)
      returns (r: Result<(), Error>)
      modifies this`allowances
      ensures var e := Call(ctx, SubkeysMsg.DecreaseAllowance(spender, coin, expires));
              Meets(r, ApplyCall(whitelist.api, old(State()), e))
    {
      r := CheckSpender(ctx, spender);
      if r.Err? {
        return r;
      }
      if spender !in allowances || allowances[spender].expires.IsExpired(ctx.block) {
        return Err(NoAllowance);
      }
      var allowance := allowances[spender];
      if expires.Some? {
        if expires.value.IsExpired(ctx.block) {
          return Err(SettingExpiredAllowance(expires.value));
        }
        allowance := allowance.(expires := expires.value);
      }
      var balance := SubSaturating(allowance.balance, coin);
      if balance.Err? {
        return Err(balance.error);
      }
      allowance := allowance.(balance := balance.value);
      ghost var before := allowances;
      allowances := allowances[spender := allowance];
      if IsEmpty(allowance.balance) {
        allowances := allowances - {spender};
        assert allowances == before - {spender};
      }
      r := Ok(());
    }

    method SetPermissions(ctx: Ctx, spender: string, permissions: Permissions) returns (r: Result<(), Error>)
      modifies this`permissions
      ensures var e := Call(ctx, SubkeysMsg.SetPermissions(spender, permissions));
              Meets(r, ApplyCall(whitelist.api, old(State()), e))
    {
      r := CheckSpender(ctx, spender);
      if r.Ok? {
        this.permissions := this.permissions[spender := permissions];
      }
    }

    /** The subtraction is only tried out; its result is not stored. */
    method IsAuthorized(block: Block, sender: Addr, msg: CosmosMsg) returns (ok: bool)
      ensures ok <==> Authorized(State(), block, sender, msg)
    {
      if whitelist.IsAdmin(sender) {
        return true;
      }
      match msg {
        case BankSend(coins) =>
          if sender !in allowances {
            return false;
          }
          var allow := allowances[sender];
          return !allow.expires.IsExpired(block) && SubCoins(allow.balance, coins).Ok?;
        case Staking(kind) =>
          if sender !in permissions {
            return false;
          }
          var p := permissions[sender];
          var delegate := kind.Delegate? && p.delegate;
          var undelegate := kind.Undelegate? && p.undelegate;
          var redelegate := kind.Redelegate? && p.redelegate;
          return delegate || undelegate || redelegate;
        case Distribution(kind) =>
          if sender !in permissions {
            return false;
          }
          var setWithdrawAddr := kind.SetWithdrawAddress? && permissions[sender].withdraw;
          var withdraw := kind.WithdrawDelegatorReward? && permissions[sender].withdraw;
          return setWithdrawAddr || withdraw;
        case OtherMsg =>
          return false;
      }
    }

    method Execute(ctx: Ctx, msgs: seq<CosmosMsg>) returns (r: Result<(), Error>)
      ensures Meets(r, ApplyCall(whitelist.api, State(), Call(ctx, SubkeysMsg.Execute(msgs))))
    {
      var authorized := true;
      for i := 0 to |msgs|
        invariant authorized <==> forall k :: 0 <= k < i ==> Authorized(State(), ctx.block, ctx.sender, msgs[k])
      {
        var ok := IsAuthorized(ctx.block, ctx.sender, msgs[i]);
        authorized := authorized && ok;
      }
      r := if authorized then Ok(()) else Err(Error.Unauthorized);
    }

    /** One call as the chain runs it. */
    method ExecuteCall(e: Call) returns (r: Result<(), Error>)
      modifies this, whitelist
      ensures r.Ok? <==> ApplyCall(whitelist.api, old(State()), e).Ok?
      ensures r.Err? ==> r.error == ApplyCall(whitelist.api, old(State()), e).error
      ensures State() == NextCall(whitelist.api, old(State()), e)
    {
      var saved := State();
      match e.msg {
        case Admin(Freeze) => r := Freeze(e.ctx);
        case Admin(UpdateAdmins(admins)) => r := UpdateAdmins(e.ctx, admins);
        case IncreaseAllowance(spender, coin, expires) => r := IncreaseAllowance(e.ctx, spender, coin, expires);
        case DecreaseAllowance(spender, coin, expires) => r := DecreaseAllowance(e.ctx, spender, coin, expires);
        case SetPermissions(spender, permissions) => r := SetPermissions(e.ctx, spender, permissions);
        case Execute(msgs) => r := Execute(e.ctx, msgs);
      }
      if r.Err? {
        whitelist.admins, whitelist.isMutable := saved.admin.admins, saved.admin.isMutable;
        permissions, allowances := saved.permissions, saved.allowances;
      }
    }
  }
}
