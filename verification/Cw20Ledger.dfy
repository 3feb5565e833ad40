/** The storage of the cw20-base contract as a value, and what each message does to it. */
module Cw20Ledger {
  import opened Prelude
  import opened Chain

  newtype Byte = b: int | 0 <= b < 256

  datatype StdError = InvalidAddress | Overflow | NotFound | Generic

  datatype Error =
    | Std(cause: StdError)
    | Panic // a bare `+` on Uint128 aborts the call
    | Unauthorized
    | CannotSetOwnAccount
    | InvalidZeroAmount
    | Expired
    | NoAllowance
    | CannotExceedCap
    | LogoTooBig
    | InvalidXmlPreamble
    | InvalidPngHeader
    | InvalidExpiration
    | DuplicateInitialBalanceAddresses

  datatype Allowance = Allowance(amount: Uint128, expires: Expiration)

  type Balances = map<Addr, Uint128>
  type Allowances = map<(Addr, Addr), Allowance>

  datatype MinterData = MinterData(minter: Addr, cap: Option<Uint128>)

  datatype TokenInfo = TokenInfo(
    name: seq<Byte>, symbol: seq<Byte>, decimals: nat, supply: Uint128, mint: Option<MinterData>)

  /** Svg and Png logos are embedded ones. */
  datatype Logo = Url(url: string) | Svg(data: seq<Byte>) | Png(data: seq<Byte>)

  datatype LogoInfo = UrlInfo(url: string) | Embedded

  /** `marketing` is the account that may change this data. */
  datatype MarketingInfo = MarketingInfo(
    project: Option<string>, description: Option<string>, marketing: Option<Addr>, logo: Option<LogoInfo>)

  datatype Version = Version(major: nat, minor: nat, patch: nat) {
    predicate Older(v: Version) {
      major < v.major || (major == v.major && (minor < v.minor || (minor == v.minor && patch < v.patch)))
    }
  }

  datatype ContractVersion = ContractVersion(contract: string, version: Version)

  const CONTRACT_NAME := "crates.io:cw20-base"
  const CONTRACT_VERSION := Version(0, 5, 0)
  const REVERSE_INDEX_SINCE := Version(0, 14, 0)

  /** `allowances` is keyed by (owner, spender), `spenderIndex` by (spender, owner). */
  datatype Ledger = Ledger(
    version: Option<ContractVersion>,
    info: Option<TokenInfo>,
    balances: Balances,
    allowances: Allowances,
    spenderIndex: Allowances,
    marketing: Option<MarketingInfo>,
    logo: Option<Logo>)
  {
    function Supply(): Uint128 {
      if info.Some? then info.value.supply else 0
    }

    function Minter(): Option<MinterData> {
      if info.Some? then info.value.mint else None
    }

    function Granted(owner: Addr, spender: Addr): Uint128 {
      if (owner, spender) in allowances then allowances[(owner, spender)].amount else 0
    }
  }

  const EMPTY := Ledger(None, None, map[], map[], map[], None, None)

  datatype Ctx = Ctx(sender: Addr, block: Block)

  datatype Msg =
    | Transfer(recipient: string, amount: Uint128)
    | Burn(amount: Uint128)
    | Send(contract: string, amount: Uint128)
    | IncreaseAllowance(spender: string, amount: Uint128, expires: Option<Expiration>)
    | DecreaseAllowance(spender: string, amount: Uint128, expires: Option<Expiration>)
    | TransferFrom(owner: string, recipient: string, amount: Uint128)
    | SendFrom(owner: string, contract: string, amount: Uint128)
    | BurnFrom(owner: string, amount: Uint128)
    | Mint(recipient: string, amount: Uint128)
    | UpdateMinter(newMinter: Option<string>)
    | UpdateMarketing(project: Option<string>, description: Option<string>, marketing: Option<string>)
    | UploadLogo(logo: Logo)
    | Migrate

  datatype Event = Event(ctx: Ctx, msg: Msg)

  /* ---- single storage updates ---- */

  function Debit(b: Balances, a: Addr, n: Uint128): Result<Balances, Error> {
    var held := if a in b then b[a] else 0;
    if held < n then Err(Std(Overflow)) else Ok(b[a := held - n])
  }

  function Credit(b: Balances, a: Addr, n: Uint128, overflow: Error): Result<Balances, Error> {
    var held := if a in b then b[a] else 0;
    if held + n > U128_MAX then Err(overflow) else Ok(b[a := held + n])
  }

  function LowerSupply(info: Option<TokenInfo>, n: Uint128): Result<Option<TokenInfo>, Error> {
    if info.None? then Err(Std(NotFound))
    else if info.value.supply < n then Err(Std(Overflow))
    else Ok(Some(info.value.(supply := info.value.supply - n)))
  }

  function Increased(m: Allowances, key: (Addr, Addr), n: Uint128, expires: Option<Expiration>, block: Block)
    : Result<Allowances, Error>
  {
    var current := if key in m then m[key] else Allowance(0, Never);
    if current.amount + n > U128_MAX then Err(Panic)
    else match expires
      case None => Ok(m[key := Allowance(current.amount + n, current.expires)])
      case Some(e) =>
        if e.IsExpired(block) then Err(InvalidExpiration)
        else Ok(m[key := Allowance(current.amount + n, e)])
  }

  function Deducted(m: Allowances, key: (Addr, Addr), n: Uint128, block: Block): Result<Allowances, Error> {
    if key !in m then Err(NoAllowance)
    else if m[key].expires.IsExpired(block) then Err(Expired)
    else if m[key].amount < n then Err(Std(Overflow))
    else Ok(m[key := m[key].(amount := m[key].amount - n)])
  }

  /** Both allowance maps are updated, each from its own stored value. */
  function DeductBoth(l: Ledger, owner: Addr, spender: Addr, n: Uint128, block: Block): Result<Ledger, Error> {
    var forward :- Deducted(l.allowances, (owner, spender), n, block);
    var reverse :- Deducted(l.spenderIndex, (spender, owner), n, block);
    Ok(l.(allowances := forward, spenderIndex := reverse))
  }

  function Validate(api: AddrCheck, a: string): Result<Addr, Error> {
    if api(a) then Ok(a) else Err(Std(InvalidAddress))
  }

  function Positive(n: Uint128): Result<(), Error> {
    if n == 0 then Err(InvalidZeroAmount) else Ok(())
  }

  function Move(l: Ledger, from: Addr, to: Addr, n: Uint128, overflow: Error): Result<Ledger, Error> {
    var debited :- Debit(l.balances, from, n);
    var moved :- Credit(debited, to, n, overflow);
    Ok(l.(balances := moved))
  }

  function Destroy(l: Ledger, from: Addr, n: Uint128): Result<Ledger, Error> {
    var debited :- Debit(l.balances, from, n);
    var info :- LowerSupply(l.info, n);
    Ok(l.(balances := debited, info := info))
  }

  /* ---- logos and texts ---- */

  const LOGO_SIZE_CAP: nat := 5 * 1024
  const PNG_HEADER: seq<Byte> := [0x89, 0x50, 0x4E, 0x47, 0x0D, 0x0A, 0x1A, 0x0A]
  const XML_PREFIX: seq<Byte> := [0x3C, 0x3F, 0x78, 0x6D, 0x6C, 0x20] // "<?xml "
  const XML_POSTFIX: seq<Byte> := [0x3F, 0x3E] // "?>"

  /** The first chunk of `split_inclusive`: up to the first `end` and including it. */
  function FirstChunk(data: seq<Byte>, end: Byte): seq<Byte> {
    if data == [] then []
    else if data[0] == end then [end]
    else [data[0]] + FirstChunk(data[1..], end)
  }

  function VerifyXmlPreamble(data: seq<Byte>): Result<(), Error> {
    var preamble := FirstChunk(data, 0x3E);
    if XML_PREFIX <= preamble && |preamble| >= 2 && preamble[|preamble| - 2..] == XML_POSTFIX then Ok(())
    else Err(InvalidXmlPreamble)
  }

  /** The two formats check the size at different points. */
  function VerifyLogo(logo: Logo): Result<(), Error> {
    match logo
    case Url(_) => Ok(())
    case Svg(data) =>
      var _ :- VerifyXmlPreamble(data);
      if |data| > LOGO_SIZE_CAP then Err(LogoTooBig) else Ok(())
    case Png(data) =>
      if |data| > LOGO_SIZE_CAP then Err(LogoTooBig)
      else if PNG_HEADER <= data then Ok(())
      else Err(InvalidPngHeader)
  }

  function InfoOf(logo: Logo): LogoInfo {
    if logo.Url? then UrlInfo(logo.url) else Embedded
  }

  /** The characters with the Unicode property White_Space. */
  predicate IsWhitespace(c: char) {
    || '\U{0009}' <= c <= '\U{000D}' || c in {'\U{0020}', '\U{0085}', '\U{00A0}', '\U{1680}'}
    || '\U{2000}' <= c <= '\U{200A}' || c in {'\U{2028}', '\U{2029}', '\U{202F}', '\U{205F}', '\U{3000}'}
  }

  /** `s.trim().is_empty()` */
  predicate Blank(s: string) {
    forall i :: 0 <= i < |s| ==> IsWhitespace(s[i])
  }

  /** A blank text clears the stored one, an absent text keeps it. */
  function Changed(asked: Option<string>, stored: Option<string>): Option<string> {
    if asked.None? then stored else if Blank(asked.value) then None else asked
  }

  /* ---- messages ---- */

  function ApplyTransfer(api: AddrCheck, l: Ledger, ctx: Ctx, recipient: string, n: Uint128): Result<Ledger, Error> {
    var _ :- Positive(n);
    var to :- Validate(api, recipient);
    Move(l, ctx.sender, to, n, Std(Overflow))
  }

  function ApplyBurn(l: Ledger, ctx: Ctx, n: Uint128): Result<Ledger, Error> {
    var _ :- Positive(n);
    Destroy(l, ctx.sender, n)
  }

  function ApplyIncrease(api: AddrCheck, l: Ledger, ctx: Ctx, spender: string, n: Uint128, expires: Option<Expiration>)
    : Result<Ledger, Error>
  {
    var sp :- Validate(api, spender);
    if sp == ctx.sender then Err(CannotSetOwnAccount)
    else
      var forward :- Increased(l.allowances, (ctx.sender, sp), n, expires, ctx.block);
      var reverse :- Increased(l.spenderIndex, (sp, ctx.sender), n, expires, ctx.block);
      Ok(l.(allowances := forward, spenderIndex := reverse))
  }

  function ApplyDecrease(l: Ledger, ctx: Ctx, spender: string, n: Uint128, expires: Option<Expiration>)
    : Result<Ledger, Error>
  {
    var key := (ctx.sender, spender);
    var back := (spender, ctx.sender);
    if spender == ctx.sender then Err(CannotSetOwnAccount)
    else if key !in l.allowances then Err(Std(NotFound))
    else
      var held := l.allowances[key];
      if n >= held.amount then
        Ok(l.(allowances := l.allowances - {key}, spenderIndex := l.spenderIndex - {back}))
      else if expires.Some? && expires.value.IsExpired(ctx.block) then Err(InvalidExpiration)
      else
        var left := Allowance(held.amount - n, expires.GetOr(held.expires));
        Ok(l.(allowances := l.allowances[key := left], spenderIndex := l.spenderIndex[back := left]))
  }

  function ApplyTransferFrom(api: AddrCheck, l: Ledger, ctx: Ctx, owner: string, recipient: string, n: Uint128)
    : Result<Ledger, Error>
  {
    var to :- Validate(api, recipient);
    var from :- Validate(api, owner);
    if to == from then Ok(l)
    else
      var paid :- if ctx.sender != from then DeductBoth(l, from, ctx.sender, n, ctx.block) else Ok(l);
      Move(paid, from, to, n, Panic)
  }

  function ApplySendFrom(api: AddrCheck, l: Ledger, ctx: Ctx, owner: string, contract: string, n: Uint128)
    : Result<Ledger, Error>
  {
    var to :- Validate(api, contract);
    var from :- Validate(api, owner);
    var paid :- DeductBoth(l, from, ctx.sender, n, ctx.block);
    Move(paid, from, to, n, Panic)
  }

  function ApplyBurnFrom(api: AddrCheck, l: Ledger, ctx: Ctx, owner: string, n: Uint128): Result<Ledger, Error> {
    var from :- Validate(api, owner);
    var paid :- DeductBoth(l, from, ctx.sender, n, ctx.block);
    Destroy(paid, from, n)
  }

  function ApplyMint(api: AddrCheck, l: Ledger, ctx: Ctx, recipient: string, n: Uint128): Result<Ledger, Error> {
    var _ :- Positive(n);
    if l.Minter().None? || l.Minter().value.minter != ctx.sender then Err(Unauthorized)
    else if l.Supply() + n > U128_MAX then Err(Panic)
    else if l.Minter().value.cap.Some? && l.Supply() + n > l.Minter().value.cap.value then Err(CannotExceedCap)
    else
      var to :- Validate(api, recipient);
      var credited :- Credit(l.balances, to, n, Panic);
      Ok(l.(balances := credited, info := Some(l.info.value.(supply := l.Supply() + n))))
  }

  function ApplyUpdateMinter(api: AddrCheck, l: Ledger, ctx: Ctx, newMinter: Option<string>): Result<Ledger, Error> {
    if l.Minter().None? || l.Minter().value.minter != ctx.sender then Err(Unauthorized)
    else if newMinter.None? then Ok(l.(info := Some(l.info.value.(mint := None))))
    else
      var next :- Validate(api, newMinter.value);
      Ok(l.(info := Some(l.info.value.(mint := Some(MinterData(next, l.Minter().value.cap))))))
  }

  function Marketer(l: Ledger): Option<Addr> {
    if l.marketing.None? then None else l.marketing.value.marketing
  }

  /** Data left without any content is removed. */
  function ApplyUpdateMarketing(
    api: AddrCheck, l: Ledger, ctx: Ctx,
    project: Option<string>, description: Option<string>, marketing: Option<string>): Result<Ledger, Error>
  {
    if Marketer(l) != Some(ctx.sender) then Err(Unauthorized)
    else if marketing.Some? && !Blank(marketing.value) && !api(marketing.value) then Err(Std(InvalidAddress))
    else
      var old' := l.marketing.value;
      var info := MarketingInfo(
        Changed(project, old'.project), Changed(description, old'.description),
        Changed(marketing, old'.marketing), old'.logo);
      Ok(l.(marketing := if info == MarketingInfo(None, None, None, None) then None else Some(info)))
  }

  /** The logo is verified before the sender is. */
  function ApplyUploadLogo(l: Ledger, ctx: Ctx, logo: Logo): Result<Ledger, Error> {
    if l.marketing.None? then Err(Unauthorized)
    else
      var _ :- VerifyLogo(logo);
      if Marketer(l) != Some(ctx.sender) then Err(Unauthorized)
      else Ok(l.(logo := Some(logo), marketing := Some(l.marketing.value.(logo := Some(InfoOf(logo))))))
  }

  /** Every forward entry (owner, spender), stored under (spender, owner). */
  function Reversed(m: Allowances): Allowances {
    map key | key in m :: (key.1, key.0) := m[key]
  }

  /** `release` is the version of the package being installed. */
  function MigrateTo(l: Ledger, release: Version): Result<Ledger, Error> {
    if l.version.None? then Err(Std(NotFound))
    else if l.version.value.contract != CONTRACT_NAME || release.Older(l.version.value.version) then Err(Std(Generic))
    else
      var stamped := l.(version := Some(ContractVersion(CONTRACT_NAME, release)));
      if l.version.value.version.Older(REVERSE_INDEX_SINCE)
      then Ok(stamped.(spenderIndex := l.spenderIndex + Reversed(l.allowances)))
      else Ok(stamped)
  }

  function Apply(api: AddrCheck, l: Ledger, e: Event): Result<Ledger, Error> {
    match e.msg
    case Transfer(recipient, n) => ApplyTransfer(api, l, e.ctx, recipient, n)
    case Burn(n) => ApplyBurn(l, e.ctx, n)
    case Send(contract, n) => ApplyTransfer(api, l, e.ctx, contract, n)
    case IncreaseAllowance(spender, n, expires) => ApplyIncrease(api, l, e.ctx, spender, n, expires)
    case DecreaseAllowance(spender, n, expires) => ApplyDecrease(l, e.ctx, spender, n, expires)
    case TransferFrom(owner, recipient, n) => ApplyTransferFrom(api, l, e.ctx, owner, recipient, n)
    case SendFrom(owner, contract, n) => ApplySendFrom(api, l, e.ctx, owner, contract, n)
    case BurnFrom(owner, n) => ApplyBurnFrom(api, l, e.ctx, owner, n)
    case Mint(recipient, n) => ApplyMint(api, l, e.ctx, recipient, n)
    case UpdateMinter(newMinter) => ApplyUpdateMinter(api, l, e.ctx, newMinter)
    case UpdateMarketing(project, description, marketing) =>
      ApplyUpdateMarketing(api, l, e.ctx, project, description, marketing)
    case UploadLogo(logo) => ApplyUploadLogo(l, e.ctx, logo)
    case Migrate => MigrateTo(l, CONTRACT_VERSION)
  }

  /** The chain discards everything a failing message wrote. */
  function Next(api: AddrCheck, l: Ledger, e: Event): Ledger {
    match Apply(api, l, e)
    case Ok(after) => after
    case Err(_) => l
  }

  function Run(api: AddrCheck, l: Ledger, es: seq<Event>): Ledger
    decreases |es|
  {
    if es == [] then l else Run(api, Next(api, l, es[0]), es[1..])
  }

  /* ---- instantiation ---- */

  datatype Coin = Coin(address: string, amount: Uint128)

  datatype InitialMinter = InitialMinter(minter: string, cap: Option<Uint128>)

  datatype InitialMarketing = InitialMarketing(
    project: Option<string>, description: Option<string>, marketing: Option<string>, logo: Option<Logo>)

  datatype InstantiateData = InstantiateData(
    name: seq<Byte>, symbol: seq<Byte>, decimals: nat,
    initialBalances: seq<Coin>, mint: Option<InitialMinter>, marketing: Option<InitialMarketing>)

  predicate ValidSymbolByte(b: Byte) {
    b == 45 || 65 <= b <= 90 || 97 <= b <= 122
  }

  predicate ValidMsg(name: seq<Byte>, symbol: seq<Byte>, decimals: nat) {
    && 3 <= |name| <= 50
    && 3 <= |symbol| <= 12 && (forall i :: 0 <= i < |symbol| ==> ValidSymbolByte(symbol[i]))
    && decimals <= 18
  }

  function Addresses(rows: seq<Coin>): (r: seq<string>)
    ensures |r| == |rows| && forall i :: 0 <= i < |rows| ==> r[i] == rows[i].address
  {
    seq(|rows|, i requires 0 <= i < |rows| => rows[i].address)
  }

  /** Row by row: validate, overwrite the account, add to the running total. */
  function SaveRows(api: AddrCheck, rows: seq<Coin>, b: Balances, total: Uint128): Result<(Balances, Uint128), Error>
    decreases |rows|
  {
    if rows == [] then Ok((b, total))
    else
      var a :- Validate(api, rows[0].address);
      if total + rows[0].amount > U128_MAX then Err(Panic)
      else SaveRows(api, rows[1..], b[a := rows[0].amount], total + rows[0].amount)
  }

  ghost function CreateAccounts(api: AddrCheck, rows: seq<Coin>, b: Balances): Result<(Balances, Uint128), Error> {
    if !Distinct(Addresses(rows)) then Err(DuplicateInitialBalanceAddresses)
    else SaveRows(api, rows, b, 0)
  }

  ghost function Instantiate(api: AddrCheck, l: Ledger, data: InstantiateData): Result<Ledger, Error> {
    if !ValidMsg(data.name, data.symbol, data.decimals) then Err(Std(Generic))
    else
      var created :- CreateAccounts(api, data.initialBalances, l.balances);
      var (b, total) := created;
      if data.mint.Some? && data.mint.value.cap.Some? && total > data.mint.value.cap.value then Err(Std(Generic))
      else if data.mint.Some? && !api(data.mint.value.minter) then Err(Std(InvalidAddress))
      else
        var mint := if data.mint.Some? then Some(MinterData(data.mint.value.minter, data.mint.value.cap)) else None;
        var token := l.(version := Some(ContractVersion(CONTRACT_NAME, CONTRACT_VERSION)),
                        info := Some(TokenInfo(data.name, data.symbol, data.decimals, total, mint)),
                        balances := b);
        if data.marketing.None? then Ok(token) else StartMarketing(api, token, data.marketing.value)
  }

  /** The logo is verified and stored before the marketing account is validated. */
  function StartMarketing(api: AddrCheck, l: Ledger, m: InitialMarketing): Result<Ledger, Error> {
    var _ :- if m.logo.Some? then VerifyLogo(m.logo.value) else Ok(());
    if m.marketing.Some? && !api(m.marketing.value) then Err(Std(InvalidAddress))
    else
      var logo := if m.logo.Some? then Some(InfoOf(m.logo.value)) else None;
      Ok(l.(marketing := Some(MarketingInfo(m.project, m.description, m.marketing, logo)),
            logo := if m.logo.Some? then m.logo else l.logo))
  }
}
