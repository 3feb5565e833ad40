/** What every message of the token keeps, exactly when it is accepted, and what runs add up to. */
module Cw20Invariants {
  import opened Prelude
  import opened Chain
  import opened MapSum
  import opened Cw20Ledger

  ghost function Bal(l: Ledger, a: Addr): Uint128 {
    Get(l.balances, a)
  }

  /** `reverse` holds exactly the entries of `forward` with the two addresses swapped. */
  ghost predicate MirrorOf(forward: Allowances, reverse: Allowances) {
    && (forall a, b :: (a, b) in forward <==> (b, a) in reverse)
    && (forall a, b :: (a, b) in forward && (b, a) in reverse ==> forward[(a, b)] == reverse[(b, a)])
  }

  ghost predicate Mirrored(l: Ledger) {
    MirrorOf(l.allowances, l.spenderIndex)
  }

  ghost predicate NoSelfAllowance(l: Ledger) {
    forall key :: key in l.allowances ==> key.0 != key.1
  }

  ghost predicate Inv(l: Ledger) {
    l.info.Some? && Sum(l.balances) == l.Supply() && Mirrored(l) && NoSelfAllowance(l)
  }

  ghost function Amount(m: Allowances, o: Addr, s: Addr): Uint128 {
    if (o, s) in m then m[(o, s)].amount else 0
  }

  /* ---- the reverse index ---- */

  lemma {:induction false} MirrorUpdate(f: Allowances, r: Allowances, a: Addr, b: Addr, v: Allowance)
    requires MirrorOf(f, r)
    ensures MirrorOf(f[(a, b) := v], r[(b, a) := v])
  {
  }

  lemma {:induction false} MirrorRemove(f: Allowances, r: Allowances, a: Addr, b: Addr)
    requires MirrorOf(f, r)
    ensures MirrorOf(f - {(a, b)}, r - {(b, a)})
  {
  }

  /** On mirrored maps the two deductions agree: the second never fails after the first. */
  lemma {:induction false} DeductBothMirrored(l: Ledger, owner: Addr, spender: Addr, n: Uint128, block: Block)
    requires Mirrored(l)
    ensures DeductBoth(l, owner, spender, n, block).Ok? <==> Spendable(l, owner, spender, n, block)
    ensures match DeductBoth(l, owner, spender, n, block)
            case Ok(after) => Mirrored(after)
            case Err(error) => error == SpendReason(l, owner, spender, block)
  {
    if Spendable(l, owner, spender, n, block) {
      var held := l.allowances[(owner, spender)];
      MirrorUpdate(l.allowances, l.spenderIndex, owner, spender, held.(amount := held.amount - n));
    }
  }

  lemma {:induction false} IncreasedMirrored(f: Allowances, r: Allowances, o: Addr, s: Addr, n: Uint128,
                          expires: Option<Expiration>, block: Block)
    requires MirrorOf(f, r)
    ensures var f' := Increased(f, (o, s), n, expires, block);
            var r' := Increased(r, (s, o), n, expires, block);
            && f'.Ok? == r'.Ok? && (f'.Ok? ==> MirrorOf(f'.value, r'.value))
            && (f'.Err? ==> f'.error == if Amount(f, o, s) + n > LARGEST then Panic else InvalidExpiration)
  {
    var held := if (o, s) in f then f[(o, s)] else Allowance(0, Never);
    if held.amount + n <= LARGEST {
      MirrorUpdate(f, r, o, s, Allowance(held.amount + n, expires.GetOr(held.expires)));
    }
  }

  /* ---- when a message is accepted ---- */

  ghost predicate Spendable(l: Ledger, owner: Addr, spender: Addr, n: Uint128, block: Block) {
    && (owner, spender) in l.allowances
    && Live(l.allowances[(owner, spender)].expires, block)
    && n <= l.allowances[(owner, spender)].amount
  }

  /** Why an allowance cannot be spent. */
  ghost function SpendReason(l: Ledger, owner: Addr, spender: Addr, block: Block): Error {
    if (owner, spender) !in l.allowances then NoAllowance
    else if !Live(l.allowances[(owner, spender)].expires, block) then Expired
    else Std(Overflow)
  }

  ghost predicate IsMinter(l: Ledger, a: Addr) {
    l.Minter().Some? && l.Minter().value.minter == a
  }

  ghost predicate WithinCap(l: Ledger, n: Uint128) {
    l.Minter().Some? && l.Supply() + n <= l.Minter().value.cap.GetOr(LARGEST)
  }

  /** The caller-visible conditions; none mentions overflow of a balance, the supply or the reverse index. */
  ghost predicate Accepts(api: AddrCheck, l: Ledger, e: Event) {
    var (sender, block) := (e.ctx.sender, e.ctx.block);
    match e.msg
    case Transfer(recipient, n) => n > 0 && api(recipient) && n <= Bal(l, sender)
    case Send(contract, n) => n > 0 && api(contract) && n <= Bal(l, sender)
    case Burn(n) => n > 0 && n <= Bal(l, sender)
    case IncreaseAllowance(spender, n, expires) =>
      && api(spender) && spender != sender
      && l.Granted(sender, spender) + n <= LARGEST
      && (expires.Some? ==> Live(expires.value, block))
    case DecreaseAllowance(spender, n, expires) =>
      && spender != sender && (sender, spender) in l.allowances
      && (expires.Some? && !Live(expires.value, block) ==> l.Granted(sender, spender) <= n)
    case TransferFrom(owner, recipient, n) =>
      && api(recipient) && api(owner)
      && (recipient == owner
          || ((owner == sender || Spendable(l, owner, sender, n, block)) && n <= Bal(l, owner)))
    case SendFrom(owner, contract, n) =>
      api(contract) && api(owner) && Spendable(l, owner, sender, n, block) && n <= Bal(l, owner)
    case BurnFrom(owner, n) =>
      api(owner) && Spendable(l, owner, sender, n, block) && n <= Bal(l, owner)
    case Mint(recipient, n) => n > 0 && IsMinter(l, sender) && WithinCap(l, n) && api(recipient)
    case UpdateMinter(newMinter) => IsMinter(l, sender) && (newMinter.Some? ==> api(newMinter.value))
    case UpdateMarketing(_, _, marketing) =>
      Marketer(l) == Some(sender) && (marketing.Some? && !Blank(marketing.value) ==> api(marketing.value))
    case UploadLogo(logo) => Marketer(l) == Some(sender) && VerifyLogo(logo).Ok?
    case Migrate =>
      && l.version.Some? && l.version.value.contract == CONTRACT_NAME
      && !CONTRACT_VERSION.Older(l.version.value.version)
  }

  /** The error of a refused message, in the same terms. */
  ghost function Reason(api: AddrCheck, l: Ledger, e: Event): Error {
    var (sender, block) := (e.ctx.sender, e.ctx.block);
    match e.msg
    case Transfer(to, n) =>
      if n == 0 then InvalidZeroAmount else if !api(to) then Std(InvalidAddress) else Std(Overflow)
    case Send(to, n) =>
      if n == 0 then InvalidZeroAmount else if !api(to) then Std(InvalidAddress) else Std(Overflow)
    case Burn(n) => if n == 0 then InvalidZeroAmount else Std(Overflow)
    case IncreaseAllowance(spender, n, _) =>
      if !api(spender) then Std(InvalidAddress)
      else if spender == sender then CannotSetOwnAccount
      else if l.Granted(sender, spender) + n > LARGEST then Panic
      else InvalidExpiration
    case DecreaseAllowance(spender, _, _) =>
      if spender == sender then CannotSetOwnAccount
      else if (sender, spender) !in l.allowances then Std(NotFound)
      else InvalidExpiration
    case TransferFrom(owner, to, n) =>
      if !api(to) || !api(owner) then Std(InvalidAddress)
      else if owner != sender then SpendReason(l, owner, sender, block)
      else Std(Overflow)
    case SendFrom(owner, to, n) =>
      if !api(to) || !api(owner) then Std(InvalidAddress) else SpendReason(l, owner, sender, block)
    case BurnFrom(owner, n) =>
      if !api(owner) then Std(InvalidAddress) else SpendReason(l, owner, sender, block)
    case Mint(_, n) =>
      if n == 0 then InvalidZeroAmount
      else if !IsMinter(l, sender) then Unauthorized
      else if l.Supply() + n > LARGEST then Panic
      else if !WithinCap(l, n) then CannotExceedCap
      else Std(InvalidAddress)
    case UpdateMinter(_) => if !IsMinter(l, sender) then Unauthorized else Std(InvalidAddress)
    case UpdateMarketing(_, _, _) => if Marketer(l) != Some(sender) then Unauthorized else Std(InvalidAddress)
    case UploadLogo(logo) =>
      if l.marketing.Some? && VerifyLogo(logo).Err? then VerifyLogo(logo).error else Unauthorized
    case Migrate => if l.version.None? then Std(NotFound) else Std(Generic)
  }

  /** Moving tokens between accounts fails only for lack of funds: the credit cannot overflow. */
  lemma {:induction false} MoveAccepted(l: Ledger, from: Addr, to: Addr, n: Uint128, overflow: Error)
    requires Sum(l.balances) == l.Supply()
    ensures Move(l, from, to, n, overflow).Ok? <==> n <= Bal(l, from)
    ensures Move(l, from, to, n, overflow).Err? ==> Move(l, from, to, n, overflow).error == Std(Overflow)
    ensures Move(l, from, to, n, overflow).Ok? ==> Sum(Move(l, from, to, n, overflow).value.balances) == l.Supply()
  {
    if n <= Bal(l, from) {
      var debited := l.balances[from := Bal(l, from) - n];
      SumAfterUpdate(l.balances, from, Bal(l, from) - n);
      AccountAtMostSum(debited, to);
      assert Get(debited, to) + n <= l.Supply();
      SumAfterUpdate(debited, to, Get(debited, to) + n);
    }
  }

  /** Destroying tokens fails only for lack of funds: the supply cannot run out first. */
  lemma {:induction false} DestroyAccepted(l: Ledger, from: Addr, n: Uint128)
    requires l.info.Some? && Sum(l.balances) == l.Supply()
    ensures Destroy(l, from, n).Ok? <==> n <= Bal(l, from)
    ensures Destroy(l, from, n).Err? ==> Destroy(l, from, n).error == Std(Overflow)
    ensures Destroy(l, from, n).Ok? ==>
              Sum(Destroy(l, from, n).value.balances) == Destroy(l, from, n).value.Supply()
  {
    AccountAtMostSum(l.balances, from);
    if n <= Bal(l, from) { SumAfterUpdate(l.balances, from, Bal(l, from) - n); }
  }

  ghost predicate StepGood(api: AddrCheck, l: Ledger, e: Event) {
    && (Apply(api, l, e).Ok? <==> Accepts(api, l, e))
    && (Apply(api, l, e).Err? ==> Apply(api, l, e).error == Reason(api, l, e))
    && Inv(Next(api, l, e))
  }

  /** New tokens fit into any balance once they fit into the supply. */
  lemma {:induction false} MintCredits(l: Ledger, a: Addr, n: Uint128)
    requires Sum(l.balances) == l.Supply() && l.Supply() + n <= LARGEST
    ensures Bal(l, a) + n <= LARGEST && Sum(l.balances[a := Bal(l, a) + n]) == l.Supply() + n
  {
    AccountAtMostSum(l.balances, a);
    SumAfterUpdate(l.balances, a, Bal(l, a) + n);
  }

  lemma {:induction false} MintStep(api: AddrCheck, l: Ledger, e: Event)
    requires Inv(l) && e.msg.Mint?
    ensures StepGood(api, l, e)
  {
    var Mint(recipient, n) := e.msg;
    if Accepts(api, l, e) {
      MintCredits(l, recipient, n);
      var credited := l.balances[recipient := Bal(l, recipient) + n];
      var after := l.(balances := credited, info := Some(l.info.value.(supply := l.Supply() + n)));
      assert ApplyMint(api, l, e.ctx, recipient, n) == Ok(after) by {
        assert Credit(l.balances, recipient, n, Panic) == Ok(credited);
      }
      assert Inv(after);
    }
  }

  lemma {:induction false} OwnFundsStep(api: AddrCheck, l: Ledger, e: Event)
    requires Inv(l) && (e.msg.Transfer? || e.msg.Send? || e.msg.Burn?)
    ensures StepGood(api, l, e)
  {
    match e.msg
    case Transfer(to, n) => MoveAccepted(l, e.ctx.sender, to, n, Std(Overflow));
    case Send(to, n) => MoveAccepted(l, e.ctx.sender, to, n, Std(Overflow));
    case Burn(n) => DestroyAccepted(l, e.ctx.sender, n);
  }

  lemma {:induction false} TransferFromStep(api: AddrCheck, l: Ledger, e: Event)
    requires Inv(l) && e.msg.TransferFrom?
    ensures StepGood(api, l, e)
  {
    var TransferFrom(owner, to, n) := e.msg;
    DeductBothMirrored(l, owner, e.ctx.sender, n, e.ctx.block);
    var deducted := DeductBoth(l, owner, e.ctx.sender, n, e.ctx.block);
    if e.ctx.sender == owner {
      MoveAccepted(l, owner, to, n, Panic);
    } else if deducted.Ok? {
      MoveAccepted(deducted.value, owner, to, n, Panic);
    }
  }

  lemma {:induction false} SendFromStep(api: AddrCheck, l: Ledger, e: Event)
    requires Inv(l) && e.msg.SendFrom?
    ensures StepGood(api, l, e)
  {
    var SendFrom(owner, to, n) := e.msg;
    DeductBothMirrored(l, owner, e.ctx.sender, n, e.ctx.block);
    var deducted := DeductBoth(l, owner, e.ctx.sender, n, e.ctx.block);
    if deducted.Ok? { MoveAccepted(deducted.value, owner, to, n, Panic); }
  }

  lemma {:induction false} BurnFromStep(api: AddrCheck, l: Ledger, e: Event)
    requires Inv(l) && e.msg.BurnFrom?
    ensures StepGood(api, l, e)
  {
    var BurnFrom(owner, n) := e.msg;
    DeductBothMirrored(l, owner, e.ctx.sender, n, e.ctx.block);
    var deducted := DeductBoth(l, owner, e.ctx.sender, n, e.ctx.block);
    if deducted.Ok? { DestroyAccepted(deducted.value, owner, n); }
  }

  lemma {:induction false} IncreaseStep(api: AddrCheck, l: Ledger, e: Event)
    requires Inv(l) && e.msg.IncreaseAllowance?
    ensures StepGood(api, l, e)
  {
    var IncreaseAllowance(spender, n, expires) := e.msg;
    IncreasedMirrored(l.allowances, l.spenderIndex, e.ctx.sender, spender, n, expires, e.ctx.block);
  }

  lemma {:induction false} DecreaseStep(api: AddrCheck, l: Ledger, e: Event)
    requires Inv(l) && e.msg.DecreaseAllowance?
    ensures StepGood(api, l, e)
  {
    var DecreaseAllowance(spender, n, expires) := e.msg;
    var key := (e.ctx.sender, spender);
    if key in l.allowances {
      var held := l.allowances[key];
      MirrorRemove(l.allowances, l.spenderIndex, e.ctx.sender, spender);
      if n < held.amount {
        MirrorUpdate(l.allowances, l.spenderIndex, e.ctx.sender, spender,
                     Allowance(held.amount - n, expires.GetOr(held.expires)));
      }
    }
  }

  lemma {:induction false} ReversedMirrors(m: Allowances)
    ensures MirrorOf(m, Reversed(m))
  {
    forall a, b ensures (a, b) in m <==> (b, a) in Reversed(m)
                ensures (a, b) in m ==> Reversed(m)[(b, a)] == m[(a, b)]
    {
      if (a, b) in m { assert ((a, b).1, (a, b).0) == (b, a); }
    }
  }

  lemma {:induction false} MigrateMirrored(l: Ledger, release: Version)
    requires Mirrored(l)
    ensures MigrateTo(l, release).Ok? ==> MigrateTo(l, release).value.spenderIndex == l.spenderIndex
  {
    ReversedMirrors(l.allowances);
    var merged := l.spenderIndex + Reversed(l.allowances);
    forall k: (Addr, Addr)
      ensures k in merged <==> k in l.spenderIndex
      ensures k in merged ==> merged[k] == l.spenderIndex[k]
    {
      assert k == (k.0, k.1);
      assert (k.1, k.0) in l.allowances <==> (k.0, k.1) in l.spenderIndex;
    }
    assert merged == l.spenderIndex;
  }

  lemma {:induction false} AdminStep(api: AddrCheck, l: Ledger, e: Event)
    requires Inv(l) && (e.msg.UpdateMinter? || e.msg.UpdateMarketing? || e.msg.UploadLogo? || e.msg.Migrate?)
    ensures StepGood(api, l, e)
  {
    MigrateMirrored(l, CONTRACT_VERSION);
  }

  /** In any state satisfying the invariant, a message is accepted exactly under the plain
      conditions of Accepts, refused with the error of Reason, and keeps the invariant. */
  lemma {:induction false} StepAcceptedAndInvariant(api: AddrCheck, l: Ledger, e: Event)
    requires Inv(l)
    ensures Apply(api, l, e).Ok? <==> Accepts(api, l, e)
    ensures Apply(api, l, e).Err? ==> Apply(api, l, e).error == Reason(api, l, e)
    ensures Inv(Next(api, l, e))
  {
    assert StepGood(api, l, e) by {
      match e.msg
      case Transfer(_, _) => OwnFundsStep(api, l, e);
      case Send(_, _) => OwnFundsStep(api, l, e);
      case Burn(_) => OwnFundsStep(api, l, e);
      case IncreaseAllowance(_, _, _) => IncreaseStep(api, l, e);
      case DecreaseAllowance(_, _, _) => DecreaseStep(api, l, e);
      case TransferFrom(_, _, _) => TransferFromStep(api, l, e);
      case SendFrom(_, _, _) => SendFromStep(api, l, e);
      case BurnFrom(_, _) => BurnFromStep(api, l, e);
      case Mint(_, _) => MintStep(api, l, e);
      case UpdateMinter(_) => AdminStep(api, l, e);
      case UpdateMarketing(_, _, _) => AdminStep(api, l, e);
      case UploadLogo(_) => AdminStep(api, l, e);
      case Migrate => AdminStep(api, l, e);
    }
  }

  lemma {:induction false} RunKeepsInvariant(api: AddrCheck, l: Ledger, es: seq<Event>)
    requires Inv(l)
    ensures Inv(Run(api, l, es))
    decreases |es|
  {
    if es != [] {
      StepAcceptedAndInvariant(api, l, es[0]);
      RunKeepsInvariant(api, Next(api, l, es[0]), es[1..]);
    }
  }
}
