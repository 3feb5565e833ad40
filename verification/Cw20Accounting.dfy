/** Conservation laws of the token over whole runs: balances, supply, allowances and the cap. */
module Cw20Accounting {
  import opened Prelude
  import opened Chain
  import opened MapSum
  import opened Cw20Ledger
  import opened Cw20Invariants

  /* ---- what a message announces about one account, the supply or one allowance ---- */

  ghost function Outflow(e: Event, a: Addr): nat {
    match e.msg
    case Transfer(_, n) => if a == e.ctx.sender then n else 0
    case Send(_, n) => if a == e.ctx.sender then n else 0
    case Burn(n) => if a == e.ctx.sender then n else 0
    case TransferFrom(owner, recipient, n) => if a == owner && owner != recipient then n else 0
    case SendFrom(owner, _, n) => if a == owner then n else 0
    case BurnFrom(owner, n) => if a == owner then n else 0
    case _ => 0
  }

  ghost function Inflow(e: Event, a: Addr): nat {
    match e.msg
    case Transfer(recipient, n) => if a == recipient then n else 0
    case Send(contract, n) => if a == contract then n else 0
    case TransferFrom(owner, recipient, n) => if a == recipient && owner != recipient then n else 0
    case SendFrom(_, contract, n) => if a == contract then n else 0
    case Mint(recipient, n) => if a == recipient then n else 0
    case _ => 0
  }

  ghost function Minted(e: Event): nat {
    if e.msg.Mint? then e.msg.amount else 0
  }

  ghost function Burned(e: Event): nat {
    if e.msg.Burn? || e.msg.BurnFrom? then e.msg.amount else 0
  }

  ghost function Raised(e: Event, owner: Addr, spender: Addr): nat {
    if e.msg.IncreaseAllowance? && e.ctx.sender == owner && e.msg.spender == spender then e.msg.amount else 0
  }

  /** What `spender` takes out of `owner`'s allowance with this message. */
  ghost function Taken(e: Event, owner: Addr, spender: Addr): nat {
    match e.msg
    case TransferFrom(o, recipient, n) =>
      if o == owner && e.ctx.sender == spender && owner != spender && recipient != owner then n else 0
    case SendFrom(o, _, n) => if o == owner && e.ctx.sender == spender then n else 0
    case BurnFrom(o, n) => if o == owner && e.ctx.sender == spender then n else 0
    case _ => 0
  }

  ghost function Revoked(l: Ledger, e: Event, owner: Addr, spender: Addr): nat {
    if e.msg.DecreaseAllowance? && e.ctx.sender == owner && e.msg.spender == spender
    then (if e.msg.amount < l.Granted(owner, spender) then e.msg.amount else l.Granted(owner, spender))
    else 0
  }

  /* ---- one accepted message ---- */

  lemma {:induction false} MoveBalances(l: Ledger, from: Addr, to: Addr, n: Uint128, overflow: Error, a: Addr)
    requires Move(l, from, to, n, overflow).Ok?
    ensures var after := Move(l, from, to, n, overflow).value;
            Bal(after, a) + (if a == from then n else 0) == Bal(l, a) + (if a == to then n else 0)
  {
  }

  lemma {:induction false} DeductBothKeepsBalances(l: Ledger, owner: Addr, spender: Addr, n: Uint128, block: Block)
    ensures DeductBoth(l, owner, spender, n, block).Ok? ==>
              var d := DeductBoth(l, owner, spender, n, block).value;
              d.balances == l.balances && d.info == l.info && d.marketing == l.marketing && d.logo == l.logo
  {
  }

  lemma {:induction false} SpendBalances(api: AddrCheck, l: Ledger, e: Event, a: Addr)
    requires e.msg.TransferFrom? || e.msg.SendFrom?
    requires Apply(api, l, e).Ok?
    ensures Bal(Next(api, l, e), a) + Outflow(e, a) == Bal(l, a) + Inflow(e, a)
  {
    var (owner, n) := (e.msg.owner, e.msg.amount);
    var to := if e.msg.SendFrom? then e.msg.contract else e.msg.recipient;
    DeductBothKeepsBalances(l, owner, e.ctx.sender, n, e.ctx.block);
    if e.msg.SendFrom? || to != owner {
      var paid := if e.msg.SendFrom? || e.ctx.sender != owner
                  then DeductBoth(l, owner, e.ctx.sender, n, e.ctx.block).value else l;
      assert Apply(api, l, e) == Move(paid, owner, to, n, Panic);
      MoveBalances(paid, owner, to, n, Panic, a);
    }
  }

  /** One accepted message moves each balance by exactly what it announces. */
  lemma {:induction false} StepBalances(api: AddrCheck, l: Ledger, e: Event, a: Addr)
    requires Apply(api, l, e).Ok?
    ensures Bal(Next(api, l, e), a) + Outflow(e, a) == Bal(l, a) + Inflow(e, a)
  {
    if e.msg.TransferFrom? || e.msg.SendFrom? {
      SpendBalances(api, l, e, a);
    } else if e.msg.Transfer? || e.msg.Send? {
      var to := if e.msg.Send? then e.msg.contract else e.msg.recipient;
      assert Apply(api, l, e) == Move(l, e.ctx.sender, to, e.msg.amount, Std(Overflow));
      MoveBalances(l, e.ctx.sender, to, e.msg.amount, Std(Overflow), a);
    } else if e.msg.BurnFrom? {
      DeductBothKeepsBalances(l, e.msg.owner, e.ctx.sender, e.msg.amount, e.ctx.block);
    }
  }

  /** How an accepted message changes the token's info. */
  ghost predicate InfoMoves(l: Ledger, e: Event, info: Option<TokenInfo>) {
    match e.msg
    case Burn(n) => LowerSupply(l.info, n) == Ok(info)
    case BurnFrom(_, n) => LowerSupply(l.info, n) == Ok(info)
    case Mint(_, n) =>
      && IsMinter(l, e.ctx.sender) && WithinCap(l, n)
      && info == Some(l.info.value.(supply := l.Supply() + n))
    case UpdateMinter(newMinter) =>
      && IsMinter(l, e.ctx.sender)
      && info == Some(l.info.value.(
           mint := if newMinter.None? then None else Some(MinterData(newMinter.value, l.Minter().value.cap))))
    case _ => info == l.info
  }

  lemma {:induction false} SpendFrame(api: AddrCheck, l: Ledger, e: Event)
    requires e.msg.TransferFrom? || e.msg.SendFrom? || e.msg.BurnFrom?
    requires Apply(api, l, e).Ok?
    ensures var after := Next(api, l, e);
            InfoMoves(l, e, after.info) && after.marketing == l.marketing && after.logo == l.logo
  {
    DeductBothKeepsBalances(l, e.msg.owner, e.ctx.sender, e.msg.amount, e.ctx.block);
  }

  /** Which message touches the info, and which the marketing data. */
  lemma {:induction false} StepFrame(api: AddrCheck, l: Ledger, e: Event)
    requires Apply(api, l, e).Ok?
    ensures var after := Next(api, l, e);
            && InfoMoves(l, e, after.info)
            && (e.msg.UpdateMarketing? || e.msg.UploadLogo? || (after.marketing == l.marketing && after.logo == l.logo))
  {
    if e.msg.TransferFrom? || e.msg.SendFrom? || e.msg.BurnFrom? { SpendFrame(api, l, e); }
  }

  lemma {:induction false} StepSupply(api: AddrCheck, l: Ledger, e: Event)
    requires Apply(api, l, e).Ok?
    ensures Next(api, l, e).Supply() + Burned(e) == l.Supply() + Minted(e)
  {
    StepFrame(api, l, e);
  }

  lemma {:induction false} DeductBothAllowance(
    l: Ledger, owner: Addr, spender: Addr, n: Uint128, block: Block, o: Addr, s: Addr)
    requires DeductBoth(l, owner, spender, n, block).Ok?
    ensures var d := DeductBoth(l, owner, spender, n, block).value;
            && d.Granted(o, s) + (if o == owner && s == spender then n else 0) == l.Granted(o, s)
            && ((o, s) in d.allowances <==> (o, s) in l.allowances)
            && ((o, s) in l.allowances ==> d.allowances[(o, s)].expires == l.allowances[(o, s)].expires)
  {
  }

  lemma {:induction false} SpendAllowance(api: AddrCheck, l: Ledger, e: Event, o: Addr, s: Addr)
    requires e.msg.TransferFrom? || e.msg.SendFrom? || e.msg.BurnFrom?
    requires NoSelfAllowance(l) && Apply(api, l, e).Ok?
    ensures Next(api, l, e).Granted(o, s) + Taken(e, o, s) == l.Granted(o, s)
    ensures (o, s) in Next(api, l, e).allowances <==> (o, s) in l.allowances
    ensures (o, s) in l.allowances ==> Next(api, l, e).allowances[(o, s)].expires == l.allowances[(o, s)].expires
  {
    var (owner, n) := (e.msg.owner, e.msg.amount);
    if !e.msg.TransferFrom? || (e.msg.recipient != owner && e.ctx.sender != owner) {
      var d := DeductBoth(l, owner, e.ctx.sender, n, e.ctx.block);
      assert d.Ok?;
      DeductBothAllowance(l, owner, e.ctx.sender, n, e.ctx.block, o, s);
      assert Next(api, l, e).allowances == d.value.allowances;
    }
  }

  lemma {:induction false} AdjustAllowance(api: AddrCheck, l: Ledger, e: Event, o: Addr, s: Addr)
    requires e.msg.IncreaseAllowance? || e.msg.DecreaseAllowance?
    requires Apply(api, l, e).Ok?
    ensures Next(api, l, e).Granted(o, s) + Revoked(l, e, o, s) == l.Granted(o, s) + Raised(e, o, s)
  {
    var (spender, n, expires) := (e.msg.spender, e.msg.amount, e.msg.expires);
    if e.msg.IncreaseAllowance? {
      var f := Increased(l.allowances, (e.ctx.sender, spender), n, expires, e.ctx.block);
      assert f.Ok? && Next(api, l, e).allowances == f.value;
    }
  }

  lemma {:induction false} OtherMessagesKeepAllowances(api: AddrCheck, l: Ledger, e: Event)
    requires !(e.msg.TransferFrom? || e.msg.SendFrom? || e.msg.BurnFrom?)
    requires !(e.msg.IncreaseAllowance? || e.msg.DecreaseAllowance?)
    ensures Next(api, l, e).allowances == l.allowances
  {
  }

  /** One accepted message moves each allowance by exactly what it announces. */
  lemma {:induction false} StepAllowance(api: AddrCheck, l: Ledger, e: Event, o: Addr, s: Addr)
    requires NoSelfAllowance(l) && Apply(api, l, e).Ok?
    ensures Next(api, l, e).Granted(o, s) + Taken(e, o, s) + Revoked(l, e, o, s)
            == l.Granted(o, s) + Raised(e, o, s)
  {
    if e.msg.TransferFrom? || e.msg.SendFrom? || e.msg.BurnFrom? {
      SpendAllowance(api, l, e, o, s);
    } else if e.msg.IncreaseAllowance? || e.msg.DecreaseAllowance? {
      AdjustAllowance(api, l, e, o, s);
    } else {
      OtherMessagesKeepAllowances(api, l, e);
    }
  }

  /** The message is `o`'s own increase or decrease of what `s` may spend. */
  ghost predicate Adjusts(e: Event, o: Addr, s: Addr) {
    e.ctx.sender == o && (e.msg.IncreaseAllowance? || e.msg.DecreaseAllowance?) && e.msg.spender == s
  }

  /** Which allowances there are and until when: only the owner's own increase or decrease for that
      spender creates, ends or re-dates an entry. It dates it as asked or keeps the date, and a
      decrease by all of it or more removes it. */
  lemma {:induction false} StepAllowanceDates(api: AddrCheck, l: Ledger, e: Event, o: Addr, s: Addr)
    requires NoSelfAllowance(l) && Apply(api, l, e).Ok?
    ensures var (before, after) := (l.allowances, Next(api, l, e).allowances);
            var date := if (o, s) in before then before[(o, s)].expires else Never;
            && ((o, s) in after <==>
                  if Adjusts(e, o, s) then e.msg.IncreaseAllowance? || e.msg.amount < l.Granted(o, s)
                  else (o, s) in before)
            && ((o, s) in after ==>
                  after[(o, s)].expires == if Adjusts(e, o, s) then e.msg.expires.GetOr(date) else date)
  {
    if e.msg.TransferFrom? || e.msg.SendFrom? || e.msg.BurnFrom? {
      SpendAllowance(api, l, e, o, s);
    } else if !e.msg.IncreaseAllowance? && !e.msg.DecreaseAllowance? {
      OtherMessagesKeepAllowances(api, l, e);
    }
  }

  /** A balance falls only for the sender of the message, or when an unexpired allowance
      granted to the sender falls by the same amount. */
  lemma {:induction false} BalanceFallsOnlyByConsent(api: AddrCheck, l: Ledger, e: Event, a: Addr)
    requires Inv(l)
    requires Bal(Next(api, l, e), a) < Bal(l, a)
    ensures a == e.ctx.sender
            || (&& (a, e.ctx.sender) in l.allowances
                && Live(l.allowances[(a, e.ctx.sender)].expires, e.ctx.block)
                && l.Granted(a, e.ctx.sender) - Next(api, l, e).Granted(a, e.ctx.sender)
                   == Bal(l, a) - Bal(Next(api, l, e), a))
  {
    StepBalances(api, l, e, a);
    StepAcceptedAndInvariant(api, l, e);
    StepAllowance(api, l, e, a, e.ctx.sender);
  }

  /** An owner needs no allowance to move its own tokens with TransferFrom, and can never use
      SendFrom or BurnFrom on its own account. */
  lemma {:induction false} OwnAccount(api: AddrCheck, l: Ledger, e: Event)
    requires Inv(l)
    ensures e.msg.SendFrom? && e.msg.owner == e.ctx.sender ==> Apply(api, l, e).Err?
    ensures e.msg.BurnFrom? && e.msg.owner == e.ctx.sender ==> Apply(api, l, e).Err?
    ensures e.msg.TransferFrom? && e.msg.owner == e.ctx.sender ==>
              (Apply(api, l, e).Ok? <==>
                 api(e.msg.owner) && api(e.msg.recipient)
                 && (e.msg.recipient == e.msg.owner || e.msg.amount <= Bal(l, e.msg.owner)))
  {
    StepAcceptedAndInvariant(api, l, e);
  }

  /* ---- whole runs ---- */

  datatype Totals = Totals(outflow: nat, inflow: nat, minted: nat, burned: nat)

  datatype AllowanceTotals = AllowanceTotals(raised: nat, taken: nat, revoked: nat)

  /** Announced amounts, added up over the accepted messages of a run. */
  ghost function RunTotals(api: AddrCheck, l: Ledger, es: seq<Event>, a: Addr): Totals
    decreases |es|
  {
    if es == [] then Totals(0, 0, 0, 0)
    else
      var t := RunTotals(api, Next(api, l, es[0]), es[1..], a);
      if Apply(api, l, es[0]).Err? then t
      else Totals(t.outflow + Outflow(es[0], a), t.inflow + Inflow(es[0], a),
                  t.minted + Minted(es[0]), t.burned + Burned(es[0]))
  }

  ghost function RunAllowance(api: AddrCheck, l: Ledger, es: seq<Event>, o: Addr, s: Addr): AllowanceTotals
    decreases |es|
  {
    if es == [] then AllowanceTotals(0, 0, 0)
    else
      var t := RunAllowance(api, Next(api, l, es[0]), es[1..], o, s);
      if Apply(api, l, es[0]).Err? then t
      else AllowanceTotals(t.raised + Raised(es[0], o, s), t.taken + Taken(es[0], o, s),
                           t.revoked + Revoked(l, es[0], o, s))
  }

  lemma {:induction false} RunBalancesAndSupply(api: AddrCheck, l: Ledger, es: seq<Event>, a: Addr)
    ensures var t := RunTotals(api, l, es, a);
            && Bal(Run(api, l, es), a) + t.outflow == Bal(l, a) + t.inflow
            && Run(api, l, es).Supply() + t.burned == l.Supply() + t.minted
    decreases |es|
  {
    if es != [] {
      RunBalancesAndSupply(api, Next(api, l, es[0]), es[1..], a);
      if Apply(api, l, es[0]).Ok? {
        StepBalances(api, l, es[0], a);
        StepSupply(api, l, es[0]);
      }
    }
  }

  /** Granted in total = still granted + taken by the spender + taken back by the owner. */
  lemma {:induction false} RunAllowanceConservation(api: AddrCheck, l: Ledger, es: seq<Event>, o: Addr, s: Addr)
    requires Inv(l)
    ensures var t := RunAllowance(api, l, es, o, s);
            l.Granted(o, s) + t.raised == Run(api, l, es).Granted(o, s) + t.taken + t.revoked
    decreases |es|
  {
    if es != [] {
      StepAcceptedAndInvariant(api, l, es[0]);
      RunAllowanceConservation(api, Next(api, l, es[0]), es[1..], o, s);
      if Apply(api, l, es[0]).Ok? { StepAllowance(api, l, es[0], o, s); }
    }
  }

  /* ---- minter and cap ---- */

  ghost function Metadata(l: Ledger): Option<(seq<Byte>, seq<Byte>, nat)> {
    if l.info.None? then None else Some((l.info.value.name, l.info.value.symbol, l.info.value.decimals))
  }

  ghost predicate CapRespected(l: Ledger, cap: Uint128) {
    l.Supply() <= cap && (l.Minter().Some? ==> l.Minter().value.cap == Some(cap))
  }

  /** What a later state may differ in: the cap is fixed while there is a minter, and without
      a minter none returns and the supply only shrinks; the metadata is fixed. */
  ghost predicate MintingEvolves(before: Ledger, after: Ledger) {
    && (after.Minter().Some? ==>
          before.Minter().Some? && after.Minter().value.cap == before.Minter().value.cap)
    && (before.Minter().None? ==> after.Supply() <= before.Supply())
    && Metadata(after) == Metadata(before)
  }

  /** The minter changes only by its own UpdateMinter, to what was asked, with the same cap. */
  lemma {:induction false} MinterAfterStep(api: AddrCheck, l: Ledger, e: Event)
    ensures Next(api, l, e).Minter() ==
              if e.msg.UpdateMinter? && Apply(api, l, e).Ok?
              then (if e.msg.newMinter.None? then None
                    else Some(MinterData(e.msg.newMinter.value, l.Minter().value.cap)))
              else l.Minter()
    ensures e.msg.UpdateMinter? && Apply(api, l, e).Ok? ==> IsMinter(l, e.ctx.sender)
  {
    if Apply(api, l, e).Ok? { StepFrame(api, l, e); }
  }

  lemma {:induction false} MetadataAfterStep(api: AddrCheck, l: Ledger, e: Event)
    ensures Metadata(Next(api, l, e)) == Metadata(l)
  {
    if Apply(api, l, e).Ok? { StepFrame(api, l, e); }
  }

  lemma {:induction false} StepMinting(api: AddrCheck, l: Ledger, e: Event)
    ensures MintingEvolves(l, Next(api, l, e))
    ensures forall cap :: CapRespected(l, cap) ==> CapRespected(Next(api, l, e), cap)
  {
    MinterAfterStep(api, l, e);
    MetadataAfterStep(api, l, e);
    if Apply(api, l, e).Ok? { StepSupply(api, l, e); }
  }

  lemma {:induction false} RunMinting(api: AddrCheck, l: Ledger, es: seq<Event>)
    ensures MintingEvolves(l, Run(api, l, es))
    ensures forall cap :: CapRespected(l, cap) ==> CapRespected(Run(api, l, es), cap)
    decreases |es|
  {
    if es != [] {
      StepMinting(api, l, es[0]);
      RunMinting(api, Next(api, l, es[0]), es[1..]);
    }
  }
}
