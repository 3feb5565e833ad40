/** The cw1-whitelist contract: a set of admins that admins may replace until it is frozen. */
module Whitelist {
  import opened Prelude
  import opened Chain
  import opened Ordering

  datatype Error = Std | Unauthorized | ContractFrozen

  /** `isMutable` is absent until the contract is instantiated. */
  datatype AdminState = AdminState(admins: set<Addr>, isMutable: Option<bool>)

  const NO_ADMINS := AdminState({}, None)

  datatype Msg = Freeze | UpdateAdmins(admins: seq<string>)

  datatype Event = Event(sender: Addr, msg: Msg)

  ghost function AsSet(s: seq<string>): set<Addr> {
    set a | a in s
  }

  ghost predicate AllValid(api: AddrCheck, s: seq<string>) {
    forall a :: a in s ==> api(a)
  }

  /** The abstract machine: an accepted update replaces the set, an accepted freeze ends updates. */
  ghost function Apply(api: AddrCheck, s: AdminState, e: Event): Result<AdminState, Error> {
    if e.sender !in s.admins then Err(Unauthorized)
    else match e.msg
      case Freeze => Ok(s.(isMutable := Some(false)))
      case UpdateAdmins(requested) =>
        if s.isMutable.None? then Err(Std)
        else if !s.isMutable.value then Err(ContractFrozen)
        else if !AllValid(api, requested) then Err(Std)
        else Ok(s.(admins := AsSet(requested)))
  }

  ghost function Next(api: AddrCheck, s: AdminState, e: Event): AdminState {
    match Apply(api, s, e)
    case Ok(after) => after
    case Err(_) => s
  }

  ghost function Run(api: AddrCheck, s: AdminState, es: seq<Event>): AdminState
    decreases |es|
  {
    if es == [] then s else Next(api, Run(api, s, es[..|es| - 1]), es[|es| - 1])
  }

  /* ---- one message ---- */

  /** Why a message is refused, if it is: only an admin may send one, and an update also needs a
      mutable list and valid addresses. */
  ghost function Refusal(api: AddrCheck, s: AdminState, e: Event): Option<Error> {
    if e.sender !in s.admins then Some(Unauthorized)
    else if e.msg.Freeze? then None
    else if s.isMutable == Some(false) then Some(ContractFrozen)
    else if s.isMutable == None || exists a :: a in e.msg.admins && !api(a) then Some(Std)
    else None
  }

  /** A message is refused for exactly that reason. The state changes only by an admin's message: an
      update of a mutable list to what was asked for, or a freeze, which touches no admin. */
  lemma {:induction false} StepByAdmin(api: AddrCheck, s: AdminState, e: Event)
    ensures Apply(api, s, e).Ok? <==> Refusal(api, s, e).None?
    ensures Apply(api, s, e).Err? ==> Refusal(api, s, e) == Some(Apply(api, s, e).error)
    ensures var after := Next(api, s, e);
            after != s ==>
              && e.sender in s.admins
              && match e.msg
                 case Freeze => after == AdminState(s.admins, Some(false))
                 case UpdateAdmins(requested) =>
                   && s.isMutable == Some(true) && after.isMutable == Some(true)
                   && forall a :: a in after.admins <==> a in requested
  {
  }

  /* ---- whole runs ---- */

  /** The i-th message of a run is an update sent by an admin of that moment to a list mutable then. */
  ghost predicate AdminUpdates(api: AddrCheck, s: AdminState, es: seq<Event>, i: nat) {
    && i < |es| && es[i].msg.UpdateAdmins?
    && es[i].sender in Run(api, s, es[..i]).admins && Run(api, s, es[..i]).isMutable == Some(true)
  }

  /** Different admins come with an admin of some moment who sent an update. */
  lemma {:induction false} AdminsChangeByAdmin(api: AddrCheck, s: AdminState, es: seq<Event>)
    ensures Run(api, s, es).admins != s.admins ==> exists i: nat :: AdminUpdates(api, s, es, i)
    decreases |es|
  {
    if es != [] {
      var n := |es| - 1;
      AdminsChangeByAdmin(api, s, es[..n]);
      StepByAdmin(api, Run(api, s, es[..n]), es[n]);
      if i: nat :| AdminUpdates(api, s, es[..n], i) {
        assert es[..n][..i] == es[..i];
        assert AdminUpdates(api, s, es, i);
      }
      if Run(api, s, es).admins != Run(api, s, es[..n]).admins { assert AdminUpdates(api, s, es, n); }
    }
  }

  /** The i-th message of a run is an update that the contract accepts. */
  ghost predicate AcceptedUpdate(api: AddrCheck, s: AdminState, es: seq<Event>, i: nat) {
    i < |es| && es[i].msg.UpdateAdmins? && Apply(api, Run(api, s, es[..i]), es[i]).Ok?
  }

  ghost predicate LastUpdate(api: AddrCheck, s: AdminState, es: seq<Event>, i: nat) {
    AcceptedUpdate(api, s, es, i) && forall k :: i < k < |es| ==> !AcceptedUpdate(api, s, es, k)
  }

  lemma {:induction false} PrefixUpdates(api: AddrCheck, s: AdminState, es: seq<Event>, n: nat, k: nat)
    requires k < n <= |es|
    ensures AcceptedUpdate(api, s, es[..n], k) <==> AcceptedUpdate(api, s, es, k)
  {
    assert es[..n][..k] == es[..k];
  }

  /** The admins are those of the last accepted update. */
  lemma {:induction false} AdminsComeFromLastUpdate(api: AddrCheck, s: AdminState, es: seq<Event>, i: nat)
    requires LastUpdate(api, s, es, i)
    ensures Run(api, s, es).admins == AsSet(es[i].msg.admins)
    decreases |es|
  {
    var n := |es| - 1;
    if i < n {
      PrefixUpdates(api, s, es, n, i);
      forall k: nat | i < k < n ensures !AcceptedUpdate(api, s, es[..n], k) { PrefixUpdates(api, s, es, n, k); }
      AdminsComeFromLastUpdate(api, s, es[..n], i);
      assert !AcceptedUpdate(api, s, es, n);
    }
  }

  /** Without an accepted update they are those the contract started with. */
  lemma {:induction false} AdminsStayWithoutUpdate(api: AddrCheck, s: AdminState, es: seq<Event>)
    requires forall k: nat :: k < |es| ==> !AcceptedUpdate(api, s, es, k)
    ensures Run(api, s, es).admins == s.admins
    decreases |es|
  {
    if es != [] {
      var n := |es| - 1;
      forall k: nat | k < n ensures !AcceptedUpdate(api, s, es[..n], k) { PrefixUpdates(api, s, es, n, k); }
      AdminsStayWithoutUpdate(api, s, es[..n]);
      assert !AcceptedUpdate(api, s, es, n);
    }
  }

  /** Frozen or without admins, the contract never changes again. */
  lemma {:induction false} FrozenOrEmptyIsFinal(api: AddrCheck, s: AdminState, es: seq<Event>)
    requires s.isMutable == Some(false) || s.admins == {}
    ensures Run(api, s, es) == s
    decreases |es|
  {
    if es != [] { FrozenOrEmptyIsFinal(api, s, es[..|es| - 1]); }
  }

  lemma {:induction false} RunSplits(api: AddrCheck, s: AdminState, es: seq<Event>, more: seq<Event>)
    ensures Run(api, s, es + more) == Run(api, Run(api, s, es), more)
    decreases |more|
  {
    if more == [] {
      assert es + more == es;
    } else {
      var init := more[..|more| - 1];
      RunSplits(api, s, es, init);
      assert (es + more)[..|es + more| - 1] == es + init;
    }
  }

  /** From the first accepted freeze on, every later state is the state it left. */
  lemma {:induction false} NothingChangesAfterFreeze(api: AddrCheck, s: AdminState, es: seq<Event>, i: nat)
    requires i < |es| && es[i].msg.Freeze? && es[i].sender in Run(api, s, es[..i]).admins
    ensures Run(api, s, es) == Run(api, s, es[..i]).(isMutable := Some(false))
  {
    assert es == es[..i + 1] + es[i + 1..];
    assert es[..i + 1][..i] == es[..i];
    RunSplits(api, s, es[..i + 1], es[i + 1..]);
    FrozenOrEmptyIsFinal(api, Run(api, s, es[..i + 1]), es[i + 1..]);
  }

  /* ---- the stored contract ---- */

  /** A position of `x`, or the one where it belongs; with repeats any matching position will do. */
  ghost predicate SearchResult(s: seq<string>, x: string, r: Result<nat, nat>) {
    match r
    case Ok(i) => i < |s| && s[i] == x
    case Err(i) =>
      && i <= |s| && (forall k :: 0 <= k < i ==> Lt(s[k], x))
      && (forall k :: i <= k < |s| ==> Lt(x, s[k]))
  }

  /** The standard library's binary search, known to its caller by this contract. */
  method BinarySearch(s: seq<string>, x: string) returns (r: Result<nat, nat>)
    requires Sorted(s)
    ensures SearchResult(s, x, r)
  {
    TotalOrder();
    var (low, high) := (0, |s|);
    while low < high
      invariant 0 <= low <= high <= |s|
      invariant forall k :: 0 <= k < low ==> Lt(s[k], x)
      invariant forall k :: high <= k < |s| ==> Lt(x, s[k])
    {
      var mid := (low + high) / 2;
      if s[mid] == x {
        return Ok(mid);
      } else if Lt(s[mid], x) {
        low := mid + 1;
      } else {
        high := mid;
      }
    }
    return Err(low);
  }

  lemma {:induction false} PresentIsFound(s: seq<string>, k: nat, r: Result<nat, nat>)
    requires k < |s| && SearchResult(s, s[k], r)
    ensures r.Ok?
  {
    LtIrreflexive(s[k]);
  }

  /** In the scan below the adjacent stored keys "c" and "d" are found at 2, and then at 1 of the
      slice that starts there, so the index moves back from 2 to 1. */
  lemma {:induction false} IndexMovesBack(first: Result<nat, nat>, second: Result<nat, nat>)
    ensures var requested := ["a", "b", "c", "d"];
            && Sorted(requested)
            && (SearchResult(requested, "c", first) ==> first == Ok(2))
            && (SearchResult(requested[2..], "d", second) ==> second == Ok(1))
  {
    TotalOrder();
    var requested := ["a", "b", "c", "d"];
    assert requested[2..] == ["c", "d"];
    assert Lt("a", "b") && Lt("b", "c") && Lt("c", "d");
    if SearchResult(requested, "c", first) { PresentIsFound(requested, 2, first); }
    if SearchResult(requested[2..], "d", second) { PresentIsFound(requested[2..], 1, second); }
  }

  class Contract {
    const api: AddrCheck
    var admins: set<Addr>
    var isMutable: Option<bool>

    function State(): AdminState
      reads this
    {
      AdminState(admins, isMutable)
    }

    constructor (api: AddrCheck)
      ensures this.api == api && State() == NO_ADMINS
    {
      this.api := api;
      admins, isMutable := {}, None;
    }

    /** On an error the chain discards what was written. */
    method Instantiate(requested: seq<string>, mutable: bool) returns (r: Result<(), Error>)
      modifies this
      ensures r.Ok? <==> AllValid(api, requested)
      ensures r.Ok? ==> State() == AdminState(old(admins) + AsSet(requested), Some(mutable))
    {
      r := SaveAll(requested);
      if r.Ok? { isMutable := Some(mutable); }
    }

    predicate IsAdmin(a: Addr)
      reads this
    {
      a in admins
    }

    method SaveAll(requested: seq<string>) returns (r: Result<(), Error>)
      modifies this`admins
      ensures r == if AllValid(api, requested) then Ok(()) else Err(Std)
      ensures r.Ok? ==> admins == old(admins) + AsSet(requested)
    {
      for i := 0 to |requested|
        invariant AllValid(api, requested[..i])
        invariant admins == old(admins) + AsSet(requested[..i])
      {
        if !api(requested[i]) {
          return Err(Std);
        }
        admins := admins + {requested[i]};
        assert requested[..i + 1] == requested[..i] + [requested[i]];
      }
      assert requested[..|requested|] == requested;
      r := Ok(());
    }

    method Freeze(sender: Addr) returns (r: Result<(), Error>)
      modifies this`isMutable
      ensures match Apply(api, old(State()), Event(sender, Msg.Freeze))
              case Ok(after) => r == Ok(()) && State() == after
              case Err(error) => r == Err(error)
    {
      if !IsAdmin(sender) {
        return Err(Unauthorized);
      }
      isMutable := Some(false);
      r := Ok(());
    }

    /** The stored keys in ascending order. */
    method Keys() returns (keys: seq<Addr>)
      ensures StrictlySorted(keys)
      ensures forall a :: a in keys <==> a in admins
    {
      TotalOrder();
      var rest := admins;
      keys := [];
      while rest != {}
        invariant rest <= admins && Distinct(keys)
        invariant forall a :: a in keys <==> a in admins && a !in rest
        decreases |rest|
      {
        var a :| a in rest;
        assert a !in keys;
        keys, rest := keys + [a], rest - {a};
      }
      SortKeepsMembers(keys);
      SortKeepsDistinct(keys);
      keys := Sort(keys);
    }

    method AdminList() returns (r: Result<(seq<Addr>, bool), Error>)
      ensures r.Ok? <==> isMutable.Some?
      ensures r.Ok? ==> StrictlySorted(r.value.0) && AsSet(r.value.0) == admins && r.value.1 == isMutable.value
    {
      var keys := Keys();
      r := if isMutable.Some? then Ok((keys, isMutable.value)) else Err(Std);
    }

    /** Which stored keys the sorted request drops. Each hit stores an index relative to the
        searched slice, so `lowIdx` may move back; it never passes a name a later key could match. */
    method KeysToRemove(sorted: seq<string>) returns (toRemove: seq<Addr>)
      requires Sorted(sorted)
      ensures forall a :: a in toRemove <==> a in admins && a !in sorted
    {
      TotalOrder();
      var keys := Keys();
      var lowIdx := 0;
      toRemove := [];
      for i := 0 to |keys|
        invariant lowIdx <= |sorted|
        invariant forall k, j :: 0 <= k < lowIdx && i <= j < |keys| ==> Lt(sorted[k], keys[j])
        invariant forall a :: a in toRemove <==> a in keys[..i] && a !in sorted
      {
        var remove := true;
        if lowIdx < |sorted| {
          ghost var low := lowIdx;
          var found := BinarySearch(sorted[lowIdx..], keys[i]);
          match found {
            case Ok(idx) =>
              assert sorted[low + idx] == keys[i];
              lowIdx := idx;
              remove := false;
            case Err(idx) =>
              forall k | 0 <= k < |sorted| ensures sorted[k] != keys[i] && (k < idx ==> Lt(sorted[k], keys[i])) {
                if k >= low { assert sorted[k] == sorted[low..][k - low]; }
              }
              lowIdx := idx;
          }
          assert forall k :: 0 <= k < lowIdx ==> Le(sorted[k], keys[i]);
        }
        if remove { toRemove := toRemove + [keys[i]]; }
        assert keys[..i + 1] == keys[..i] + [keys[i]];
      }
      assert keys[..|keys|] == keys;
    }

    method UpdateAdmins(sender: Addr, requested: seq<string>) returns (r: Result<(), Error>)
      modifies this`admins
      ensures match Apply(api, old(State()), Event(sender, Msg.UpdateAdmins(requested)))
              case Ok(after) => r == Ok(()) && State() == after
              case Err(error) => r == Err(error)
    {
      if !IsAdmin(sender) {
        return Err(Unauthorized);
      }
      if isMutable.None? {
        return Err(Std);
      }
      if !isMutable.value {
        return Err(ContractFrozen);
      }
      var sorted := Sort(requested);
      SortKeepsMembers(requested);
      var toRemove := KeysToRemove(sorted);
      for i := 0 to |toRemove|
        invariant admins == old(admins) - AsSet(toRemove[..i])
      {
        admins := admins - {toRemove[i]};
        assert toRemove[..i + 1] == toRemove[..i] + [toRemove[i]];
      }
      assert toRemove[..|toRemove|] == toRemove;
      r := SaveAll(sorted);
    }

    /** One message as the chain runs it. */
    method Execute(e: Event) returns (r: Result<(), Error>)
      modifies this
      ensures r.Ok? <==> Apply(api, old(State()), e).Ok?
      ensures r.Err? ==> r.error == Apply(api, old(State()), e).error
      ensures State() == Next(api, old(State()), e)
    {
      var saved := State();
      match e.msg {
        case Freeze => r := Freeze(e.sender);
        case UpdateAdmins(requested) => r := UpdateAdmins(e.sender, requested);
      }
      if r.Err? { admins, isMutable := saved.admins, saved.isMutable; }
    }
  }
}
