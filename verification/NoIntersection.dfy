/** The compile-time check that no message name is offered by two interfaces: a merge over sorted
    name lists, comparing only the names under the cursors. */
module NoIntersection {
  import opened Ordering

  type Names = seq<seq<string>>

  datatype State = Ongoing(at: nat) | Finished(at: nat) | Empty

  /** Some name occurs in two different lists. */
  ghost predicate Intersects(msgs: Names) {
    exists i, j, p, q :: CommonName(msgs, i, j, p, q)
  }

  ghost predicate CommonName(msgs: Names, i: nat, j: nat, p: nat, q: nat) {
    i < |msgs| && j < |msgs| && i != j && p < |msgs[i]| && q < |msgs[j]| && msgs[i][p] == msgs[j][q]
  }

  ghost predicate AllSorted(msgs: Names) {
    forall i :: 0 <= i < |msgs| ==> Sorted(msgs[i])
  }

  /* ---- cursors ---- */

  ghost predicate Fits(names: seq<string>, s: State) {
    match s
    case Ongoing(at) => at < |names|
    case Finished(at) => at + 1 == |names|
    case Empty => names == []
  }

  ghost predicate AllFit(msgs: Names, states: seq<State>) {
    |states| == |msgs| && forall i :: 0 <= i < |msgs| ==> Fits(msgs[i], states[i])
  }

  /** How many names of a list its cursor has passed. */
  ghost function Passed(s: State): nat {
    match s
    case Ongoing(at) => at
    case Finished(at) => at + 1
    case Empty => 0
  }

  ghost function AllPassed(states: seq<State>): nat {
    if states == [] then 0 else Passed(states[0]) + AllPassed(states[1..])
  }

  ghost function Count(msgs: Names): nat {
    if msgs == [] then 0 else |msgs[0]| + Count(msgs[1..])
  }

  lemma {:induction false} AllPassedAfter(states: seq<State>, i: nat, s: State)
    requires i < |states|
    ensures AllPassed(states[i := s]) == AllPassed(states) - Passed(states[i]) + Passed(s)
  {
    if i == 0 {
      assert states[i := s][1..] == states[1..];
    } else {
      AllPassedAfter(states[1..], i - 1, s);
      assert states[i := s][1..] == states[1..][i - 1 := s];
    }
  }

  lemma {:induction false} AllPassedBounded(msgs: Names, states: seq<State>)
    requires AllFit(msgs, states)
    ensures AllPassed(states) <= Count(msgs)
    ensures Done(states) ==> AllPassed(states) == Count(msgs)
    ensures (forall i :: 0 <= i < |states| ==> Passed(states[i]) == 0) ==> AllPassed(states) == 0
  {
    if msgs != [] {
      AllPassedBounded(msgs[1..], states[1..]);
    }
  }

  /** Names already passed in one list are below every name still to come in another list, and
      differ from every name passed in another list. */
  ghost predicate Separated(msgs: Names, states: seq<State>)
    requires AllFit(msgs, states)
  {
    forall i, j, p, q {:trigger msgs[i][p], msgs[j][q]} ::
      0 <= i < |msgs| && 0 <= j < |msgs| && i != j && 0 <= p < Passed(states[i]) && 0 <= q < |msgs[j]| ==>
        if q < Passed(states[j]) then msgs[i][p] != msgs[j][q] else Lt(msgs[i][p], msgs[j][q])
  }

  /** `index` is ongoing and has the smallest name among the ongoing cursors. */
  ghost predicate IsMinimum(msgs: Names, states: seq<State>, index: nat)
    requires AllFit(msgs, states)
  {
    && index < |states| && states[index].Ongoing?
    && forall j :: 0 <= j < |states| && states[j].Ongoing? ==>
         Le(msgs[index][states[index].at], msgs[j][states[j].at])
  }

  /** Another cursor, ongoing or finished, shows the same name as `index`. */
  ghost predicate Collides(msgs: Names, states: seq<State>, index: nat)
    requires AllFit(msgs, states) && index < |states| && states[index].Ongoing?
  {
    exists j :: 0 <= j < |states| && j != index && !states[j].Empty?
                && msgs[j][states[j].at] == msgs[index][states[index].at]
  }

  ghost predicate Done(states: seq<State>) {
    forall i :: 0 <= i < |states| ==> !states[i].Ongoing?
  }

  ghost function Advance(names: seq<string>, at: nat): State {
    if |names| == at + 1 then Finished(at) else Ongoing(at + 1)
  }

  lemma {:induction false} AdvanceKeepsSeparated(msgs: Names, states: seq<State>, index: nat)
    requires AllSorted(msgs) && AllFit(msgs, states) && Separated(msgs, states)
    requires IsMinimum(msgs, states, index) && !Collides(msgs, states, index)
    ensures AllFit(msgs, states[index := Advance(msgs[index], states[index].at)])
    ensures Separated(msgs, states[index := Advance(msgs[index], states[index].at)])
  {
    TotalOrder();
    var at := states[index].at;
    var after := states[index := Advance(msgs[index], at)];
    assert Passed(after[index]) == at + 1;
    forall j, q | 0 <= j < |msgs| && j != index && Passed(states[j]) <= q < |msgs[j]|
      ensures Lt(msgs[index][at], msgs[j][q])
    {
      assert Fits(msgs[j], states[j]) && states[j].Ongoing?;
      assert Lt(msgs[index][at], msgs[j][states[j].at]) && Le(msgs[j][states[j].at], msgs[j][q]);
    }
    forall i, j, p, q | 0 <= i < |msgs| && 0 <= j < |msgs| && i != j
                        && 0 <= p < Passed(after[i]) && 0 <= q < Passed(after[j])
      ensures msgs[i][p] != msgs[j][q]
    {
      if i == index && p == at {
        assert Lt(msgs[j][q], msgs[i][p]);
      } else if j == index && q == at {
        assert Lt(msgs[i][p], msgs[j][q]);
      }
    }
  }

  lemma {:induction false} AllPassedIsDisjoint(msgs: Names, states: seq<State>)
    requires AllFit(msgs, states) && Separated(msgs, states)
    requires Done(states)
    ensures !Intersects(msgs)
  {
    forall i, j, p, q ensures !CommonName(msgs, i, j, p, q) {}
  }

  /** What the loop knows: on sorted lists the names passed so far are separated from the rest. */
  ghost predicate Progress(msgs: Names, states: seq<State>, iterations: nat) {
    && AllFit(msgs, states)
    && iterations == AllPassed(states) <= Count(msgs)
    && (AllSorted(msgs) ==> Separated(msgs, states))
  }

  lemma {:induction false} ProgressStep(msgs: Names, states: seq<State>, iterations: nat, index: nat)
    requires Progress(msgs, states, iterations)
    requires IsMinimum(msgs, states, index) && !Collides(msgs, states, index)
    ensures Progress(msgs, states[index := Advance(msgs[index], states[index].at)], iterations + 1)
  {
    var after := states[index := Advance(msgs[index], states[index].at)];
    assert AllFit(msgs, after);
    AllPassedAfter(states, index, after[index]);
    AllPassedBounded(msgs, after);
    if AllSorted(msgs) { AdvanceKeepsSeparated(msgs, states, index); }
  }

  lemma {:induction false} CollisionIsIntersection(msgs: Names, states: seq<State>, index: nat)
    requires AllFit(msgs, states) && index < |states| && states[index].Ongoing?
    requires Collides(msgs, states, index)
    ensures Intersects(msgs)
  {
    var j :| 0 <= j < |states| && j != index && !states[j].Empty?
             && msgs[j][states[j].at] == msgs[index][states[index].at];
    assert Fits(msgs[j], states[j]) && Fits(msgs[index], states[index]);
    assert CommonName(msgs, j, index, states[j].at, states[index].at);
  }

  lemma {:induction false} Finish(msgs: Names, states: seq<State>, iterations: nat)
    requires Progress(msgs, states, iterations) && Done(states)
    ensures iterations == Count(msgs)
    ensures AllSorted(msgs) ==> !Intersects(msgs)
  {
    AllPassedBounded(msgs, states);
    if AllSorted(msgs) { AllPassedIsDisjoint(msgs, states); }
  }

  /* ---- the check ---- */

  method InitStates(msgs: Names) returns (states: array<State>)
    ensures fresh(states) && AllFit(msgs, states[..])
    ensures forall i :: 0 <= i < |msgs| ==> states[i] == if msgs[i] == [] then Empty else Ongoing(0)
  {
    states := new State[|msgs|](_ => Ongoing(0));
    for i := 0 to |msgs|
      invariant forall k :: 0 <= k < i ==> states[k] == if msgs[k] == [] then Empty else Ongoing(0)
      invariant forall k :: i <= k < |msgs| ==> states[k] == Ongoing(0)
    {
      if msgs[i] == [] {
        states[i] := Empty;
      }
    }
  }

  method ShouldEnd(states: array<State>) returns (end: bool)
    ensures end <==> Done(states[..])
  {
    for i := 0 to states.Length
      invariant forall k :: 0 <= k < i ==> !states[k].Ongoing?
    {
      if states[i].Ongoing? {
        return false;
      }
    }
    return true;
  }

  /** The first of the ongoing lists whose current name is smallest. */
  method GetNextAlphabeticalIndex(msgs: Names, states: array<State>) returns (index: nat)
    requires AllFit(msgs, states[..]) && !Done(states[..])
    ensures IsMinimum(msgs, states[..], index)
    ensures forall j :: 0 <= j < index && states[j].Ongoing? ==>
              Lt(msgs[index][states[index].at], msgs[j][states[j].at])
  {
    TotalOrder();
    index := 0;
    assert forall k :: 0 <= k < |msgs| ==> Fits(msgs[k], states[..][k]);
    for i := 0 to states.Length
      invariant index < states.Length
      invariant (exists k :: 0 <= k < i && states[k].Ongoing?) ==> states[index].Ongoing?
      invariant forall j :: 0 <= j < i && states[j].Ongoing? ==>
                  states[index].Ongoing? && Le(msgs[index][states[index].at], msgs[j][states[j].at])
      invariant index <= i
      invariant forall j :: 0 <= j < index && states[j].Ongoing? ==>
                  states[index].Ongoing? && Lt(msgs[index][states[index].at], msgs[j][states[j].at])
    {
      if states[i].Ongoing? {
        if states[index].Ongoing? {
          if Lt(msgs[i][states[i].at], msgs[index][states[index].at]) {
            index := i;
          }
        } else {
          index := i;
        }
      }
    }
  }

  /** True when the source panics. Finished lists still show their last name. */
  method VerifyNoCollisions(msgs: Names, states: array<State>, index: nat) returns (panics: bool)
    requires AllFit(msgs, states[..]) && index < states.Length && states[index].Ongoing?
    ensures panics <==> Collides(msgs, states[..], index)
  {
    assert forall k :: 0 <= k < |msgs| ==> Fits(msgs[k], states[..][k]);
    var i := 0;
    while i < states.Length
      invariant 0 <= i <= states.Length
      invariant forall j :: 0 <= j < i && j != index && !states[j].Empty? ==>
                  msgs[j][states[j].at] != msgs[index][states[index].at]
    {
      if i != index && !states[i].Empty? && msgs[i][states[i].at] == msgs[index][states[index].at] {
        return true;
      }
      i := i + 1;
    }
    return false;
  }

  /** For any lists the check ends, stays in bounds and panics only on a real overlap; accepting
      takes one iteration per name. On sorted lists it panics exactly when two lists overlap. */
  method AssertNoIntersection(msgs: Names) returns (panics: bool, iterations: nat)
    ensures panics ==> Intersects(msgs)
    ensures AllSorted(msgs) ==> (panics <==> Intersects(msgs))
    ensures !panics ==> iterations == Count(msgs)
    ensures iterations <= Count(msgs)
  {
    var states := InitStates(msgs);
    iterations := 0;
    AllPassedBounded(msgs, states[..]);
    var end := ShouldEnd(states);
    while !end
      invariant fresh(states) && Progress(msgs, states[..], iterations)
      invariant end <==> Done(states[..])
      decreases Count(msgs) - iterations, !end
    {
      ghost var before := states[..];
      var index := GetNextAlphabeticalIndex(msgs, states);
      var collision := VerifyNoCollisions(msgs, states, index);
      if collision {
        CollisionIsIntersection(msgs, before, index);
        return true, iterations;
      }
      ProgressStep(msgs, before, iterations, index);
      assert states[index] == before[index];
      match states[index] {
        case Ongoing(wi) =>
          states[index] := if |msgs[index]| == wi + 1 then Finished(wi) else Ongoing(wi + 1);
        case _ => assert false; // the source's unreachable!()
      }
      assert states[..] == before[index := Advance(msgs[index], before[index].at)];
      iterations := iterations + 1;
      end := ShouldEnd(states);
    }
    Finish(msgs, states[..], iterations);
    panics := false;
  }
}
