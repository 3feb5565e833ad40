/** The contract-wide message enum: which name lists its collision assert checks, and how its
    Deserialize routes a message to an interface or to the contract itself. */
module Router {
  import opened Prelude
  import opened Ordering
  import opened NoIntersection

  /** A self-describing value, as far as routing looks at it. */
  datatype Value = Map(entries: seq<(Value, Value)>) | Str(s: string) | Other(id: int)

  /** One message of one enum: the variant's wire tag and its fields. */
  datatype Message = Message(tag: string, body: Value)

  /** The message enum of an interface or of the contract: its variants in declaration order, and
      which bodies deserialize as the fields of a variant. */
  datatype Part = Part(variants: seq<string>, fits: (string, Value) -> bool) {
    /** The generated `*_messages()`: the variants' names, sorted. */
    function Messages(): seq<string> {
      Sort(variants)
    }

    predicate Has(m: Message) {
      m.tag in variants && fits(m.tag, m.body)
    }

    function Decode(val: Value): Option<Message> {
      if val.Map? && |val.entries| == 1 && val.entries[0].0.Str?
         && Has(Message(val.entries[0].0.s, val.entries[0].1))
      then Some(Message(val.entries[0].0.s, val.entries[0].1))
      else None
    }
  }

  datatype Glue = Glue(interfaces: seq<Part>, contract: Part) {
    function Parts(): seq<Part> {
      interfaces + [contract]
    }

    /** The lists given to the collision assert: the interfaces' calls, then the contract's own. */
    function Lists(): (r: Names)
      ensures |r| == |Parts()| && forall i :: 0 <= i < |r| ==> r[i] == Parts()[i].Messages()
    {
      seq(|interfaces|, i requires 0 <= i < |interfaces| => interfaces[i].Messages()) + [contract.Messages()]
    }

    ghost predicate Holds(w: Wrapped) {
      w.index < |Parts()| && Parts()[w.index].Has(w.msg)
    }
  }

  /** A value of the wrapper enum: the variant's position (the contract comes last) and its message. */
  datatype Wrapped = Wrapped(index: nat, msg: Message)

  datatype DeError = WrongFormat | NotOneMessage(received: nat) | BadMessage | Unsupported

  /** The wrapper is untagged: it serializes as the message it holds. */
  function Serialize(w: Wrapped): Value {
    Map([(Str(w.msg.tag), w.msg.body)])
  }

  /** The deserialization attempts from position `i` on; the first list that has the name decides. */
  function Attempt(parts: seq<Part>, i: nat, name: string, val: Value): Result<Wrapped, DeError>
    requires i <= |parts|
    decreases |parts| - i
  {
    if i == |parts| then Err(Unsupported)
    else if name in parts[i].Messages() then
      match parts[i].Decode(val)
      case Some(msg) => Ok(Wrapped(i, msg))
      case None => Err(BadMessage)
    else Attempt(parts, i + 1, name, val)
  }

  function Deserialize(g: Glue, val: Value): Result<Wrapped, DeError> {
    if !val.Map? then Err(WrongFormat)
    else if |val.entries| != 1 then Err(NotOneMessage(|val.entries|))
    else if !val.entries[0].0.Str? then Err(Unsupported)
    else Attempt(g.Parts(), 0, val.entries[0].0.s, val)
  }

  /** Two parts declare the same message name. */
  ghost predicate SharedName(g: Glue) {
    exists i: nat, j: nat, n: string :: Shares(g, i, j, n)
  }

  ghost predicate Shares(g: Glue, i: nat, j: nat, n: string) {
    i < j < |g.Parts()| && n in g.Parts()[i].variants && n in g.Parts()[j].variants
  }

  lemma {:induction false} SharedNameIffIntersects(g: Glue)
    ensures SharedName(g) <==> Intersects(g.Lists())
  {
    var (parts, lists) := (g.Parts(), g.Lists());
    forall i | 0 <= i < |parts| ensures forall n :: n in lists[i] <==> n in parts[i].variants {
      SortKeepsMembers(parts[i].variants);
    }
    if SharedName(g) {
      var i: nat, j: nat, n: string :| Shares(g, i, j, n);
      var p :| 0 <= p < |lists[i]| && lists[i][p] == n;
      var q :| 0 <= q < |lists[j]| && lists[j][q] == n;
      assert CommonName(lists, i, j, p, q);
    }
    if Intersects(lists) {
      var i: nat, j: nat, p: nat, q: nat :| CommonName(lists, i, j, p, q);
      assert Shares(g, if i < j then i else j, if i < j then j else i, lists[i][p]);
    }
  }

  /** The compile-time assert in the generated `dispatch`: it passes exactly when no two parts
      declare the same name, in whatever order their variants are written. */
  method CollisionAssert(g: Glue) returns (panics: bool)
    ensures panics <==> SharedName(g)
  {
    SharedNameIffIntersects(g);
    var iterations;
    panics, iterations := AssertNoIntersection(g.Lists());
  }

  /** The part that a message name belongs to decides the outcome, wherever it stands. */
  lemma {:induction false} AttemptReachesOwner(g: Glue, i: nat, k: nat, name: string, val: Value)
    requires !SharedName(g) && i <= k < |g.Parts()| && name in g.Parts()[k].variants
    ensures Attempt(g.Parts(), i, name, val) ==
            match g.Parts()[k].Decode(val)
            case Some(msg) => Ok(Wrapped(k, msg))
            case None => Err(BadMessage)
    decreases k - i
  {
    SortKeepsMembers(g.Parts()[i].variants);
    if i < k {
      assert !Shares(g, i, k, name);
      AttemptReachesOwner(g, i + 1, k, name, val);
    }
  }

  lemma {:induction false} AttemptWithoutOwner(parts: seq<Part>, i: nat, name: string, val: Value)
    requires i <= |parts| && forall k :: i <= k < |parts| ==> name !in parts[k].variants
    ensures Attempt(parts, i, name, val) == Err(Unsupported)
    decreases |parts| - i
  {
    if i < |parts| {
      SortKeepsMembers(parts[i].variants);
      AttemptWithoutOwner(parts, i + 1, name, val);
    }
  }

  /** If the assert passes, first-match routing is routing by owner, for every value received. */
  lemma {:induction false} RoutesByOwner(g: Glue, name: string, body: Value)
    requires !SharedName(g)
    ensures var val := Map([(Str(name), body)]);
            && (forall k :: 0 <= k < |g.Parts()| && name in g.Parts()[k].variants ==>
                  Deserialize(g, val) == if g.Parts()[k].fits(name, body)
                                         then Ok(Wrapped(k, Message(name, body))) else Err(BadMessage))
            && ((forall k :: 0 <= k < |g.Parts()| ==> name !in g.Parts()[k].variants) ==>
                  Deserialize(g, val) == Err(Unsupported))
  {
    var val := Map([(Str(name), body)]);
    forall k | 0 <= k < |g.Parts()| && name in g.Parts()[k].variants
      ensures Deserialize(g, val) == if g.Parts()[k].fits(name, body)
                                     then Ok(Wrapped(k, Message(name, body))) else Err(BadMessage)
    {
      AttemptReachesOwner(g, 0, k, name, val);
    }
    if forall k :: 0 <= k < |g.Parts()| ==> name !in g.Parts()[k].variants {
      AttemptWithoutOwner(g.Parts(), 0, name, val);
    }
  }

  lemma {:induction false} AttemptDecodes(parts: seq<Part>, i: nat, name: string, val: Value)
    requires i <= |parts| && Attempt(parts, i, name, val).Ok?
    ensures var w := Attempt(parts, i, name, val).value;
            w.index < |parts| && parts[w.index].Decode(val) == Some(w.msg)
    decreases |parts| - i
  {
    if name !in parts[i].Messages() { AttemptDecodes(parts, i + 1, name, val); }
  }

  /** Nothing is accepted but a serialized message of some part, and without shared names every
      such message is; what is not a map, not one entry or not named by a string has its own error. */
  lemma {:induction false} AcceptsOnlyMessages(g: Glue, val: Value)
    ensures var r := Deserialize(g, val);
            && (r.Ok? ==> g.Holds(r.value) && val == Serialize(r.value))
            && (!SharedName(g) ==> forall w :: r == Ok(w) <==> g.Holds(w) && val == Serialize(w))
            && (!val.Map? ==> r == Err(WrongFormat))
            && (val.Map? && |val.entries| != 1 ==> r == Err(NotOneMessage(|val.entries|)))
            && (val.Map? && |val.entries| == 1 && !val.entries[0].0.Str? ==> r == Err(Unsupported))
  {
    if Deserialize(g, val).Ok? {
      var name := val.entries[0].0.s;
      AttemptDecodes(g.Parts(), 0, name, val);
      assert val.entries == [(Str(name), val.entries[0].1)];
    }
    if !SharedName(g) {
      forall w | g.Holds(w) && val == Serialize(w) ensures Deserialize(g, val) == Ok(w) {
        RoutesByOwner(g, w.msg.tag, w.msg.body);
      }
    }
  }

  /** Every declared variant has some body. */
  ghost predicate Inhabited(g: Glue) {
    forall k, n :: 0 <= k < |g.Parts()| && n in g.Parts()[k].variants ==> exists b :: g.Parts()[k].fits(n, b)
  }

  ghost predicate RoundTrips(g: Glue) {
    forall w :: g.Holds(w) ==> Deserialize(g, Serialize(w)) == Ok(w)
  }

  /** Every wrapped message survives serialization and deserialization in the same wrapper variant
      exactly when no name is shared, which is what the assert decides. */
  lemma {:induction false} RoundTripIffNoSharedName(g: Glue)
    requires Inhabited(g)
    ensures RoundTrips(g) <==> !SharedName(g)
  {
    if !SharedName(g) {
      forall w | g.Holds(w) ensures Deserialize(g, Serialize(w)) == Ok(w) {
        RoutesByOwner(g, w.msg.tag, w.msg.body);
      }
    } else {
      var i: nat, j: nat, n: string :| Shares(g, i, j, n);
      var b :| g.Parts()[j].fits(n, b);
      var w := Wrapped(j, Message(n, b));
      assert g.Holds(w);
      AttemptStopsBy(g.Parts(), 0, i, n, Serialize(w));
    }
  }

  /** The attempts never get past a list that has the name. */
  lemma {:induction false} AttemptStopsBy(parts: seq<Part>, i: nat, k: nat, name: string, val: Value)
    requires i <= k < |parts| && name in parts[k].variants
    ensures var r := Attempt(parts, i, name, val); r.Ok? ==> r.value.index <= k
    decreases k - i
  {
    if i == k {
      SortKeepsMembers(parts[k].variants);
      assert name in parts[i].Messages();
    } else if name !in parts[i].Messages() {
      AttemptStopsBy(parts, i + 1, k, name, val);
    }
  }

  ghost predicate Reordering(parts: seq<Part>, reordered: seq<Part>, at: seq<nat>) {
    && |at| == |reordered| == |parts| && Distinct(at)
    && (forall i :: 0 <= i < |at| ==> at[i] < |parts| && reordered[i] == parts[at[i]])
    && (forall k: nat :: k < |parts| ==> k in at)
  }

  lemma {:induction false} ReorderingSharesNothing(g: Glue, h: Glue, at: seq<nat>)
    requires !SharedName(g) && Reordering(g.Parts(), h.Parts(), at)
    ensures !SharedName(h)
  {
    forall i: nat, j: nat, n: string ensures !Shares(h, i, j, n) {
      if i < j < |at| {
        assert at[i] != at[j];
        assert !Shares(g, at[i], at[j], n) && !Shares(g, at[j], at[i], n);
      }
    }
  }

  /** Without shared names the order of the interfaces does not matter: a reordered wrapper gives
      the same error, or the same message in the variant of the same part. */
  lemma {:induction false} OrderDoesNotMatter(g: Glue, h: Glue, at: seq<nat>, val: Value)
    requires !SharedName(g) && Reordering(g.Parts(), h.Parts(), at)
    ensures match Deserialize(h, val)
            case Ok(w) => w.index < |at| && Deserialize(g, val) == Ok(Wrapped(at[w.index], w.msg))
            case Err(error) => Deserialize(g, val) == Err(error)
  {
    ReorderingSharesNothing(g, h, at);
    if val.Map? && |val.entries| == 1 && val.entries[0].0.Str? {
      var (name, body) := (val.entries[0].0.s, val.entries[0].1);
      assert val == Map([(Str(name), body)]);
      RoutesByOwner(g, name, body);
      RoutesByOwner(h, name, body);
      if k: nat :| k < |h.Parts()| && name in h.Parts()[k].variants {
        assert name in g.Parts()[at[k]].variants;
      } else {
        forall k: nat | k < |g.Parts()| ensures name !in g.Parts()[k].variants {
          assert k in at;
          var i :| 0 <= i < |at| && at[i] == k;
          assert h.Parts()[i] == g.Parts()[k];
        }
      }
    }
  }
}
