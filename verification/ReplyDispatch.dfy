/** What the code generated from the reply table does: the sub-message setters, the chain's decision
    to reply, and `dispatch_reply`. */
module ReplyDispatch {
  import opened Prelude
  import opened ReplyTable

  type Bytes = seq<nat>

  datatype Value = Binary(bytes: Bytes) | Typed(ty: string, id: int) {
    function Type(): string {
      if Binary? then "Binary" else ty
    }
  }

  function Types(fields: seq<Field>): (r: seq<string>)
    ensures |r| == |fields|
  {
    seq(|fields|, i requires 0 <= i < |fields| => fields[i].ty)
  }

  function ValueTypes(vs: seq<Value>): (r: seq<string>)
    ensures |r| == |vs|
  {
    seq(|vs|, i requires 0 <= i < |vs| => vs[i].Type())
  }

  /** JSON encoding of a tuple of values, and decoding at the types the receiving method asks for. */
  datatype Codec = Codec(enc: seq<Value> -> Bytes, dec: (seq<string>, Bytes) -> Option<seq<Value>>)

  ghost predicate Lossless(c: Codec) {
    forall vs :: c.dec(ValueTypes(vs), c.enc(vs)) == Some(vs)
  }

  datatype CwReplyOn = CwAlways | CwSuccess | CwError

  datatype SubResult = OkResult(response: Bytes) | ErrResult(message: string)

  datatype SubMsg = SubMsg(id: nat, on: CwReplyOn, payload: Bytes)

  datatype Reply = Reply(id: nat, payload: Bytes, result: SubResult)

  /** What a handler gets before its payload. */
  datatype Lead = NoLead | DataLead(response: Bytes) | ResultLead(result: SubResult) | ErrorLead(message: string) {
    function Count(): nat {
      if NoLead? then 0 else 1
    }
  }

  datatype Outcome =
    | Invoke(fn: string, lead: Lead, args: seq<Value>)
    | PassResponse(response: Bytes)
    | PassError(message: string)
    | BadPayload
    | BadData
    | UnknownId

  /* ---- the generated code ---- */

  function HasKind(hs: seq<Handler>, on: ReplyOn): bool {
    exists i :: 0 <= i < |hs| && hs[i].on == on
  }

  function CwOn(e: Entry): CwReplyOn {
    if HasKind(e.handlers, Always) || (HasKind(e.handlers, Success) && HasKind(e.handlers, ReplyOn.Error)) then CwAlways
    else if HasKind(e.handlers, Success) then CwSuccess
    else CwError
  }

  function EncodePayload(c: Codec, payload: seq<Field>, args: seq<Value>): Bytes {
    if IsRaw(payload) then (if args != [] && args[0].Binary? then args[0].bytes else []) else c.enc(args)
  }

  function DecodePayload(c: Codec, payload: seq<Field>, bytes: Bytes): Option<seq<Value>> {
    if IsRaw(payload) then Some([Binary(bytes)]) else c.dec(Types(payload), bytes)
  }

  /** The setter of the k-th entry; ids are positions in the table. */
  function Setter(c: Codec, table: seq<Entry>, k: nat, args: seq<Value>): SubMsg
    requires k < |table|
  {
    SubMsg(k, CwOn(table[k]), EncodePayload(c, table[k].payload, args))
  }

  /** The first handler of one of two kinds, as an arm looks for it. */
  function FindHandler(hs: seq<Handler>, a: ReplyOn, b: ReplyOn): (r: Option<Handler>)
    ensures r.Some? ==> r.value in hs && (r.value.on == a || r.value.on == b)
    ensures r.None? ==> forall i :: 0 <= i < |hs| ==> hs[i].on != a && hs[i].on != b
  {
    if hs == [] then None
    else if hs[0].on == a || hs[0].on == b then Some(hs[0])
    else FindHandler(hs[1..], a, b)
  }

  /** `dataOk` says whether the response data deserializes as a data field asks. */
  function SuccessArm(c: Codec, dataOk: (Field, Bytes) -> bool, e: Entry, payload: Bytes, response: Bytes): Outcome {
    match FindHandler(e.handlers, Success, Always)
    case None => PassResponse(response)
    case Some(h) =>
      match DecodePayload(c, e.payload, payload)
      case None => BadPayload
      case Some(args) =>
        if h.on == Always then Invoke(h.fn, ResultLead(OkResult(response)), args)
        else if e.data.None? then Invoke(h.fn, NoLead, args)
        else if dataOk(e.data.value, response) then Invoke(h.fn, DataLead(response), args)
        else BadData
  }

  function ErrorArm(c: Codec, e: Entry, payload: Bytes, message: string): Outcome {
    match FindHandler(e.handlers, ReplyOn.Error, Always)
    case None => PassError(message)
    case Some(h) =>
      match DecodePayload(c, e.payload, payload)
      case None => BadPayload
      case Some(args) =>
        Invoke(h.fn, if h.on == Always then ResultLead(ErrResult(message)) else ErrorLead(message), args)
  }

  function Dispatch(c: Codec, dataOk: (Field, Bytes) -> bool, table: seq<Entry>, r: Reply): Outcome {
    if r.id >= |table| then UnknownId
    else match r.result
      case OkResult(response) => SuccessArm(c, dataOk, table[r.id], r.payload, response)
      case ErrResult(message) => ErrorArm(c, table[r.id], r.payload, message)
  }

  /** Whether the chain calls back at all. */
  function ChainReplies(on: CwReplyOn, result: SubResult): bool {
    match on
    case CwAlways => true
    case CwSuccess => result.OkResult?
    case CwError => result.ErrResult?
  }

  /* ---- payloads ---- */

  lemma {:induction false} SameTypes(a: seq<Field>, b: seq<Field>)
    requires |a| == |b| && TypeDiagnostics(a, b) == []
    ensures Types(a) == Types(b)
  {
    if a != [] {
      SameTypes(a[1..], b[1..]);
      assert Types(a) == [a[0].ty] + Types(a[1..]) && Types(b) == [b[0].ty] + Types(b[1..]);
    }
  }

  /** Each entry's payload is non-empty, alone when raw, and has the types of every handler's payload. */
  ghost predicate PayloadsAgree(toId: Naming, ds: seq<Decl>, table: seq<Entry>) {
    && (forall k :: 0 <= k < |table| ==>
          table[k].payload != [] && (IsRaw(table[k].payload) ==> |table[k].payload| == 1))
    && (forall i, k :: 0 <= i < |ds| && 0 <= k < |table| && toId(ds[i].handler) == table[k].id ==>
          Types(Payload(ds[i].fn)) == Types(table[k].payload))
  }

  lemma {:induction false} StepPayloads(toId: Naming, ds: seq<Decl>, c: Compiled, d: Decl)
    requires Groups(toId, ds, c.table) && PayloadsAgree(toId, ds, c.table)
    requires Step(toId, c, d).diagnostics == []
    ensures var after := Step(toId, c, d).table;
            forall k :: 0 <= k < |after| ==>
              && after[k].payload != [] && (IsRaw(after[k].payload) ==> |after[k].payload| == 1)
              && (after[k].id == toId(d.handler) ==> Types(after[k].payload) == Types(Payload(d.fn)))
  {
    var (id, after) := (toId(d.handler), Step(toId, c, d).table);
    FoundEntry(toId, ds, c.table, id);
    if Find(c.table, id).Some? {
      var e := c.table[Find(c.table, id).value];
      assert !Clashes(e, d.fn.on);
      SameTypes(e.payload, Payload(d.fn));
    }
    forall k | 0 <= k < |after|
      ensures after[k].payload != [] && (IsRaw(after[k].payload) ==> |after[k].payload| == 1)
      ensures after[k].id == id ==> Types(after[k].payload) == Types(Payload(d.fn))
    {
      StepEntry(toId, c, d, k);
    }
  }

  lemma {:induction false} StepPayloadsAgree(toId: Naming, ds: seq<Decl>, c: Compiled, d: Decl)
    requires Groups(toId, ds, c.table) && PayloadsAgree(toId, ds, c.table)
    requires Step(toId, c, d).diagnostics == []
    ensures PayloadsAgree(toId, ds + [d], Step(toId, c, d).table)
  {
    var (all, after) := (ds + [d], Step(toId, c, d).table);
    StepPayloads(toId, ds, c, d);
    FoundEntry(toId, ds, c.table, toId(d.handler));
    FirstIdsAreTheIds(toId, ds);
    forall i, k | 0 <= i < |all| && 0 <= k < |after| && toId(all[i].handler) == after[k].id
      ensures Types(Payload(all[i].fn)) == Types(after[k].payload)
    {
      if i < |ds| {
        assert all[i] == ds[i] && toId(ds[i].handler) in FirstIds(toId, ds);
        StepEntry(toId, c, d, k);
      }
    }
  }

  lemma {:induction false} CompiledPayloadsAgree(toId: Naming, ds: seq<Decl>)
    requires Compile(toId, ds).diagnostics == []
    ensures PayloadsAgree(toId, ds, Compile(toId, ds).table)
  {
    if ds != [] {
      var init, d := CompileLast(toId, ds);
      CompiledPayloadsAgree(toId, init);
      GroupingPreservesMeaning(toId, init);
      StepPayloadsAgree(toId, init, Compile(toId, init), d);
    }
  }

  /** The arguments rustc lets a caller pass to a setter. */
  ghost predicate WellTyped(e: Entry, args: seq<Value>) {
    ValueTypes(args) == Types(e.payload) && (IsRaw(e.payload) ==> args != [] && args[0].Binary?)
  }

  /** What a setter was given comes back unchanged and in order; a raw payload is sent as it is. */
  lemma {:induction false} PayloadRoundTrip(c: Codec, toId: Naming, ds: seq<Decl>, k: nat, args: seq<Value>)
    requires Lossless(c) && Compile(toId, ds).diagnostics == []
    requires k < |Compile(toId, ds).table| && WellTyped(Compile(toId, ds).table[k], args)
    ensures var payload := Compile(toId, ds).table[k].payload;
            && DecodePayload(c, payload, EncodePayload(c, payload, args)) == Some(args)
            && EncodePayload(c, payload, args) == if IsRaw(payload) then args[0].bytes else c.enc(args)
  {
    CompiledPayloadsAgree(toId, ds);
    var payload := Compile(toId, ds).table[k].payload;
    if IsRaw(payload) {
      assert |args| == |ValueTypes(args)| == 1;
      assert args == [Binary(args[0].bytes)];
    } else {
      assert c.dec(ValueTypes(args), c.enc(args)) == Some(args);
    }
  }

  /* ---- the first declaration of an id ---- */

  /** The first declaration for an id, which names the setter and fixes data and payload. */
  ghost function FirstDecl(toId: Naming, ds: seq<Decl>, id: string): Option<Decl> {
    if ds == [] then None
    else if toId(ds[0].handler) == id then Some(ds[0])
    else FirstDecl(toId, ds[1..], id)
  }

  lemma {:induction false} FirstDeclOfPrefix(toId: Naming, ds: seq<Decl>, d: Decl, id: string)
    ensures FirstDecl(toId, ds + [d], id) ==
            if FirstDecl(toId, ds, id).Some? then FirstDecl(toId, ds, id)
            else if toId(d.handler) == id then Some(d) else None
  {
    if ds != [] {
      FirstDeclOfPrefix(toId, ds[1..], d, id);
      assert (ds + [d])[1..] == ds[1..] + [d];
    }
  }

  lemma {:induction false} FirstDeclExists(toId: Naming, ds: seq<Decl>, id: string)
    ensures FirstDecl(toId, ds, id).Some? <==> exists i :: 0 <= i < |ds| && toId(ds[i].handler) == id
  {
    if ds != [] {
      FirstDeclExists(toId, ds[1..], id);
      if i :| 0 <= i < |ds| && toId(ds[i].handler) == id { if i > 0 { assert ds[1..][i - 1] == ds[i]; } }
    }
  }

  ghost predicate FromFirst(toId: Naming, ds: seq<Decl>, e: Entry) {
    match FirstDecl(toId, ds, e.id)
    case None => false
    case Some(d) => e.handlerId == d.handler && e.data == DataField(d.fn) && e.payload == Payload(d.fn)
  }

  lemma {:induction false} StepFromFirst(toId: Naming, ds: seq<Decl>, c: Compiled, d: Decl, k: nat)
    requires Groups(toId, ds, c.table) && !ClashWith(toId, ds, d)
    requires forall j :: 0 <= j < |c.table| ==> FromFirst(toId, ds, c.table[j])
    requires k < |Step(toId, c, d).table|
    ensures FromFirst(toId, ds + [d], Step(toId, c, d).table[k])
  {
    var e := Step(toId, c, d).table[k];
    FirstDeclOfPrefix(toId, ds, d, e.id);
    FoundEntry(toId, ds, c.table, toId(d.handler));
    StepEntry(toId, c, d, k);
    if k < |c.table| {
      assert FromFirst(toId, ds, c.table[k]);
    } else {
      FirstIdsAreTheIds(toId, ds);
      FirstDeclExists(toId, ds, e.id);
    }
  }

  ghost predicate AllFromFirst(toId: Naming, ds: seq<Decl>, table: seq<Entry>) {
    forall k :: 0 <= k < |table| ==> FromFirst(toId, ds, table[k])
  }

  lemma {:induction false} StepAllFromFirst(toId: Naming, ds: seq<Decl>, c: Compiled, d: Decl)
    requires Groups(toId, ds, c.table) && AllFromFirst(toId, ds, c.table)
    requires DuplicatedHandler !in Step(toId, c, d).diagnostics
    ensures AllFromFirst(toId, ds + [d], Step(toId, c, d).table)
  {
    DiagnosticsOnlyGrow(toId, c, d);
    StepReports(toId, ds, c, d);
    var after := Step(toId, c, d).table;
    forall k | 0 <= k < |after| ensures FromFirst(toId, ds + [d], after[k]) { StepFromFirst(toId, ds, c, d, k); }
  }

  lemma {:induction false} EntriesFromFirst(toId: Naming, ds: seq<Decl>)
    requires DuplicatedHandler !in Compile(toId, ds).diagnostics
    ensures AllFromFirst(toId, ds, Compile(toId, ds).table)
  {
    if ds != [] {
      var init, d := CompileLast(toId, ds);
      EntriesFromFirst(toId, init);
      GroupingPreservesMeaning(toId, init);
      StepAllFromFirst(toId, init, Compile(toId, init), d);
    }
  }

  lemma {:induction false} FirstDeclIsDeclared(toId: Naming, ds: seq<Decl>, id: string)
    requires FirstDecl(toId, ds, id).Some?
    ensures exists j :: 0 <= j < |ds| && ds[j] == FirstDecl(toId, ds, id).value && toId(ds[j].handler) == id
  {
    if toId(ds[0].handler) != id {
      FirstDeclIsDeclared(toId, ds[1..], id);
      var rest := ds[1..];
      var j :| 0 <= j < |rest| && rest[j] == FirstDecl(toId, rest, id).value && toId(rest[j].handler) == id;
      assert ds[j + 1] == rest[j];
    }
  }

  /* ---- the method that answers ---- */

  predicate Covers(on: ReplyOn, result: SubResult) {
    match on
    case Always => true
    case Success => result.OkResult?
    case Error => result.ErrResult?
  }

  /** The i-th declaration is for this id and covers this result. */
  ghost predicate Answers(toId: Naming, ds: seq<Decl>, id: string, result: SubResult, i: nat) {
    i < |ds| && toId(ds[i].handler) == id && Covers(ds[i].fn.on, result)
  }

  ghost function ArmHandler(e: Entry, result: SubResult): Option<Handler> {
    FindHandler(e.handlers, if result.OkResult? then Success else ReplyOn.Error, Always)
  }

  /** The handler an arm finds is the one declaration that answers, and there is at most one. */
  lemma {:induction false} ArmFindsTheAnswer(toId: Naming, ds: seq<Decl>, k: nat, result: SubResult)
    requires DuplicatedHandler !in Compile(toId, ds).diagnostics && k < |Compile(toId, ds).table|
    ensures var e := Compile(toId, ds).table[k];
            match ArmHandler(e, result)
            case None => forall i: nat :: !Answers(toId, ds, e.id, result, i)
            case Some(h) =>
              exists i: nat :: Answers(toId, ds, e.id, result, i) && h == Handler(ds[i].fn.name, ds[i].fn.on)
                               && forall j: nat :: Answers(toId, ds, e.id, result, j) ==> j == i
  {
    GroupingPreservesMeaning(toId, ds);
    DuplicateIffConflict(toId, ds);
    var e := Compile(toId, ds).table[k];
    DeclaredMembers(toId, ds, e.id);
    assert e.handlers == Declared(toId, ds, e.id);
    match ArmHandler(e, result)
    case None =>
      forall i: nat ensures !Answers(toId, ds, e.id, result, i) {
        if i < |ds| && toId(ds[i].handler) == e.id {
          assert Handler(ds[i].fn.name, ds[i].fn.on) in Declared(toId, ds, e.id);
        }
      }
    case Some(h) =>
      assert h in Declared(toId, ds, e.id);
      var i :| 0 <= i < |ds| && toId(ds[i].handler) == e.id && h == Handler(ds[i].fn.name, ds[i].fn.on);
      assert Answers(toId, ds, e.id, result, i);
      forall j: nat | Answers(toId, ds, e.id, result, j) ensures j == i {
        assert !Conflict(toId, ds, i, j) && !Conflict(toId, ds, j, i);
      }
  }

  /** The chain calls back exactly when some declared method covers the result. */
  lemma {:induction false} ChainRepliesIffAnswered(toId: Naming, ds: seq<Decl>, k: nat, result: SubResult)
    requires DuplicatedHandler !in Compile(toId, ds).diagnostics && k < |Compile(toId, ds).table|
    ensures var e := Compile(toId, ds).table[k];
            ChainReplies(CwOn(e), result) <==> exists i: nat :: Answers(toId, ds, e.id, result, i)
  {
    var e := Compile(toId, ds).table[k];
    ArmFindsTheAnswer(toId, ds, k, result);
    EntryShapes(toId, ds, k);
    ChainRepliesIffArm(e, result);
  }

  lemma {:induction false} ChainRepliesIffArm(e: Entry, result: SubResult)
    requires Kinds(e.handlers)
             in {[Always], [Success], [ReplyOn.Error], [Success, ReplyOn.Error], [ReplyOn.Error, Success]}
    ensures ChainReplies(CwOn(e), result) <==> ArmHandler(e, result).Some?
  {
    var hs := e.handlers;
    assert |hs| == |Kinds(hs)| && forall i :: 0 <= i < |hs| ==> hs[i].on == Kinds(hs)[i];
    assert HasKind(hs, hs[0].on);
    if |hs| == 2 { assert HasKind(hs, hs[1].on); }
  }

  /** What a method declared for `on` is told about the result it covers. */
  function LeadFor(on: ReplyOn, takesData: bool, result: SubResult): Lead
    requires Covers(on, result)
  {
    match on
    case Always => ResultLead(result)
    case Error => ErrorLead(result.message)
    case Success => if takesData then DataLead(result.response) else NoLead
  }

  /* ---- the parameters of the generated calls ---- */

  /** The data parameter an entry keeps is this method's, if it has one at all. */
  ghost predicate TakesItsData(toId: Naming, ds: seq<Decl>, id: string, m: Method) {
    DataField(m).None? || (FirstDecl(toId, ds, id).Some? && FirstDecl(toId, ds, id).value.fn == m)
  }

  lemma {:induction false} SuccessEntryData(toId: Naming, ds: seq<Decl>, e: Entry, i: nat)
    requires FromFirst(toId, ds, e) && !HasConflict(toId, ds)
    requires i < |ds| && toId(ds[i].handler) == e.id && ds[i].fn.on == Success
    ensures e.data == if TakesItsData(toId, ds, e.id, ds[i].fn) then DataField(ds[i].fn) else None
  {
    FirstDeclIsDeclared(toId, ds, e.id);
    var j :| 0 <= j < |ds| && ds[j] == FirstDecl(toId, ds, e.id).value && toId(ds[j].handler) == e.id;
    assert !Conflict(toId, ds, i, j) && !Conflict(toId, ds, j, i);
  }

  /** For a success method the entry keeps its data parameter, or none. */
  lemma {:induction false} EntryData(toId: Naming, ds: seq<Decl>, k: nat, i: nat, result: SubResult)
    requires Compile(toId, ds).diagnostics == [] && k < |Compile(toId, ds).table|
    requires Answers(toId, ds, Compile(toId, ds).table[k].id, result, i) && ds[i].fn.on == Success
    ensures var e := Compile(toId, ds).table[k]; var m := ds[i].fn;
            e.data == if TakesItsData(toId, ds, e.id, m) then DataField(m) else None
  {
    EntriesFromFirst(toId, ds);
    DuplicateIffConflict(toId, ds);
    SuccessEntryData(toId, ds, Compile(toId, ds).table[k], i);
  }

  /** A method is told about the result what it declared, except a success method with a data
      parameter that is not the first declared for its id. */
  lemma {:induction false} LeadIsDeclared(toId: Naming, ds: seq<Decl>, k: nat, i: nat, result: SubResult)
    requires Compile(toId, ds).diagnostics == [] && k < |Compile(toId, ds).table|
    requires Answers(toId, ds, Compile(toId, ds).table[k].id, result, i)
    ensures var e := Compile(toId, ds).table[k]; var m := ds[i].fn;
            LeadFor(m.on, e.data.Some?, result) == LeadFor(m.on, DataField(m).Some?, result)
            <==> TakesItsData(toId, ds, e.id, m)
  {
    if ds[i].fn.on == Success { EntryData(toId, ds, k, i, result); }
  }

  /** The generated call passes as many arguments as the method takes, with the same exception. */
  lemma {:induction false} ArmArgumentsMatch(toId: Naming, ds: seq<Decl>, k: nat, i: nat, result: SubResult)
    requires Compile(toId, ds).diagnostics == [] && k < |Compile(toId, ds).table|
    requires Answers(toId, ds, Compile(toId, ds).table[k].id, result, i)
    ensures var e := Compile(toId, ds).table[k]; var m := ds[i].fn;
            LeadFor(m.on, e.data.Some?, result).Count() + |e.payload| == |m.fields|
            <==> TakesItsData(toId, ds, e.id, m)
  {
    var e := Compile(toId, ds).table[k];
    var m := ds[i].fn;
    CompiledPayloadsAgree(toId, ds);
    assert |Payload(m)| == |Types(Payload(m))| == |e.payload|;
    if m.on == Success { EntryData(toId, ds, k, i, result); }
  }

  /** A second declaration of an id that fits the first joins its entry. */
  lemma {:induction false} PairCompiles(toId: Naming, d1: Decl, d2: Decl)
    requires toId(d1.handler) == toId(d2.handler) && !d1.fn.on.Excludes(d2.fn.on)
    requires NewDiagnostics(d1.fn) == [] && MergeDiagnostics(NewEntry(toId(d1.handler), d1), d2.fn) == []
    ensures Compile(toId, [d1, d2]) == Compiled([Merge(NewEntry(toId(d1.handler), d1), d2.fn)], [])
  {
    var first := Compiled([NewEntry(toId(d1.handler), d1)], []);
    assert [d1, d2][..1] == [d1] && [d1][..0] == [];
    assert Step(toId, Compiled([], []), d1) == first;
    assert Compile(toId, [d1]) == first;
    assert Find(first.table, toId(d2.handler)) == Some(0) && !Clashes(first.table[0], d2.fn.on);
    assert Step(toId, first, d2).table == [Merge(first.table[0], d2.fn)];
    assert Compile(toId, [d1, d2]) == Step(toId, first, d2);
  }

  /** The exception is real: an error method first, then a success method with data, compiles without
      a diagnostic, and the success call comes out one argument short. */
  lemma {:induction false} DataDeclaredSecondIsDropped()
    ensures var (text, data) := (Field("String", false, false), Field("Data", true, false));
            var binary := Field("Binary", false, false);
            var failed := Method("failed", ["h"], ReplyOn.Error, [text, binary]);
            var done := Method("done", ["h"], Success, [data, binary]);
            var c := Compile(h => h, [Decl(failed, "h"), Decl(done, "h")]);
            && c.diagnostics == [] && |c.table| == 1
            && LeadFor(Success, c.table[0].data.Some?, OkResult([])).Count() + |c.table[0].payload| + 1
               == |done.fields|
  {
    var (text, data) := (Field("String", false, false), Field("Data", true, false));
    var binary := Field("Binary", false, false);
    var failed := Method("failed", ["h"], ReplyOn.Error, [text, binary]);
    var done := Method("done", ["h"], Success, [data, binary]);
    assert failed.fields[1..] == done.fields[1..] == [binary] && FirstData([binary]) == None;
    assert Payload(failed) == [binary] == Payload(done);
    assert NewDiagnostics(failed) == [] == NewDiagnostics(done);
    assert TypeDiagnostics(Payload(failed), Payload(done)) == [];
    PairCompiles(h => h, Decl(failed, "h"), Decl(done, "h"));
  }

  /* ---- handlers and setters ---- */

  /** The naming gives no two declared handlers the same id. */
  ghost predicate OneHandlerPerId(toId: Naming, ds: seq<Decl>) {
    forall i, j :: 0 <= i < |ds| && 0 <= j < |ds| && toId(ds[i].handler) == toId(ds[j].handler) ==>
                     ds[i].handler == ds[j].handler
  }

  /** Whatever answers a setter's message was declared for the handler the setter is named after. */
  ghost predicate SettersReachTheirHandler(toId: Naming, ds: seq<Decl>, table: seq<Entry>) {
    forall k: nat, i: nat, result :: k < |table| && Answers(toId, ds, table[k].id, result, i) ==>
                                       ds[i].handler == table[k].handlerId
  }

  ghost predicate HasSetter(table: seq<Entry>, handler: string) {
    exists k :: 0 <= k < |table| && table[k].handlerId == handler
  }

  lemma {:induction false} EntryOf(toId: Naming, ds: seq<Decl>, table: seq<Entry>, i: nat) returns (k: nat)
    requires Groups(toId, ds, table) && AllFromFirst(toId, ds, table) && i < |ds|
    ensures k < |table| && table[k].id == toId(ds[i].handler) == toId(table[k].handlerId)
    ensures forall j :: 0 <= j < |table| && j != k ==> toId(table[j].handlerId) != table[k].id
    ensures exists j :: 0 <= j < |ds| && ds[j].handler == table[k].handlerId
  {
    FirstIdsAreTheIds(toId, ds);
    assert toId(ds[i].handler) in FirstIds(toId, ds);
    k :| 0 <= k < |table| && FirstIds(toId, ds)[k] == toId(ds[i].handler);
    forall j | 0 <= j < |table|
      ensures toId(table[j].handlerId) == table[j].id && (j == k || table[j].id != table[k].id)
      ensures exists i :: 0 <= i < |ds| && ds[i].handler == table[j].handlerId
    {
      assert FromFirst(toId, ds, table[j]);
      FirstDeclIsDeclared(toId, ds, table[j].id);
    }
  }

  lemma {:induction false} HandlersOfTable(toId: Naming, ds: seq<Decl>, table: seq<Entry>)
    requires Groups(toId, ds, table) && AllFromFirst(toId, ds, table)
    ensures OneHandlerPerId(toId, ds) ==> SettersReachTheirHandler(toId, ds, table)
    ensures SettersReachTheirHandler(toId, ds, table) ==> forall i :: 0 <= i < |ds| ==> HasSetter(table, ds[i].handler)
    ensures (forall i :: 0 <= i < |ds| ==> HasSetter(table, ds[i].handler)) ==> OneHandlerPerId(toId, ds)
  {
    if OneHandlerPerId(toId, ds) {
      forall k: nat, i: nat, result | k < |table| && Answers(toId, ds, table[k].id, result, i)
        ensures ds[i].handler == table[k].handlerId
      {
        assert FromFirst(toId, ds, table[k]);
        FirstDeclIsDeclared(toId, ds, table[k].id);
      }
    }
    if SettersReachTheirHandler(toId, ds, table) {
      forall i | 0 <= i < |ds| ensures HasSetter(table, ds[i].handler) {
        var k := EntryOf(toId, ds, table, i);
        var result := if ds[i].fn.on == ReplyOn.Error then ErrResult("") else OkResult([]);
        assert Answers(toId, ds, table[k].id, result, i);
      }
    }
    if forall i :: 0 <= i < |ds| ==> HasSetter(table, ds[i].handler) {
      forall i, j | 0 <= i < |ds| && 0 <= j < |ds| && toId(ds[i].handler) == toId(ds[j].handler)
        ensures ds[i].handler == ds[j].handler
      {
        assert HasSetter(table, ds[i].handler) && HasSetter(table, ds[j].handler);
        var k := EntryOf(toId, ds, table, i);
      }
    }
  }

  /** Setters reach methods of their own handler, and every declared handler has a setter, each
      exactly when the naming keeps the declared handlers apart. */
  lemma {:induction false} SettersMatchHandlers(toId: Naming, ds: seq<Decl>)
    requires DuplicatedHandler !in Compile(toId, ds).diagnostics
    ensures SettersReachTheirHandler(toId, ds, Compile(toId, ds).table) <==> OneHandlerPerId(toId, ds)
    ensures (forall i :: 0 <= i < |ds| ==> HasSetter(Compile(toId, ds).table, ds[i].handler))
            <==> OneHandlerPerId(toId, ds)
  {
    EntriesFromFirst(toId, ds);
    GroupingPreservesMeaning(toId, ds);
    HandlersOfTable(toId, ds, Compile(toId, ds).table);
  }

  ghost const BINARY := Field("Binary", false, false)

  /** The second handler's method joins the entry named after the first. */
  lemma {:induction false} CollisionCompiles(toId: Naming, done: Method, failed: Method)
    requires toId("fooBar") == toId("foo_bar")
    requires done == Method("done", ["fooBar"], Success, [BINARY])
    requires failed == Method("failed", ["foo_bar"], ReplyOn.Error, [Field("String", false, false), BINARY])
    ensures Compile(toId, [Decl(done, "fooBar"), Decl(failed, "foo_bar")])
            == Compiled([Entry(toId("fooBar"), "fooBar", [Handler("done", Success), Handler("failed", ReplyOn.Error)],
                               None, [BINARY])], [])
  {
    var (d1, d2) := (Decl(done, "fooBar"), Decl(failed, "foo_bar"));
    assert failed.fields[1..] == [BINARY] && FirstData([BINARY]) == None;
    assert Payload(failed) == [BINARY] == Payload(done);
    assert NewDiagnostics(done) == [] == NewDiagnostics(failed);
    assert TypeDiagnostics(Payload(done), Payload(failed)) == [];
    PairCompiles(toId, d1, d2);
    assert Merge(NewEntry(toId("fooBar"), d1), failed).handlers
      == [Handler("done", Success), Handler("failed", ReplyOn.Error)];
  }

  /** Two handlers that differ only in case get one id: a success method for one and an error method
      for the other compile without a diagnostic into one entry, and a failing message of the first
      one's setter runs the method declared for the other, which has no setter. */
  lemma {:induction false} CollidingHandlers(
    toId: Naming, c: Codec, dataOk: (Field, Bytes) -> bool, args: seq<Value>, message: string)
    requires toId("fooBar") == toId("foo_bar") && Lossless(c) && ValueTypes(args) == ["Binary"]
    ensures var done := Method("done", ["fooBar"], Success, [BINARY]);
            var failed := Method("failed", ["foo_bar"], ReplyOn.Error, [Field("String", false, false), BINARY]);
            var compiled := Compile(toId, [Decl(done, "fooBar"), Decl(failed, "foo_bar")]);
            && compiled.diagnostics == [] && |compiled.table| == 1
            && compiled.table[0].handlerId == "fooBar" && !HasSetter(compiled.table, "foo_bar")
            && var sub := Setter(c, compiled.table, 0, args);
               Dispatch(c, dataOk, compiled.table, Reply(sub.id, sub.payload, ErrResult(message)))
               == Invoke("failed", ErrorLead(message), args)
  {
    var done := Method("done", ["fooBar"], Success, [BINARY]);
    var failed := Method("failed", ["foo_bar"], ReplyOn.Error, [Field("String", false, false), BINARY]);
    CollisionCompiles(toId, done, failed);
    var e := Compile(toId, [Decl(done, "fooBar"), Decl(failed, "foo_bar")]).table[0];
    assert e.handlers[1..] == [Handler("failed", ReplyOn.Error)];
    assert FindHandler(e.handlers, ReplyOn.Error, Always) == Some(Handler("failed", ReplyOn.Error));
    assert Types(e.payload) == ["Binary"];
    assert c.dec(ValueTypes(args), c.enc(args)) == Some(args);
  }

  /* ---- end to end ---- */

  /** What becomes of a result that `m` covers: `m` runs, told what it declared, unless its response
      data does not decode. If the entry has lost its data parameter, the call is generated without it. */
  ghost function Delivery(
    dataOk: (Field, Bytes) -> bool, takesItsData: bool, m: Method, args: seq<Value>, result: SubResult): Outcome
    requires Covers(m.on, result)
  {
    if !takesItsData then Invoke(m.name, NoLead, args)
    else if result.OkResult? && DataField(m).Some? && !dataOk(DataField(m).value, result.response) then BadData
    else Invoke(m.name, LeadFor(m.on, DataField(m).Some?, result), args)
  }

  /** A generated call fits when it passes as many arguments as the method takes; with a call that
      does not, the generated code is refused by the compiler. */
  ghost predicate Fits(out: Outcome, m: Method) {
    out.Invoke? ==> out.lead.Count() + |out.args| == |m.fields|
  }

  lemma {:induction false} ArmDelivers(
    c: Codec, dataOk: (Field, Bytes) -> bool, e: Entry, m: Method, takesItsData: bool,
    payload: Bytes, args: seq<Value>, result: SubResult)
    requires Covers(m.on, result) && ArmHandler(e, result) == Some(Handler(m.name, m.on))
    requires DecodePayload(c, e.payload, payload) == Some(args)
    requires |args| == |e.payload| == |Payload(m)| && args != []
    requires m.on == Success ==> e.data == if takesItsData then DataField(m) else None
    requires DataField(m).None? ==> takesItsData
    ensures var out := if result.OkResult? then SuccessArm(c, dataOk, e, payload, result.response)
                       else ErrorArm(c, e, payload, result.message);
            out == Delivery(dataOk, takesItsData, m, args, result) && (Fits(out, m) <==> takesItsData)
  {
  }

  /** A sub-message built by a setter, for the id of that setter: if the chain calls back, exactly the
      one method declared for the id that covers the result is called, with the values given to the
      setter; the call fits exactly if the method takes its data. Neither a pass-through arm nor the
      unknown-id arm is reached. */
  lemma {:induction false} ReplyReachesDeclaredMethod(
    c: Codec, dataOk: (Field, Bytes) -> bool, toId: Naming, ds: seq<Decl>, k: nat, args: seq<Value>, result: SubResult)
    requires Lossless(c) && Compile(toId, ds).diagnostics == []
    requires k < |Compile(toId, ds).table| && WellTyped(Compile(toId, ds).table[k], args)
    ensures var table := Compile(toId, ds).table; var (id, sub) := (table[k].id, Setter(c, table, k, args));
            var out := Dispatch(c, dataOk, table, Reply(sub.id, sub.payload, result));
            if ChainReplies(sub.on, result)
            then exists i: nat ::
                   && Answers(toId, ds, id, result, i)
                   && (forall j: nat :: Answers(toId, ds, id, result, j) ==> j == i)
                   && out == Delivery(dataOk, TakesItsData(toId, ds, id, ds[i].fn), ds[i].fn, args, result)
                   && (Fits(out, ds[i].fn) <==> TakesItsData(toId, ds, id, ds[i].fn))
            else forall i: nat :: !Answers(toId, ds, id, result, i)
  {
    var e := Compile(toId, ds).table[k];
    ChainRepliesIffAnswered(toId, ds, k, result);
    ArmFindsTheAnswer(toId, ds, k, result);
    PayloadRoundTrip(c, toId, ds, k, args);
    if ChainReplies(CwOn(e), result) {
      var i: nat :| Answers(toId, ds, e.id, result, i);
      assert |args| == |ValueTypes(args)| == |e.payload|;
      CompiledPayloadsAgree(toId, ds);
      assert |Payload(ds[i].fn)| == |Types(Payload(ds[i].fn))| == |e.payload|;
      if ds[i].fn.on == Success { EntryData(toId, ds, k, i, result); }
      ArmDelivers(c, dataOk, e, ds[i].fn, TakesItsData(toId, ds, e.id, ds[i].fn),
                  EncodePayload(c, e.payload, args), args, result);
    }
  }

  /** The i-th declaration is for this handler and covers this result. */
  ghost predicate HandlerAnswers(ds: seq<Decl>, handler: string, result: SubResult, i: nat) {
    i < |ds| && ds[i].handler == handler && Covers(ds[i].fn.on, result)
  }

  /** The same for the handler the setter is named after, when the naming keeps handlers apart. */
  lemma {:induction false} ReplyReachesItsHandler(
    c: Codec, dataOk: (Field, Bytes) -> bool, toId: Naming, ds: seq<Decl>, k: nat, args: seq<Value>, result: SubResult)
    requires Lossless(c) && Compile(toId, ds).diagnostics == [] && OneHandlerPerId(toId, ds)
    requires k < |Compile(toId, ds).table| && WellTyped(Compile(toId, ds).table[k], args)
    ensures var table := Compile(toId, ds).table; var (handler, sub) := (table[k].handlerId, Setter(c, table, k, args));
            var out := Dispatch(c, dataOk, table, Reply(sub.id, sub.payload, result));
            if ChainReplies(sub.on, result)
            then exists i: nat ::
                   && HandlerAnswers(ds, handler, result, i)
                   && (forall j: nat :: HandlerAnswers(ds, handler, result, j) ==> j == i)
                   && out == Delivery(dataOk, TakesItsData(toId, ds, table[k].id, ds[i].fn), ds[i].fn, args, result)
                   && (Fits(out, ds[i].fn) <==> TakesItsData(toId, ds, table[k].id, ds[i].fn))
            else forall i: nat :: !HandlerAnswers(ds, handler, result, i)
  {
    var table := Compile(toId, ds).table;
    var e := table[k];
    ReplyReachesDeclaredMethod(c, dataOk, toId, ds, k, args, result);
    SettersMatchHandlers(toId, ds);
    EntriesFromFirst(toId, ds);
    assert FromFirst(toId, ds, e);
    FirstDeclIsDeclared(toId, ds, e.id);
    assert e.id == toId(e.handlerId);
    forall i: nat ensures HandlerAnswers(ds, e.handlerId, result, i) <==> Answers(toId, ds, e.id, result, i) {}
  }

  /** Conversely a reply that no declared method covers is passed through unchanged, whoever sent it. */
  lemma {:induction false} UnansweredPassesThrough(
    c: Codec, dataOk: (Field, Bytes) -> bool, toId: Naming, ds: seq<Decl>, r: Reply)
    requires DuplicatedHandler !in Compile(toId, ds).diagnostics && r.id < |Compile(toId, ds).table|
    ensures var table := Compile(toId, ds).table; var out := Dispatch(c, dataOk, table, r);
            var pass := if r.result.OkResult? then PassResponse(r.result.response) else PassError(r.result.message);
            out == pass <==> forall i: nat :: !Answers(toId, ds, table[r.id].id, r.result, i)
  {
    ArmFindsTheAnswer(toId, ds, r.id, r.result);
  }

  /** An unknown id is reported as such and no other; a payload that does not decode stops the call. */
  lemma {:induction false} RejectedReplies(
    c: Codec, dataOk: (Field, Bytes) -> bool, toId: Naming, ds: seq<Decl>, r: Reply)
    requires DuplicatedHandler !in Compile(toId, ds).diagnostics
    ensures var table := Compile(toId, ds).table; var out := Dispatch(c, dataOk, table, r);
            && (out == UnknownId <==> r.id >= |table|)
            && (r.id < |table| ==>
                  (out == BadPayload <==>
                     && !IsRaw(table[r.id].payload) && c.dec(Types(table[r.id].payload), r.payload).None?
                     && exists i: nat :: Answers(toId, ds, table[r.id].id, r.result, i)))
  {
    if r.id < |Compile(toId, ds).table| { ArmFindsTheAnswer(toId, ds, r.id, r.result); }
  }

  /* ---- end to end over methods ---- */

  ghost predicate HasName(toId: Naming, m: Method, id: string) {
    exists name :: name in Names(m) && toId(name) == id
  }

  /** The first method declared for a name with this id. */
  ghost function FirstServing(toId: Naming, methods: seq<Method>, id: string): Option<Method> {
    if methods == [] then None
    else if HasName(toId, methods[0], id) then Some(methods[0])
    else FirstServing(toId, methods[1..], id)
  }

  lemma {:induction false} FirstDeclSplits(toId: Naming, a: seq<Decl>, b: seq<Decl>, id: string)
    ensures FirstDecl(toId, a + b, id)
            == if FirstDecl(toId, a, id).Some? then FirstDecl(toId, a, id) else FirstDecl(toId, b, id)
  {
    if a == [] {
      assert a + b == b;
    } else {
      FirstDeclSplits(toId, a[1..], b, id);
      assert (a + b)[1..] == a[1..] + b;
    }
  }

  lemma {:induction false} FirstDeclServes(toId: Naming, methods: seq<Method>, id: string)
    ensures var first := FirstDecl(toId, Decls(methods), id);
            FirstServing(toId, methods, id) == if first.Some? then Some(first.value.fn) else None
  {
    if methods != [] {
      var m := methods[0];
      FirstDeclServes(toId, methods[1..], id);
      FirstDeclSplits(toId, DeclsOf(m), Decls(methods[1..]), id);
      FirstDeclExists(toId, DeclsOf(m), id);
      if FirstDecl(toId, DeclsOf(m), id).Some? {
        FirstDeclIsDeclared(toId, DeclsOf(m), id);
        var j :| 0 <= j < |DeclsOf(m)| && toId(DeclsOf(m)[j].handler) == id;
        assert Names(m)[j] in Names(m) && toId(Names(m)[j]) == id;
      }
      if HasName(toId, m, id) {
        var name :| name in Names(m) && toId(name) == id;
        var j :| 0 <= j < |Names(m)| && Names(m)[j] == name;
        assert toId(DeclsOf(m)[j].handler) == id;
      }
    }
  }

  /** The method is declared for a name of this id, and covers this result. */
  ghost predicate ServesResult(
    toId: Naming, methods: seq<Method>, id: string, result: SubResult, m: Method, name: string)
  {
    Serves(methods, m, name) && toId(name) == id && Covers(m.on, result)
  }

  lemma {:induction false} ServingAnswers(
    toId: Naming, methods: seq<Method>, id: string, result: SubResult, m: Method, name: string) returns (i: nat)
    requires ServesResult(toId, methods, id, result, m, name)
    ensures Answers(toId, Decls(methods), id, result, i) && Decls(methods)[i] == Decl(m, name)
  {
    DeclsAreServices(methods, m, name);
    i :| 0 <= i < |Decls(methods)| && Decls(methods)[i] == Decl(m, name);
  }

  lemma {:induction false} AnsweringServes(
    toId: Naming, methods: seq<Method>, id: string, result: SubResult, i: nat)
    requires Answers(toId, Decls(methods), id, result, i)
    ensures var d := Decls(methods)[i]; ServesResult(toId, methods, id, result, d.fn, d.handler)
  {
    var d := Decls(methods)[i];
    assert d == Decl(d.fn, d.handler);
    DeclsAreServices(methods, d.fn, d.handler);
  }

  ghost predicate KeepsItsData(toId: Naming, methods: seq<Method>, id: string, m: Method) {
    DataField(m).None? || FirstServing(toId, methods, id) == Some(m)
  }

  lemma {:induction false} DeclToMethod(
    dataOk: (Field, Bytes) -> bool, toId: Naming, methods: seq<Method>, id: string,
    args: seq<Value>, result: SubResult, out: Outcome, i: nat) returns (m: Method, name: string)
    requires var ds := Decls(methods);
             && Answers(toId, ds, id, result, i) && (forall j: nat :: Answers(toId, ds, id, result, j) ==> j == i)
             && out == Delivery(dataOk, TakesItsData(toId, ds, id, ds[i].fn), ds[i].fn, args, result)
             && (Fits(out, ds[i].fn) <==> TakesItsData(toId, ds, id, ds[i].fn))
    ensures ServesResult(toId, methods, id, result, m, name)
    ensures forall m', name' :: ServesResult(toId, methods, id, result, m', name') ==> m' == m && name' == name
    ensures out == Delivery(dataOk, KeepsItsData(toId, methods, id, m), m, args, result)
    ensures Fits(out, m) <==> KeepsItsData(toId, methods, id, m)
  {
    var ds := Decls(methods);
    m, name := ds[i].fn, ds[i].handler;
    AnsweringServes(toId, methods, id, result, i);
    FirstDeclServes(toId, methods, id);
    forall m', name' | ServesResult(toId, methods, id, result, m', name') ensures m' == m && name' == name {
      var j := ServingAnswers(toId, methods, id, result, m', name');
      assert j == i;
    }
  }

  /** Over methods: whatever comes back for a setter's message goes to the one method declared for a
      name with the setter's id that covers it, by the one name it is declared for, with the
      setter's values; and the chain does not call back exactly if there is none. */
  lemma {:induction false} ReplyReachesServingMethod(
    c: Codec, dataOk: (Field, Bytes) -> bool, toId: Naming, methods: seq<Method>,
    k: nat, args: seq<Value>, result: SubResult)
    requires Lossless(c) && Compile(toId, Decls(methods)).diagnostics == []
    requires k < |Compile(toId, Decls(methods)).table| && WellTyped(Compile(toId, Decls(methods)).table[k], args)
    ensures var table := Compile(toId, Decls(methods)).table;
            var (id, sub) := (table[k].id, Setter(c, table, k, args));
            var out := Dispatch(c, dataOk, table, Reply(sub.id, sub.payload, result));
            if ChainReplies(sub.on, result)
            then exists m, name ::
                   && ServesResult(toId, methods, id, result, m, name)
                   && (forall m', name' :: ServesResult(toId, methods, id, result, m', name') ==>
                         m' == m && name' == name)
                   && out == Delivery(dataOk, KeepsItsData(toId, methods, id, m), m, args, result)
                   && (Fits(out, m) <==> KeepsItsData(toId, methods, id, m))
            else forall m, name :: !ServesResult(toId, methods, id, result, m, name)
  {
    var ds := Decls(methods);
    var id := Compile(toId, ds).table[k].id;
    ReplyReachesDeclaredMethod(c, dataOk, toId, ds, k, args, result);
    var sub := Setter(c, Compile(toId, ds).table, k, args);
    if ChainReplies(sub.on, result) {
      var out := Dispatch(c, dataOk, Compile(toId, ds).table, Reply(sub.id, sub.payload, result));
      var i: nat :| && Answers(toId, ds, id, result, i)
                    && (forall j: nat :: Answers(toId, ds, id, result, j) ==> j == i)
                    && out == Delivery(dataOk, TakesItsData(toId, ds, id, ds[i].fn), ds[i].fn, args, result)
                    && (Fits(out, ds[i].fn) <==> TakesItsData(toId, ds, id, ds[i].fn));
      var m, name := DeclToMethod(dataOk, toId, methods, id, args, result, out, i);
    } else {
      forall m, name ensures !ServesResult(toId, methods, id, result, m, name) {
        if ServesResult(toId, methods, id, result, m, name) {
          var i := ServingAnswers(toId, methods, id, result, m, name);
          assert false;
        }
      }
    }
  }
}
