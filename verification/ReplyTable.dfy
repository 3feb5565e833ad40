/** How the contract macro groups the declared reply methods into one entry per reply id. */
module ReplyTable {
  import opened Prelude

  datatype ReplyOn = Success | Error | Always {
    /** Two handlers of one id may only be one for success and one for error. */
    predicate Excludes(other: ReplyOn) {
      this == other || this == Always || other == Always
    }
  }

  /** A method parameter after the context: its type, and whether it carries `sv::data` or `sv::payload(raw)`. */
  datatype Field = Field(ty: string, data: bool, raw: bool)

  datatype Method = Method(name: string, handlers: seq<string>, on: ReplyOn, fields: seq<Field>)

  /** One method declared for one handler name. */
  datatype Decl = Decl(fn: Method, handler: string)

  datatype Handler = Handler(fn: string, on: ReplyOn)

  datatype Entry = Entry(
    id: string, handlerId: string, handlers: seq<Handler>, data: Option<Field>, payload: seq<Field>)

  datatype Diagnostic =
    | DuplicatedHandler
    | WrongData
    | MissingPayload
    | RedundantPayload
    | MismatchedQuantity
    | MismatchedType

  datatype Compiled = Compiled(table: seq<Entry>, diagnostics: seq<Diagnostic>)

  /** The constant's name for a handler; different handlers may get the same one. */
  type Naming = string -> string

  /** A method without a `handlers` list handles its own name. */
  function DeclsOf(m: Method): seq<Decl> {
    if m.handlers == [] then [Decl(m, m.name)]
    else seq(|m.handlers|, i requires 0 <= i < |m.handlers| => Decl(m, m.handlers[i]))
  }

  function Decls(methods: seq<Method>): seq<Decl> {
    if methods == [] then [] else DeclsOf(methods[0]) + Decls(methods[1..])
  }

  /* ---- one method ---- */

  function FirstData(fields: seq<Field>): Option<nat> {
    if fields == [] then None
    else if fields[0].data then Some(0)
    else match FirstData(fields[1..])
      case Some(i) => Some(i + 1)
      case None => None
  }

  /** Only a success handler may take data, and only as its first parameter. */
  function DataField(m: Method): Option<Field> {
    if m.on == Success && FirstData(m.fields) == Some(0) then Some(m.fields[0]) else None
  }

  function DataDiagnostics(m: Method): seq<Diagnostic> {
    if FirstData(m.fields).Some? && DataField(m).None? then [WrongData] else []
  }

  /** The parameters left once the leading data, result or error parameter is skipped. */
  function Payload(m: Method): seq<Field> {
    if DataField(m).Some? || m.on != Success then (if m.fields == [] then [] else m.fields[1..]) else m.fields
  }

  predicate IsRaw(payload: seq<Field>) {
    exists i :: 0 <= i < |payload| && payload[i].raw
  }

  function PayloadDiagnostics(payload: seq<Field>): seq<Diagnostic> {
    (if payload == [] then [MissingPayload] else []) +
    (if |payload| != 1 && IsRaw(payload) then [RedundantPayload] else [])
  }

  function NewEntry(id: string, d: Decl): Entry {
    Entry(id, d.handler, [Handler(d.fn.name, d.fn.on)], DataField(d.fn), Payload(d.fn))
  }

  function NewDiagnostics(m: Method): seq<Diagnostic> {
    DataDiagnostics(m) + PayloadDiagnostics(Payload(m))
  }

  /** Positions up to the shorter length where the types differ, one diagnostic each. */
  function TypeDiagnostics(a: seq<Field>, b: seq<Field>): seq<Diagnostic> {
    if a == [] || b == [] then []
    else (if a[0].ty != b[0].ty then [MismatchedType] else []) + TypeDiagnostics(a[1..], b[1..])
  }

  function MergeDiagnostics(e: Entry, m: Method): seq<Diagnostic> {
    NewDiagnostics(m)
    + (if |e.payload| != |Payload(m)| then [MismatchedQuantity] else [])
    + TypeDiagnostics(e.payload, Payload(m))
  }

  /** A second handler is added even when its payload is reported as mismatched. */
  function Merge(e: Entry, m: Method): Entry {
    e.(handlers := e.handlers + [Handler(m.name, m.on)])
  }

  /* ---- the grouping loop ---- */

  function Find(table: seq<Entry>, id: string): (r: Option<nat>)
    ensures r.Some? ==> r.value < |table| && table[r.value].id == id
    ensures r.None? ==> forall k :: 0 <= k < |table| ==> table[k].id != id
  {
    if table == [] then None
    else if table[0].id == id then Some(0)
    else match Find(table[1..], id)
      case Some(k) => Some(k + 1)
      case None => None
  }

  predicate Clashes(e: Entry, on: ReplyOn) {
    exists i :: 0 <= i < |e.handlers| && e.handlers[i].on.Excludes(on)
  }

  function Step(toId: Naming, c: Compiled, d: Decl): Compiled {
    var id := toId(d.handler);
    match Find(c.table, id)
    case None => Compiled(c.table + [NewEntry(id, d)], c.diagnostics + NewDiagnostics(d.fn))
    case Some(k) =>
      var e := c.table[k];
      if Clashes(e, d.fn.on)
      then Compiled(c.table, c.diagnostics + seq(|e.handlers|, _ => DuplicatedHandler))
      else Compiled(c.table[k := Merge(e, d.fn)], c.diagnostics + MergeDiagnostics(e, d.fn))
  }

  function Compile(toId: Naming, ds: seq<Decl>): Compiled {
    if ds == [] then Compiled([], [])
    else Step(toId, Compile(toId, ds[..|ds| - 1]), ds[|ds| - 1])
  }

  lemma {:induction false} CompileOneMore(toId: Naming, ds: seq<Decl>, i: nat)
    requires i < |ds|
    ensures Compile(toId, ds[..i + 1]) == Step(toId, Compile(toId, ds[..i]), ds[i])
  {
    assert ds[..i + 1][..i] == ds[..i];
  }

  /** The loop over all declarations, changing the entries in place. */
  method AsReplyData(toId: Naming, methods: seq<Method>) returns (table: seq<Entry>, diagnostics: seq<Diagnostic>)
    ensures Compiled(table, diagnostics) == Compile(toId, Decls(methods))
    ensures DuplicatedHandler !in diagnostics ==> ServesAll(toId, methods, table)
  {
    var ds := Decls(methods);
    table, diagnostics := [], [];
    for i := 0 to |ds|
      invariant Compiled(table, diagnostics) == Compile(toId, ds[..i])
    {
      CompileOneMore(toId, ds, i);
      var m := ds[i].fn;
      var replyId := toId(ds[i].handler);
      var found := Find(table, replyId);
      if found.None? {
        table := table + [NewEntry(replyId, ds[i])];
        diagnostics := diagnostics + NewDiagnostics(m);
      } else {
        var existing := table[found.value];
        var clash := AnyExcludes(existing, m.on);
        if clash {
          diagnostics := diagnostics + seq(|existing.handlers|, _ => DuplicatedHandler);
        } else {
          diagnostics := diagnostics + MergeDiagnostics(existing, m);
          table := table[found.value := Merge(existing, m)];
        }
      }
    }
    assert ds[..|ds|] == ds;
    if DuplicatedHandler !in diagnostics {
      GroupingPreservesMeaning(toId, ds);
      GroupedServesAll(toId, methods, table);
    }
  }

  method AnyExcludes(e: Entry, on: ReplyOn) returns (clash: bool)
    ensures clash <==> Clashes(e, on)
  {
    for k := 0 to |e.handlers|
      invariant forall j :: 0 <= j < k ==> !e.handlers[j].on.Excludes(on)
    {
      if e.handlers[k].on.Excludes(on) {
        return true;
      }
    }
    return false;
  }

  /* ---- what the declarations mean ---- */

  /** The handlers declared for an id, in declaration order. */
  ghost function Declared(toId: Naming, ds: seq<Decl>, id: string): seq<Handler> {
    if ds == [] then []
    else
      var (init, d) := (ds[..|ds| - 1], ds[|ds| - 1]);
      Declared(toId, init, id) + if toId(d.handler) == id then [Handler(d.fn.name, d.fn.on)] else []
  }

  /** The ids in the order of their first declaration. */
  ghost function FirstIds(toId: Naming, ds: seq<Decl>): seq<string> {
    if ds == [] then []
    else
      var (init, d) := (FirstIds(toId, ds[..|ds| - 1]), ds[|ds| - 1]);
      if toId(d.handler) in init then init else init + [toId(d.handler)]
  }

  /** Two declarations for one id exclude each other. */
  ghost predicate Conflict(toId: Naming, ds: seq<Decl>, i: nat, j: nat) {
    i < j < |ds| && toId(ds[i].handler) == toId(ds[j].handler) && ds[i].fn.on.Excludes(ds[j].fn.on)
  }

  ghost predicate Groups(toId: Naming, ds: seq<Decl>, table: seq<Entry>) {
    && |table| == |FirstIds(toId, ds)|
    && forall k :: 0 <= k < |table| ==>
         table[k].id == FirstIds(toId, ds)[k] && table[k].handlers == Declared(toId, ds, table[k].id)
  }

  /** The ids are exactly those declared, each once. */
  lemma {:induction false} FirstIdsAreTheIds(toId: Naming, ds: seq<Decl>)
    ensures Distinct(FirstIds(toId, ds))
    ensures forall id :: id in FirstIds(toId, ds) <==> exists i :: 0 <= i < |ds| && toId(ds[i].handler) == id
  {
    if ds != [] {
      var n := |ds| - 1;
      FirstIdsAreTheIds(toId, ds[..n]);
      forall id ensures id in FirstIds(toId, ds) <==> exists i :: 0 <= i < |ds| && toId(ds[i].handler) == id {
        if i :| 0 <= i < |ds| && toId(ds[i].handler) == id {
          if i < n { assert toId(ds[..n][i].handler) == id; }
        }
        if id in FirstIds(toId, ds[..n]) {
          var i :| 0 <= i < n && toId(ds[..n][i].handler) == id;
          assert toId(ds[i].handler) == id;
        }
      }
    }
  }

  /** A handler is declared for an id exactly when some declaration says so. */
  lemma {:induction false} DeclaredMembers(toId: Naming, ds: seq<Decl>, id: string)
    ensures forall h :: h in Declared(toId, ds, id) <==>
              exists i :: 0 <= i < |ds| && toId(ds[i].handler) == id && h == Handler(ds[i].fn.name, ds[i].fn.on)
  {
    if ds != [] {
      var n := |ds| - 1;
      DeclaredMembers(toId, ds[..n], id);
      forall h ensures h in Declared(toId, ds, id) <==>
        exists i :: 0 <= i < |ds| && toId(ds[i].handler) == id && h == Handler(ds[i].fn.name, ds[i].fn.on)
      {
        if i :| 0 <= i < |ds| && toId(ds[i].handler) == id && h == Handler(ds[i].fn.name, ds[i].fn.on) {
          if i < n { assert ds[..n][i] == ds[i]; }
        }
        if h in Declared(toId, ds[..n], id) {
          var i :| 0 <= i < n && toId(ds[..n][i].handler) == id && h == Handler(ds[..n][i].fn.name, ds[..n][i].fn.on);
          assert ds[..n][i] == ds[i];
        }
      }
    }
  }

  lemma {:induction false} DiagnosticsOnlyGrow(toId: Naming, c: Compiled, d: Decl)
    ensures c.diagnostics <= Step(toId, c, d).diagnostics
  {
  }

  /** The last declaration is one step after the rest, whose diagnostics remain. */
  lemma {:induction false} CompileLast(toId: Naming, ds: seq<Decl>) returns (init: seq<Decl>, d: Decl)
    requires ds != []
    ensures ds == init + [d] && init == ds[..|ds| - 1] && d == ds[|ds| - 1]
    ensures Compile(toId, ds) == Step(toId, Compile(toId, init), d)
    ensures Compile(toId, init).diagnostics <= Compile(toId, ds).diagnostics
  {
    init, d := ds[..|ds| - 1], ds[|ds| - 1];
    DiagnosticsOnlyGrow(toId, Compile(toId, init), d);
  }

  /** A step changes nothing but the handlers of an entry, or adds an entry for a new id. */
  lemma {:induction false} StepEntry(toId: Naming, c: Compiled, d: Decl, k: nat)
    requires k < |Step(toId, c, d).table|
    ensures var e := Step(toId, c, d).table[k];
            if k < |c.table| then e == c.table[k].(handlers := e.handlers)
            else e == NewEntry(toId(d.handler), d) && Find(c.table, e.id).None?
  {
  }

  /** Some handler declared so far for the new declaration's id excludes it. */
  ghost predicate ClashWith(toId: Naming, ds: seq<Decl>, d: Decl) {
    exists h :: h in Declared(toId, ds, toId(d.handler)) && h.on.Excludes(d.fn.on)
  }

  lemma {:induction false} FoundEntry(toId: Naming, ds: seq<Decl>, table: seq<Entry>, id: string)
    requires Groups(toId, ds, table)
    ensures match Find(table, id)
            case None => id !in FirstIds(toId, ds) && Declared(toId, ds, id) == []
            case Some(k) => FirstIds(toId, ds)[k] == id && table[k].handlers == Declared(toId, ds, id)
                            && forall j :: 0 <= j < |table| && j != k ==> table[j].id != id
  {
    FirstIdsAreTheIds(toId, ds);
    if Find(table, id).None? {
      forall k | 0 <= k < |table| ensures FirstIds(toId, ds)[k] != id { assert table[k].id != id; }
      NothingDeclared(toId, ds, id);
    }
  }

  /** A step reports a duplicate exactly when the declaration clashes with an earlier one. */
  lemma {:induction false} StepReports(toId: Naming, ds: seq<Decl>, c: Compiled, d: Decl)
    requires Groups(toId, ds, c.table) && DuplicatedHandler !in c.diagnostics
    ensures DuplicatedHandler in Step(toId, c, d).diagnostics <==> ClashWith(toId, ds, d)
  {
    FoundEntry(toId, ds, c.table, toId(d.handler));
    NoDuplicateFromNew(d.fn);
    match Find(c.table, toId(d.handler))
    case None =>
    case Some(k) =>
      var e := c.table[k];
      MergeReportsNoDuplicate(e, d.fn);
      if Clashes(e, d.fn.on) {
        var i :| 0 <= i < |e.handlers| && e.handlers[i].on.Excludes(d.fn.on);
        assert e.handlers[i] in Declared(toId, ds, toId(d.handler));
        assert seq(|e.handlers|, _ => DuplicatedHandler)[i] == DuplicatedHandler;
      }
  }

  /** A step without a clash keeps the grouping. */
  lemma {:induction false} StepGroups(toId: Naming, ds: seq<Decl>, c: Compiled, d: Decl)
    requires Groups(toId, ds, c.table) && !ClashWith(toId, ds, d)
    ensures Groups(toId, ds + [d], Step(toId, c, d).table)
  {
    var id := toId(d.handler);
    var (all, after) := (ds + [d], Step(toId, c, d).table);
    assert all[..|all| - 1] == ds;
    FoundEntry(toId, ds, c.table, id);
    match Find(c.table, id)
    case None =>
      forall k | 0 <= k < |after| ensures after[k].handlers == Declared(toId, all, after[k].id) {
        if k < |c.table| { assert after[k] == c.table[k]; }
      }
    case Some(k) =>
      assert Clashes(c.table[k], d.fn.on) ==> ClashWith(toId, ds, d) by {
        if i :| 0 <= i < |c.table[k].handlers| && c.table[k].handlers[i].on.Excludes(d.fn.on) {
          assert c.table[k].handlers[i] in Declared(toId, ds, id);
        }
      }
      assert after == c.table[k := Merge(c.table[k], d.fn)];
  }

  lemma {:induction false} NothingDeclared(toId: Naming, ds: seq<Decl>, id: string)
    requires id !in FirstIds(toId, ds)
    ensures Declared(toId, ds, id) == []
  {
    if ds != [] { NothingDeclared(toId, ds[..|ds| - 1], id); }
  }

  lemma {:induction false} NoDuplicateFromNew(m: Method)
    ensures DuplicatedHandler !in NewDiagnostics(m)
  {
  }

  lemma {:induction false} NoDuplicateFromTypes(a: seq<Field>, b: seq<Field>)
    ensures DuplicatedHandler !in TypeDiagnostics(a, b)
  {
    if a != [] && b != [] { NoDuplicateFromTypes(a[1..], b[1..]); }
  }

  lemma {:induction false} MergeReportsNoDuplicate(e: Entry, m: Method)
    ensures DuplicatedHandler !in MergeDiagnostics(e, m)
  {
    NoDuplicateFromNew(m);
    NoDuplicateFromTypes(e.payload, Payload(m));
  }

  /** If no duplicate is reported, the table has one entry per declared id, numbered by first
      declaration, holding exactly the handlers declared for it, in order. */
  lemma {:induction false} GroupingPreservesMeaning(toId: Naming, ds: seq<Decl>)
    requires DuplicatedHandler !in Compile(toId, ds).diagnostics
    ensures Groups(toId, ds, Compile(toId, ds).table)
  {
    if ds != [] {
      var init, d := CompileLast(toId, ds);
      var c := Compile(toId, init);
      GroupingPreservesMeaning(toId, init);
      StepReports(toId, init, c, d);
      StepGroups(toId, init, c, d);
    }
  }

  ghost predicate HasConflict(toId: Naming, ds: seq<Decl>) {
    exists i: nat, j: nat :: Conflict(toId, ds, i, j)
  }

  lemma {:induction false} ConflictWithLast(toId: Naming, ds: seq<Decl>)
    requires ds != []
    ensures var init := ds[..|ds| - 1];
            HasConflict(toId, ds) <==> HasConflict(toId, init) || ClashWith(toId, init, ds[|ds| - 1])
  {
    var n := |ds| - 1;
    DeclaredMembers(toId, ds[..n], toId(ds[n].handler));
    if i: nat, j: nat :| Conflict(toId, ds, i, j) {
      if j < n {
        assert Conflict(toId, ds[..n], i, j);
      } else {
        assert ds[..n][i] == ds[i];
        assert Handler(ds[i].fn.name, ds[i].fn.on) in Declared(toId, ds[..n], toId(ds[n].handler));
      }
    }
    if i: nat, j: nat :| Conflict(toId, ds[..n], i, j) { assert Conflict(toId, ds, i, j); }
    if h :| h in Declared(toId, ds[..n], toId(ds[n].handler)) && h.on.Excludes(ds[n].fn.on) {
      var i :| 0 <= i < n && toId(ds[..n][i].handler) == toId(ds[n].handler)
               && h == Handler(ds[..n][i].fn.name, ds[..n][i].fn.on);
      assert Conflict(toId, ds, i, n);
    }
  }

  /** A duplicate is reported exactly when two declarations for one id exclude each other. */
  lemma {:induction false} DuplicateIffConflict(toId: Naming, ds: seq<Decl>)
    ensures DuplicatedHandler in Compile(toId, ds).diagnostics <==> HasConflict(toId, ds)
  {
    if ds != [] {
      var init, d := CompileLast(toId, ds);
      var c := Compile(toId, init);
      DuplicateIffConflict(toId, init);
      ConflictWithLast(toId, ds);
      if DuplicatedHandler !in c.diagnostics {
        GroupingPreservesMeaning(toId, init);
        StepReports(toId, init, c, d);
      }
    }
  }

  /** No two handlers exclude each other. */
  ghost predicate Compatible(hs: seq<Handler>) {
    forall i, j :: 0 <= i < j < |hs| ==> !hs[i].on.Excludes(hs[j].on)
  }

  ghost function Kinds(hs: seq<Handler>): seq<ReplyOn> {
    seq(|hs|, i requires 0 <= i < |hs| => hs[i].on)
  }

  lemma {:induction false} ThreeKindsClash(a: ReplyOn, b: ReplyOn, c: ReplyOn)
    ensures a.Excludes(b) || a.Excludes(c) || b.Excludes(c)
  {
  }

  lemma {:induction false} AtMostTwo(hs: seq<Handler>)
    ensures |hs| > 2 ==> !Compatible(hs)
  {
    if |hs| > 2 { ThreeKindsClash(hs[0].on, hs[1].on, hs[2].on); }
  }

  lemma {:induction false} CompatibleShapes(hs: seq<Handler>)
    requires Compatible(hs) && hs != []
    ensures Kinds(hs) in {[Always], [Success], [Error], [Success, Error], [Error, Success]}
  {
    AtMostTwo(hs);
    if |hs| == 2 {
      assert !hs[0].on.Excludes(hs[1].on);
      assert Kinds(hs) == [hs[0].on, hs[1].on];
      assert (hs[0].on == Success && hs[1].on == Error) || (hs[0].on == Error && hs[1].on == Success);
    } else {
      assert Kinds(hs) == [hs[0].on];
      assert hs[0].on == Always || hs[0].on == Success || hs[0].on == Error;
    }
  }

  /** Without a reported duplicate no two handlers of an id exclude each other. */
  lemma {:induction false} HandlersCompatible(toId: Naming, ds: seq<Decl>, id: string)
    requires !HasConflict(toId, ds)
    ensures Compatible(Declared(toId, ds, id))
  {
    if ds != [] {
      var (init, d) := (ds[..|ds| - 1], ds[|ds| - 1]);
      ConflictWithLast(toId, ds);
      HandlersCompatible(toId, init, id);
      if toId(d.handler) == id { StaysCompatible(toId, init, d); }
    }
  }

  lemma {:induction false} StaysCompatible(toId: Naming, ds: seq<Decl>, d: Decl)
    requires Compatible(Declared(toId, ds, toId(d.handler))) && !ClashWith(toId, ds, d)
    ensures Compatible(Declared(toId, ds, toId(d.handler)) + [Handler(d.fn.name, d.fn.on)])
  {
    var hs := Declared(toId, ds, toId(d.handler));
    forall i | 0 <= i < |hs| ensures !hs[i].on.Excludes(d.fn.on) { assert hs[i] in hs; }
  }

  lemma {:induction false} SomeHandlerDeclared(toId: Naming, ds: seq<Decl>, id: string)
    requires id in FirstIds(toId, ds)
    ensures Declared(toId, ds, id) != []
  {
    var init := ds[..|ds| - 1];
    if id in FirstIds(toId, init) { SomeHandlerDeclared(toId, init, id); }
  }

  lemma {:induction false} GroupShapes(toId: Naming, ds: seq<Decl>, table: seq<Entry>, k: nat)
    requires Groups(toId, ds, table) && !HasConflict(toId, ds) && k < |table|
    ensures Kinds(table[k].handlers) in {[Always], [Success], [Error], [Success, Error], [Error, Success]}
  {
    var id := FirstIds(toId, ds)[k];
    HandlersCompatible(toId, ds, id);
    SomeHandlerDeclared(toId, ds, id);
    CompatibleShapes(Declared(toId, ds, id));
  }

  /** So each entry has one handler for always, or at most one for success and one for error. */
  lemma {:induction false} EntryShapes(toId: Naming, ds: seq<Decl>, k: nat)
    requires DuplicatedHandler !in Compile(toId, ds).diagnostics
    requires k < |Compile(toId, ds).table|
    ensures Kinds(Compile(toId, ds).table[k].handlers)
            in {[Always], [Success], [Error], [Success, Error], [Error, Success]}
  {
    GroupingPreservesMeaning(toId, ds);
    DuplicateIffConflict(toId, ds);
    GroupShapes(toId, ds, Compile(toId, ds).table, k);
  }

  /* ---- the same over methods ---- */

  /** The names a method is declared for: those it lists, or its own. */
  function Names(m: Method): seq<string> {
    if m.handlers == [] then [m.name] else m.handlers
  }

  /** How many names the first `a` methods are declared for. */
  ghost function NamesBefore(methods: seq<Method>, a: nat): nat
    requires a <= |methods|
  {
    if a == 0 then 0 else NamesBefore(methods, a - 1) + |Names(methods[a - 1])|
  }

  /** The declarations are the pairs of a method and one of its names: method by method, for each its
      names in order, and no others. */
  ghost predicate IsListing(methods: seq<Method>, ds: seq<Decl>) {
    && |ds| == NamesBefore(methods, |methods|)
    && forall a: nat, p: nat :: a < |methods| && p < |Names(methods[a])| ==> PairAt(methods, ds, a, p)
  }

  ghost predicate PairAt(methods: seq<Method>, ds: seq<Decl>, a: nat, p: nat)
    requires a < |methods| && p < |Names(methods[a])|
  {
    var at := NamesBefore(methods, a) + p;
    at < |ds| && ds[at] == Decl(methods[a], Names(methods[a])[p])
  }

  lemma {:induction false} NamesBeforeRest(methods: seq<Method>, a: nat)
    requires 1 <= a <= |methods|
    ensures NamesBefore(methods, a) == |Names(methods[0])| + NamesBefore(methods[1..], a - 1)
  {
    if a > 1 { NamesBeforeRest(methods, a - 1); }
  }

  lemma {:induction false} DeclAt(methods: seq<Method>, a: nat, p: nat)
    requires a < |methods| && p < |Names(methods[a])|
    ensures PairAt(methods, Decls(methods), a, p)
  {
    assert |DeclsOf(methods[0])| == |Names(methods[0])|;
    if a > 0 {
      NamesBeforeRest(methods, a);
      DeclAt(methods[1..], a - 1, p);
    }
  }

  lemma {:induction false} DeclsCount(methods: seq<Method>)
    ensures |Decls(methods)| == NamesBefore(methods, |methods|)
  {
    if methods != [] {
      DeclsCount(methods[1..]);
      NamesBeforeRest(methods, |methods|);
    }
  }

  lemma {:induction false} DeclsAreListed(methods: seq<Method>)
    ensures IsListing(methods, Decls(methods))
  {
    DeclsCount(methods);
    forall a: nat, p: nat | a < |methods| && p < |Names(methods[a])| ensures PairAt(methods, Decls(methods), a, p) {
      DeclAt(methods, a, p);
    }
  }

  /** A method declared for a name. */
  ghost predicate Serves(methods: seq<Method>, m: Method, name: string) {
    m in methods && (name in m.handlers || (m.handlers == [] && name == m.name))
  }

  lemma {:induction false} DeclsAreServices(methods: seq<Method>, m: Method, name: string)
    ensures Decl(m, name) in Decls(methods) <==> Serves(methods, m, name)
  {
    if methods != [] {
      DeclsAreServices(methods[1..], m, name);
      var first := methods[0];
      assert Decl(m, name) in DeclsOf(first) <==> m == first && name in Names(first) by {
        if m == first && name in Names(first) {
          var p :| 0 <= p < |Names(first)| && Names(first)[p] == name;
          assert DeclsOf(first)[p] == Decl(m, name);
        }
      }
      assert methods == [first] + methods[1..];
    }
  }

  /** The handlers of an id, method by method, one for each of its names that has that id. */
  ghost function ServedBy(toId: Naming, methods: seq<Method>, id: string): seq<Handler> {
    if methods == [] then []
    else
      var m := methods[0];
      seq(|Filtered(Names(m), HasId(toId, id))|, _ => Handler(m.name, m.on)) + ServedBy(toId, methods[1..], id)
  }

  function HasId(toId: Naming, id: string): string -> bool {
    name => toId(name) == id
  }

  lemma {:induction false} DeclaredSplits(toId: Naming, a: seq<Decl>, b: seq<Decl>, id: string)
    ensures Declared(toId, a + b, id) == Declared(toId, a, id) + Declared(toId, b, id)
    decreases |b|
  {
    if b == [] {
      assert a + b == a;
    } else {
      var (init, d) := (b[..|b| - 1], b[|b| - 1]);
      DeclaredSplits(toId, a, init, id);
      assert (a + b)[..|a + b| - 1] == a + init;
    }
  }

  lemma {:induction false} DeclaredOfOne(toId: Naming, m: Method, names: seq<string>, ds: seq<Decl>, id: string)
    requires |ds| == |names| && forall p :: 0 <= p < |names| ==> ds[p] == Decl(m, names[p])
    ensures Declared(toId, ds, id) == seq(|Filtered(names, HasId(toId, id))|, _ => Handler(m.name, m.on))
  {
    if ds != [] { DeclaredOfOne(toId, m, names[..|names| - 1], ds[..|ds| - 1], id); }
  }

  lemma {:induction false} DeclaredIsServed(toId: Naming, methods: seq<Method>, id: string)
    ensures Declared(toId, Decls(methods), id) == ServedBy(toId, methods, id)
  {
    if methods != [] {
      var m := methods[0];
      DeclaredIsServed(toId, methods[1..], id);
      DeclaredSplits(toId, DeclsOf(m), Decls(methods[1..]), id);
      DeclaredOfOne(toId, m, Names(m), DeclsOf(m), id);
    }
  }

  /** Every name a method is declared for has an entry with that method's handler, and every handler
      in an entry comes so, in the order and as often as declared. */
  ghost predicate ServesAll(toId: Naming, methods: seq<Method>, table: seq<Entry>) {
    && (forall j, k :: 0 <= j < k < |table| ==> table[j].id != table[k].id)
    && (forall m, name :: Serves(methods, m, name) ==> exists k :: HandledBy(table, k, toId(name), m))
    && (forall k :: 0 <= k < |table| ==> table[k].handlers == ServedBy(toId, methods, table[k].id))
    && (forall k, h :: 0 <= k < |table| && h in table[k].handlers ==>
          exists m, name :: Serves(methods, m, name) && toId(name) == table[k].id && h == Handler(m.name, m.on))
  }

  ghost predicate HandledBy(table: seq<Entry>, k: int, id: string, m: Method) {
    0 <= k < |table| && table[k].id == id && Handler(m.name, m.on) in table[k].handlers
  }

  lemma {:induction false} GroupedServesAll(toId: Naming, methods: seq<Method>, table: seq<Entry>)
    requires Groups(toId, Decls(methods), table)
    ensures ServesAll(toId, methods, table)
  {
    var ds := Decls(methods);
    FirstIdsAreTheIds(toId, ds);
    forall m, name | Serves(methods, m, name) ensures exists k :: HandledBy(table, k, toId(name), m) {
      DeclsAreServices(methods, m, name);
      var i :| 0 <= i < |ds| && ds[i] == Decl(m, name);
      assert toId(ds[i].handler) in FirstIds(toId, ds);
      var k :| 0 <= k < |table| && FirstIds(toId, ds)[k] == toId(name);
      DeclaredMembers(toId, ds, table[k].id);
      assert HandledBy(table, k, toId(name), m);
    }
    forall k | 0 <= k < |table| ensures table[k].handlers == ServedBy(toId, methods, table[k].id) {
      DeclaredIsServed(toId, methods, table[k].id);
    }
    forall k, h | 0 <= k < |table| && h in table[k].handlers
      ensures exists m, name :: Serves(methods, m, name) && toId(name) == table[k].id && h == Handler(m.name, m.on)
    {
      DeclaredMembers(toId, ds, table[k].id);
      var i :| 0 <= i < |ds| && toId(ds[i].handler) == table[k].id && h == Handler(ds[i].fn.name, ds[i].fn.on);
      DeclsAreServices(methods, ds[i].fn, ds[i].handler);
      assert ds[i] == Decl(ds[i].fn, ds[i].handler);
    }
  }
}
