/** Exactly when the grouping of reply methods reports nothing. */
module ReplyDiagnostics {
  import opened Prelude
  import opened ReplyTable

  /** A method with parameters left for its payload, a raw one alone, and data only where it may be:
      in the first parameter of a success method. */
  ghost predicate WellDeclared(m: Method) {
    var lead := if m.on != Success || (m.fields != [] && m.fields[0].data) then 1 else 0;
    && |m.fields| > lead
    && ((exists p :: lead <= p < |m.fields| && m.fields[p].raw) ==> |m.fields| == lead + 1)
    && ((exists p :: 0 <= p < |m.fields| && m.fields[p].data) ==> m.on == Success && m.fields[0].data)
  }

  lemma {:induction false} FirstDataMeaning(fields: seq<Field>)
    ensures FirstData(fields).None? <==> forall p :: 0 <= p < |fields| ==> !fields[p].data
    ensures FirstData(fields) == Some(0) <==> fields != [] && fields[0].data
  {
    if fields != [] {
      FirstDataMeaning(fields[1..]);
      assert forall p :: 0 < p < |fields| ==> fields[p] == fields[1..][p - 1];
    }
  }

  lemma {:induction false} NewReports(m: Method)
    ensures NewDiagnostics(m) == [] <==> WellDeclared(m)
  {
    FirstDataMeaning(m.fields);
    var (payload, lead) := (Payload(m), if m.on != Success || (m.fields != [] && m.fields[0].data) then 1 else 0);
    if |m.fields| > lead {
      assert |payload| == |m.fields| - lead && forall p :: 0 <= p < |payload| ==> payload[p] == m.fields[p + lead];
      assert IsRaw(payload) <==> exists p :: lead <= p < |m.fields| && m.fields[p].raw by {
        if p :| lead <= p < |m.fields| && m.fields[p].raw { assert payload[p - lead].raw; }
      }
    }
  }

  ghost predicate SamePayload(a: seq<Field>, b: seq<Field>) {
    |a| == |b| && forall p :: 0 <= p < |a| ==> a[p].ty == b[p].ty
  }

  lemma {:induction false} TypesReport(a: seq<Field>, b: seq<Field>)
    requires |a| == |b|
    ensures TypeDiagnostics(a, b) == [] <==> SamePayload(a, b)
  {
    if a != [] {
      TypesReport(a[1..], b[1..]);
      assert forall p :: 0 < p < |a| ==> a[p] == a[1..][p - 1] && b[p] == b[1..][p - 1];
    }
  }

  /** Declarations that fit each other: of one id they neither exclude each other nor differ in payload. */
  ghost predicate Fit(toId: Naming, a: Decl, b: Decl) {
    toId(a.handler) == toId(b.handler) ==>
      !a.fn.on.Excludes(b.fn.on) && SamePayload(Payload(a.fn), Payload(b.fn))
  }

  ghost predicate AllFit(toId: Naming, ds: seq<Decl>) {
    && (forall i :: 0 <= i < |ds| ==> WellDeclared(ds[i].fn))
    && (forall i, j :: 0 <= i < j < |ds| ==> Fit(toId, ds[i], ds[j]))
  }

  ghost predicate PayloadFrom(toId: Naming, ds: seq<Decl>, e: Entry, i: nat) {
    i < |ds| && toId(ds[i].handler) == e.id && e.payload == Payload(ds[i].fn)
  }

  /** An entry has its payload from some declaration of its id. */
  ghost predicate PayloadDeclared(toId: Naming, ds: seq<Decl>, e: Entry) {
    exists i: nat :: PayloadFrom(toId, ds, e, i)
  }

  ghost predicate PayloadsDeclared(toId: Naming, ds: seq<Decl>, table: seq<Entry>) {
    forall k :: 0 <= k < |table| ==> PayloadDeclared(toId, ds, table[k])
  }

  lemma {:induction false} StepPayloadsDeclared(toId: Naming, ds: seq<Decl>, c: Compiled, d: Decl)
    requires PayloadsDeclared(toId, ds, c.table)
    ensures PayloadsDeclared(toId, ds + [d], Step(toId, c, d).table)
  {
    var after := Step(toId, c, d).table;
    forall k | 0 <= k < |after| ensures PayloadDeclared(toId, ds + [d], after[k]) {
      StepEntry(toId, c, d, k);
      if k < |c.table| {
        assert PayloadDeclared(toId, ds, c.table[k]);
        var i: nat :| PayloadFrom(toId, ds, c.table[k], i);
        assert PayloadFrom(toId, ds + [d], after[k], i);
      } else {
        assert PayloadFrom(toId, ds + [d], after[k], |ds|);
      }
    }
  }

  ghost predicate AllFitWith(toId: Naming, ds: seq<Decl>, d: Decl) {
    forall i :: 0 <= i < |ds| ==> Fit(toId, ds[i], d)
  }

  /** An entry with all the handlers of an id clashes exactly when some declaration excludes the new one. */
  lemma {:induction false} ClashesIffExcluded(toId: Naming, ds: seq<Decl>, e: Entry, d: Decl)
    requires e.handlers == Declared(toId, ds, toId(d.handler))
    ensures !Clashes(e, d.fn.on) <==>
              forall i :: 0 <= i < |ds| && toId(ds[i].handler) == toId(d.handler) ==> !ds[i].fn.on.Excludes(d.fn.on)
  {
    DeclaredMembers(toId, ds, toId(d.handler));
    forall i | 0 <= i < |ds| && toId(ds[i].handler) == toId(d.handler) && !Clashes(e, d.fn.on)
      ensures !ds[i].fn.on.Excludes(d.fn.on)
    {
      assert Handler(ds[i].fn.name, ds[i].fn.on) in e.handlers;
    }
    if Clashes(e, d.fn.on) {
      var j :| 0 <= j < |e.handlers| && e.handlers[j].on.Excludes(d.fn.on);
      assert e.handlers[j] in e.handlers;
    }
  }

  /** Where the earlier declarations of an id fit each other, the entry's payload stands for all of theirs. */
  lemma {:induction false} PayloadStandsForAll(toId: Naming, ds: seq<Decl>, e: Entry, payload: seq<Field>)
    requires AllFit(toId, ds) && PayloadDeclared(toId, ds, e)
    ensures SamePayload(e.payload, payload) <==>
              forall i :: 0 <= i < |ds| && toId(ds[i].handler) == e.id ==> SamePayload(Payload(ds[i].fn), payload)
  {
    var first: nat :| PayloadFrom(toId, ds, e, first);
    forall i | 0 <= i < |ds| && toId(ds[i].handler) == e.id ensures SamePayload(Payload(ds[i].fn), e.payload) {
      assert i == first || Fit(toId, ds[i], ds[first]) || Fit(toId, ds[first], ds[i]);
      if i < first { assert Fit(toId, ds[i], ds[first]); }
      if i > first { assert Fit(toId, ds[first], ds[i]); }
    }
  }

  lemma {:induction false} MergeReports(e: Entry, m: Method)
    ensures MergeDiagnostics(e, m) == [] <==> WellDeclared(m) && SamePayload(e.payload, Payload(m))
  {
    NewReports(m);
    if |e.payload| == |Payload(m)| { TypesReport(e.payload, Payload(m)); }
  }

  lemma {:induction false} StepIsClean(toId: Naming, ds: seq<Decl>, c: Compiled, d: Decl)
    requires c.diagnostics == [] && AllFit(toId, ds)
    requires Groups(toId, ds, c.table) && PayloadsDeclared(toId, ds, c.table)
    ensures Step(toId, c, d).diagnostics == [] <==> WellDeclared(d.fn) && AllFitWith(toId, ds, d)
  {
    var id := toId(d.handler);
    NewReports(d.fn);
    FoundEntry(toId, ds, c.table, id);
    match Find(c.table, id)
    case None =>
      FirstIdsAreTheIds(toId, ds);
      assert forall i :: 0 <= i < |ds| ==> toId(ds[i].handler) in FirstIds(toId, ds);
    case Some(k) =>
      var e := c.table[k];
      ClashesIffExcluded(toId, ds, e, d);
      assert PayloadDeclared(toId, ds, e);
      PayloadStandsForAll(toId, ds, e, Payload(d.fn));
      MergeReports(e, d.fn);
      FitsFound(toId, ds, e, d);
      if Clashes(e, d.fn.on) { assert |seq(|e.handlers|, _ => DuplicatedHandler)| > 0; }
  }

  lemma {:induction false} FitsFound(toId: Naming, ds: seq<Decl>, e: Entry, d: Decl)
    requires e.id == toId(d.handler)
    ensures AllFitWith(toId, ds, d) <==>
              && (forall i :: 0 <= i < |ds| && toId(ds[i].handler) == e.id ==> !ds[i].fn.on.Excludes(d.fn.on))
              && (forall i :: 0 <= i < |ds| && toId(ds[i].handler) == e.id ==>
                    SamePayload(Payload(ds[i].fn), Payload(d.fn)))
  {
    if AllFitWith(toId, ds, d) {
      forall i | 0 <= i < |ds| && toId(ds[i].handler) == e.id
        ensures !ds[i].fn.on.Excludes(d.fn.on) && SamePayload(Payload(ds[i].fn), Payload(d.fn))
      {
        assert Fit(toId, ds[i], d);
      }
    }
  }

  lemma {:induction false} FitWithLast(toId: Naming, ds: seq<Decl>, d: Decl)
    ensures AllFit(toId, ds + [d]) <==>
              AllFit(toId, ds) && WellDeclared(d.fn) && AllFitWith(toId, ds, d)
  {
    var all := ds + [d];
    assert forall i :: 0 <= i < |ds| ==> all[i] == ds[i];
    assert all[|ds|] == d;
    if AllFit(toId, all) {
      forall i | 0 <= i < |ds| ensures Fit(toId, ds[i], d) { assert Fit(toId, all[i], all[|ds|]); }
      forall i, j | 0 <= i < j < |ds| ensures Fit(toId, ds[i], ds[j]) { assert Fit(toId, all[i], all[j]); }
    }
  }

  lemma {:induction false} PayloadsAreDeclared(toId: Naming, ds: seq<Decl>)
    ensures PayloadsDeclared(toId, ds, Compile(toId, ds).table)
  {
    if ds != [] {
      var init, d := CompileLast(toId, ds);
      PayloadsAreDeclared(toId, init);
      StepPayloadsDeclared(toId, init, Compile(toId, init), d);
    }
  }

  /** Nothing is reported exactly when each method is declared as it should be and the declarations
      of each id fit each other. */
  lemma {:induction false} CleanIff(toId: Naming, ds: seq<Decl>)
    ensures Compile(toId, ds).diagnostics == [] <==> AllFit(toId, ds)
  {
    if ds != [] {
      var init, d := CompileLast(toId, ds);
      var c := Compile(toId, init);
      CleanIff(toId, init);
      FitWithLast(toId, init, d);
      if c.diagnostics == [] {
        GroupingPreservesMeaning(toId, init);
        PayloadsAreDeclared(toId, init);
        StepIsClean(toId, init, c, d);
      }
    }
  }
}
