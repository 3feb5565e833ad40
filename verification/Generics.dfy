/** Which generic parameters the generated message types use: a visitor over type trees, and the
    where-predicates kept for the used ones. */
module Generics {
  import opened Prelude
  import opened Ordering

  /** A syntax tree as the visitor sees it: paths, with their arguments inside the segments, and any
      other node with its parts. */
  datatype Node = PathNode(path: Path) | Other(parts: seq<Node>)

  datatype Path = Path(segments: seq<Segment>)

  datatype Segment = Segment(ident: string, args: seq<Node>)

  /** A generic parameter: a type parameter is referred to by its name as a path; lifetimes and
      constants have no path. */
  datatype Generic = TypeParam(ident: string, bounds: string) | OtherParam(text: string) {
    function GetPath(): Option<Path> {
      if TypeParam? then Some(Path([Segment(ident, [])])) else None
    }
  }

  /** What rustc requires of a parameter list: no two type parameters have the same name. */
  ghost predicate NamesDistinct(generics: seq<Generic>) {
    forall i, j :: 0 <= i < j < |generics| && generics[i].TypeParam? && generics[j].TypeParam? ==>
                     generics[i].ident != generics[j].ident
  }

  /** It also keeps the keyword `Self` from being a parameter's name. */
  ghost predicate NoneNamedSelf(generics: seq<Generic>) {
    forall g :: g in generics && g.TypeParam? ==> g.ident != "Self"
  }

  /* ---- where a path occurs ---- */

  /** Some path of the tree, at any depth, satisfies `q`. */
  ghost predicate Occurs(q: Path -> bool, n: Node) {
    match n
    case PathNode(path) => q(path) || exists s :: s in path.segments && OccursInSegment(q, s)
    case Other(parts) => exists m :: m in parts && Occurs(q, m)
  }

  ghost predicate OccursInSegment(q: Path -> bool, s: Segment) {
    exists m :: m in s.args && Occurs(q, m)
  }

  ghost predicate OccursIn(q: Path -> bool, ns: seq<Node>) {
    exists n :: n in ns && Occurs(q, n)
  }

  /** The path is the parameter and nothing else. */
  ghost function Alone(g: Generic): Path -> bool {
    p => g.GetPath() == Some(p)
  }

  /** The path goes on after the parameter's name, as in `T::Item`. */
  ghost function Longer(g: Generic): Path -> bool {
    p => StartsWith(g)(p) && !Alone(g)(p)
  }

  ghost function StartsWith(g: Generic): Path -> bool {
    (p: Path) => g.TypeParam? && p.segments != [] && p.segments[0].ident == g.ident
  }

  /** The generic parameter occurs as a whole path in one of the trees. */
  ghost predicate Uses(ns: seq<Node>, g: Generic) {
    OccursIn(Alone(g), ns)
  }

  ghost predicate UsesSegments(segments: seq<Segment>, g: Generic) {
    exists s :: s in segments && OccursInSegment(Alone(g), s)
  }

  /** A name begins a path exactly when it stands alone or begins a longer path. */
  lemma {:induction false} StartsAloneOrLonger(g: Generic, n: Node)
    ensures Occurs(StartsWith(g), n) <==> Occurs(Alone(g), n) || Occurs(Longer(g), n)
  {
    match n
    case PathNode(path) =>
      forall s, m | s in path.segments && m in s.args
        ensures Occurs(StartsWith(g), m) <==> Occurs(Alone(g), m) || Occurs(Longer(g), m)
      {
        StartsAloneOrLonger(g, m);
      }
      forall s | s in path.segments
        ensures OccursInSegment(StartsWith(g), s) <==> OccursInSegment(Alone(g), s) || OccursInSegment(Longer(g), s)
      {
      }
    case Other(parts) =>
      forall m | m in parts ensures Occurs(StartsWith(g), m) <==> Occurs(Alone(g), m) || Occurs(Longer(g), m) {
        StartsAloneOrLonger(g, m);
      }
  }

  lemma {:induction false} StartsInAloneOrLonger(g: Generic, ns: seq<Node>)
    ensures OccursIn(StartsWith(g), ns) <==> OccursIn(Alone(g), ns) || OccursIn(Longer(g), ns)
  {
    forall n | n in ns ensures Occurs(StartsWith(g), n) <==> Occurs(Alone(g), n) || Occurs(Longer(g), n) {
      StartsAloneOrLonger(g, n);
    }
  }

  lemma {:induction false} UsesOnePath(p: Path, g: Generic)
    ensures Uses([PathNode(p)], g) <==> g.GetPath() == Some(p) || UsesSegments(p.segments, g)
  {
    assert PathNode(p) in [PathNode(p)];
  }

  lemma {:induction false} UsesOneOther(parts: seq<Node>, g: Generic)
    ensures Uses([Other(parts)], g) <==> Uses(parts, g)
  {
    assert Other(parts) in [Other(parts)];
  }

  lemma {:induction false} UsesOneMoreSegment(segments: seq<Segment>, s: Segment, g: Generic)
    ensures UsesSegments(segments + [s], g) <==> UsesSegments(segments, g) || Uses(s.args, g)
  {
    assert s in segments + [s];
    assert forall t :: t in segments ==> t in segments + [s];
  }

  lemma {:induction false} UsesOneMoreNode(ns: seq<Node>, n: Node, g: Generic)
    ensures Uses(ns + [n], g) <==> Uses(ns, g) || Uses([n], g)
  {
    assert n in ns + [n] && n in [n];
    assert forall t :: t in ns ==> t in ns + [n];
  }

  /* ---- the visitor ---- */

  /** The first generic whose path is `p`. */
  function FindGeneric(generics: seq<Generic>, p: Path): Option<Generic> {
    if generics == [] then None
    else if generics[0].GetPath() == Some(p) then Some(generics[0])
    else FindGeneric(generics[1..], p)
  }

  lemma {:induction false} FindsTheGeneric(generics: seq<Generic>, p: Path, g: Generic)
    requires NamesDistinct(generics)
    ensures FindGeneric(generics, p) == Some(g) <==> g in generics && g.GetPath() == Some(p)
  {
    if generics != [] {
      var rest := generics[1..];
      assert generics == [generics[0]] + rest;
      assert NamesDistinct(rest) by {
        assert forall i :: 0 <= i < |rest| ==> rest[i] == generics[i + 1];
      }
      FindsTheGeneric(rest, p, g);
      if generics[0].GetPath() == Some(p) {
        forall i | 0 <= i < |rest| ensures rest[i].GetPath() != Some(p) { assert rest[i] == generics[i + 1]; }
      }
    }
  }

  class CheckGenerics {
    const generics: seq<Generic>
    var used: seq<Generic>

    constructor (generics: seq<Generic>)
      ensures this.generics == generics && used == []
    {
      this.generics, used := generics, [];
    }

    /** Visiting records each generic used in what is visited, once, and forgets nothing. */
    twostate predicate Recorded(seen: seq<Node>)
      reads this
    {
      && Extends(old(used), used)
      && (NamesDistinct(generics) ==>
            forall g :: g in used <==> g in old(used) || (g in generics && Uses(seen, g)))
    }

    /** Records the generic written as this path, then visits the segments' arguments. */
    method VisitPath(p: Path)
      modifies this
      ensures Recorded([PathNode(p)])
      decreases p, 1
    {
      var found := FindGeneric(generics, p);
      if found.Some? && found.value !in used {
        used := used + [found.value];
      }
      ghost var afterSelf := used;
      if NamesDistinct(generics) {
        forall g ensures g in afterSelf <==> g in old(used) || (g in generics && g.GetPath() == Some(p)) {
          FindsTheGeneric(generics, p, g);
        }
      }
      for i := 0 to |p.segments|
        invariant Extends(afterSelf, used)
        invariant NamesDistinct(generics) ==>
                    forall g :: g in used <==> g in afterSelf || (g in generics && UsesSegments(p.segments[..i], g))
      {
        VisitAll(p.segments[i].args);
        assert p.segments[..i + 1] == p.segments[..i] + [p.segments[i]];
        forall g { UsesOneMoreSegment(p.segments[..i], p.segments[i], g); }
      }
      assert p.segments[..|p.segments|] == p.segments;
      forall g { UsesOnePath(p, g); }
    }

    method Visit(n: Node)
      modifies this
      ensures Recorded([n])
      decreases n, 2
    {
      match n {
        case PathNode(path) => VisitPath(path);
        case Other(parts) =>
          VisitAll(parts);
          forall g { UsesOneOther(parts, g); }
      }
    }

    method VisitAll(ns: seq<Node>)
      modifies this
      ensures Recorded(ns)
      decreases ns, 0
    {
      for i := 0 to |ns|
        invariant Recorded(ns[..i])
      {
        Visit(ns[i]);
        assert ns[..i + 1] == ns[..i] + [ns[i]];
        forall g { UsesOneMoreNode(ns[..i], ns[i], g); }
      }
      assert ns[..|ns|] == ns;
    }

    /** Every occurrence of a parameter falls on one side; the unused ones keep their order. */
    method UsedUnused() returns (used: seq<Generic>, unused: seq<Generic>)
      ensures used == this.used
      ensures Subsequence(unused, generics)
      ensures forall g :: g in unused <==> g in generics && g !in used
      ensures forall g :: multiset(unused)[g] == if g in used then 0 else multiset(generics)[g]
      ensures Distinct(generics) && Distinct(used) && (forall g :: g in used ==> g in generics) ==>
                multiset(used) + multiset(unused) == multiset(generics)
    {
      used, unused := this.used, Filtered(generics, NotIn(this.used));
      FilteredMeaning(generics, NotIn(used));
      if Distinct(generics) && Distinct(used) && forall g :: g in used ==> g in generics {
        Partition(generics, used, unused);
      }
    }
  }

  /** Visiting only appends, and never what is already recorded. */
  ghost predicate Extends(before: seq<Generic>, after: seq<Generic>) {
    before <= after && (Distinct(before) ==> Distinct(after))
  }

  function NotIn(used: seq<Generic>): Generic -> bool {
    g => g !in used
  }

  lemma {:induction false} Partition(generics: seq<Generic>, used: seq<Generic>, unused: seq<Generic>)
    requires Distinct(generics) && Distinct(used)
    requires forall g :: g in used ==> g in generics
    requires forall g :: multiset(unused)[g] == if g in used then 0 else multiset(generics)[g]
    ensures multiset(used) + multiset(unused) == multiset(generics)
  {
    DistinctIffCounts(generics);
    DistinctIffCounts(used);
    forall g ensures multiset(used)[g] + multiset(unused)[g] == multiset(generics)[g] {
      assert g in used <==> g in multiset(used);
      assert g in generics <==> g in multiset(generics);
    }
  }

  /* ---- stripping Self ---- */

  /** Drops every `Self` segment, so that `Self::Item` becomes `Item`, at any depth. */
  function StripSelf(n: Node): Node {
    match n
    case PathNode(path) => PathNode(Path(StripSegments(path.segments)))
    case Other(parts) => Other(StripAll(parts))
  }

  function StripAll(ns: seq<Node>): seq<Node> {
    if ns == [] then [] else [StripSelf(ns[0])] + StripAll(ns[1..])
  }

  function StripSegments(segments: seq<Segment>): seq<Segment> {
    if segments == [] then []
    else
      var rest := StripSegments(segments[1..]);
      if segments[0].ident == "Self" then rest
      else [Segment(segments[0].ident, StripAll(segments[0].args))] + rest
  }

  ghost predicate MentionsSelf(n: Node) {
    match n
    case PathNode(path) =>
      exists s :: s in path.segments && (s.ident == "Self" || exists m :: m in s.args && MentionsSelf(m))
    case Other(parts) => exists m :: m in parts && MentionsSelf(m)
  }

  /** A stripped type mentions `Self` nowhere, so it can stand outside the trait or impl block. */
  lemma {:induction false} StrippedMentionsNoSelf(n: Node)
    ensures !MentionsSelf(StripSelf(n))
  {
    match n
    case PathNode(path) => SegmentsMentionNoSelf(path.segments);
    case Other(parts) => AllMentionNoSelf(parts);
  }

  lemma {:induction false} AllMentionNoSelf(ns: seq<Node>)
    ensures forall m :: m in StripAll(ns) ==> !MentionsSelf(m)
  {
    if ns != [] {
      StrippedMentionsNoSelf(ns[0]);
      AllMentionNoSelf(ns[1..]);
    }
  }

  lemma {:induction false} SegmentsMentionNoSelf(segments: seq<Segment>)
    ensures forall s :: s in StripSegments(segments) ==>
              s.ident != "Self" && forall m :: m in s.args ==> !MentionsSelf(m)
  {
    if segments != [] {
      AllMentionNoSelf(segments[0].args);
      SegmentsMentionNoSelf(segments[1..]);
    }
  }

  lemma {:induction false} StripsEach(ns: seq<Node>)
    ensures |StripAll(ns)| == |ns| && forall i :: 0 <= i < |ns| ==> StripAll(ns)[i] == StripSelf(ns[i])
  {
    if ns != [] {
      StripsEach(ns[1..]);
      forall i | 0 <= i < |ns| ensures StripAll(ns)[i] == StripSelf(ns[i]) {
        if i > 0 { assert ns[i] == ns[1..][i - 1]; }
      }
    }
  }

  function NotSelf(): Segment -> bool {
    (s: Segment) => s.ident != "Self"
  }

  /** Of a path nothing goes but the segments named `Self`; the others keep their names, their order
      and their arguments, each stripped in turn. */
  lemma {:induction false} StripsOnlySelf(segments: seq<Segment>)
    ensures var kept := Filtered(segments, NotSelf());
            && |StripSegments(segments)| == |kept|
            && forall i :: 0 <= i < |kept| ==>
                 var (s, t) := (kept[i], StripSegments(segments)[i]);
                 && t.ident == s.ident && |t.args| == |s.args|
                 && forall j :: 0 <= j < |s.args| ==> t.args[j] == StripSelf(s.args[j])
  {
    if segments != [] {
      var (kept, rest) := (Filtered(segments, NotSelf()), Filtered(segments[1..], NotSelf()));
      FilteredFromHead(segments, NotSelf());
      StripsOnlySelf(segments[1..]);
      StripsEach(segments[0].args);
      if segments[0].ident == "Self" {
        assert kept == rest;
      } else {
        assert forall i :: 0 < i < |kept| ==> kept[i] == rest[i - 1];
      }
    }
  }

  /** What does not mention `Self` is left as it is. */
  lemma {:induction false} StripKeeps(n: Node)
    requires !MentionsSelf(n)
    ensures StripSelf(n) == n
  {
    match n
    case PathNode(path) => SegmentsKept(path.segments);
    case Other(parts) => AllKept(parts);
  }

  lemma {:induction false} AllKept(ns: seq<Node>)
    requires forall m :: m in ns ==> !MentionsSelf(m)
    ensures StripAll(ns) == ns
  {
    if ns != [] {
      StripKeeps(ns[0]);
      AllKept(ns[1..]);
    }
  }

  lemma {:induction false} SegmentsKept(segments: seq<Segment>)
    requires forall s :: s in segments ==> s.ident != "Self" && forall m :: m in s.args ==> !MentionsSelf(m)
    ensures StripSegments(segments) == segments
  {
    if segments != [] {
      AllKept(segments[0].args);
      SegmentsKept(segments[1..]);
    }
  }

  /** Every `Self` in the tree is written without arguments, as rustc requires. */
  ghost predicate BareSelf(n: Node) {
    match n
    case PathNode(path) =>
      forall s :: s in path.segments ==> (s.ident == "Self" ==> s.args == []) && forall m :: m in s.args ==> BareSelf(m)
    case Other(parts) => forall m :: m in parts ==> BareSelf(m)
  }

  /** Stripping loses no generic. */
  lemma {:induction false} StripKeepsGenerics(n: Node, g: Generic)
    requires BareSelf(n) && (g.TypeParam? ==> g.ident != "Self") && Occurs(Alone(g), n)
    ensures Occurs(Alone(g), StripSelf(n))
  {
    match n
    case PathNode(path) =>
      if g.GetPath() == Some(path) {
        assert StripSegments(path.segments[1..]) == [] && StripAll(path.segments[0].args) == [];
        assert StripSegments(path.segments) == path.segments;
      } else {
        var s :| s in path.segments && OccursInSegment(Alone(g), s);
        SegmentKeepsGenerics(path.segments, s, g);
      }
    case Other(parts) =>
      var m :| m in parts && Occurs(Alone(g), m);
      StripKeepsGenerics(m, g);
      NodeKept(parts, m);
  }

  lemma {:induction false} NodeKept(ns: seq<Node>, n: Node)
    requires n in ns
    ensures StripSelf(n) in StripAll(ns)
  {
    StripsEach(ns);
    var i :| 0 <= i < |ns| && ns[i] == n;
    assert StripAll(ns)[i] == StripSelf(n);
  }

  lemma {:induction false} SegmentKeepsGenerics(segments: seq<Segment>, s: Segment, g: Generic)
    requires s in segments && OccursInSegment(Alone(g), s)
    requires BareSelf(PathNode(Path(segments))) && (g.TypeParam? ==> g.ident != "Self")
    ensures exists t :: t in StripSegments(segments) && OccursInSegment(Alone(g), t)
  {
    if segments[0] == s {
      var m :| m in s.args && Occurs(Alone(g), m);
      StripKeepsGenerics(m, g);
      NodeKept(s.args, m);
      assert Segment(s.ident, StripAll(s.args)) in StripSegments(segments);
    } else {
      SegmentKeepsGenerics(segments[1..], s, g);
      var t :| t in StripSegments(segments[1..]) && OccursInSegment(Alone(g), t);
      assert t in StripSegments(segments);
    }
  }

  /* ---- a message enum ---- */

  datatype MsgType = Exec | Query | Instantiate | Migrate | Reply | Sudo

  /** A message method: the types of its parameters, the response named in its attribute if any, and
      the path inside its returned `Result`. */
  datatype Signature = Signature(msgType: MsgType, fields: seq<Node>, resp: Option<string>, output: Path)

  /** The stored response type of a query: the named one, or what the returned `Result` holds. */
  function Response(sig: Signature): Node {
    PathNode(if sig.resp.Some? then Path([Segment(sig.resp.value, [])]) else sig.output)
  }

  /** The trees visited for a method: its stripped field types, and for a query its response,
      which is stripped first unless it was named. */
  function Visited(sig: Signature): seq<Node> {
    StripAll(sig.fields) +
    (if sig.msgType != Query then []
     else if sig.resp.Some? then [Response(sig)]
     else [StripSelf(Response(sig))])
  }

  /** The trees emitted for a method: its stripped field types, and for a query the `returns`
      attribute, whose type is always stripped. */
  ghost function Emitted(sig: Signature): seq<Node> {
    StripAll(sig.fields) + (if sig.msgType == Query then [StripSelf(Response(sig))] else [])
  }

  /** What is visited is what is emitted, except for a response named `Self`. */
  lemma {:induction false} EmittedIsVisited(sig: Signature)
    ensures Emitted(sig) == Visited(sig) <==> !(sig.msgType == Query && sig.resp == Some("Self"))
  {
    if sig.msgType == Query && sig.resp.Some? {
      var segments := [Segment(sig.resp.value, [])];
      assert StripAll(segments[0].args) == [];
      assert StripSegments(segments[1..]) == [];
      assert Emitted(sig)[|sig.fields|..] == [StripSelf(Response(sig))] by { StripAllLength(sig.fields); }
      assert Visited(sig)[|sig.fields|..] == [Response(sig)] by { StripAllLength(sig.fields); }
      if sig.resp.value == "Self" {
        assert StripSelf(Response(sig)) == PathNode(Path([]));
      } else {
        assert StripSegments(segments) == segments;
      }
    }
  }

  lemma {:induction false} StripAllLength(ns: seq<Node>)
    ensures |StripAll(ns)| == |ns|
  {
    if ns != [] { StripAllLength(ns[1..]); }
  }

  /** In either case the same generics occur in both. */
  lemma {:induction false} EmittedUses(sig: Signature, g: Generic)
    requires g.TypeParam? ==> g.ident != "Self"
    ensures Uses(Emitted(sig), g) <==> Uses(Visited(sig), g)
  {
    EmittedIsVisited(sig);
    if sig.msgType == Query && sig.resp == Some("Self") {
      var fields := StripAll(sig.fields);
      var named := [Segment("Self", [])];
      assert StripSegments(named[1..]) == [];
      assert StripSelf(Response(sig)) == PathNode(Path([]));
      UsesAppend(fields, [Response(sig)], g);
      UsesAppend(fields, [PathNode(Path([]))], g);
      UsesOnePath(Path(named), g);
      UsesOnePath(Path([]), g);
    }
  }

  lemma {:induction false} EmittedMentionsNoSelf(sig: Signature)
    ensures forall n :: n in Emitted(sig) ==> !MentionsSelf(n)
  {
    AllMentionNoSelf(sig.fields);
    StrippedMentionsNoSelf(Response(sig));
  }

  ghost function AllEmitted(sigs: seq<Signature>): seq<Node> {
    if sigs == [] then [] else AllEmitted(sigs[..|sigs| - 1]) + Emitted(sigs[|sigs| - 1])
  }

  /** The generics that occur in the predicate as whole paths are used ones. */
  ghost function MentionsOnly(generics: seq<Generic>, used: seq<Generic>): Node -> bool {
    p => forall g :: g in generics && Uses([p], g) ==> g in used
  }

  /** A where-predicate is kept when a fresh visit of it records only used generics. */
  method FilterWheres(predicates: seq<Node>, generics: seq<Generic>, used: seq<Generic>) returns (kept: seq<Node>)
    ensures NamesDistinct(generics) ==> kept == Filtered(predicates, MentionsOnly(generics, used))
  {
    kept := [];
    for i := 0 to |predicates|
      invariant NamesDistinct(generics) ==> kept == Filtered(predicates[..i], MentionsOnly(generics, used))
    {
      var checker := new CheckGenerics(generics);
      checker.Visit(predicates[i]);
      if forall g :: g in checker.used ==> g in used {
        kept := kept + [predicates[i]];
      }
      assert predicates[..i + 1][..i] == predicates[..i];
    }
    assert predicates[..|predicates|] == predicates;
  }

  /** The variants of one message type, with the generics its enum declares. */
  datatype MsgVariants = MsgVariants(
    variants: seq<Signature>, used: seq<Generic>, unused: seq<Generic>, wheres: seq<Node>)

  function OfType(msgType: MsgType): Signature -> bool {
    (sig: Signature) => sig.msgType == msgType
  }

  /** Every method of the message type, as often as it is there, in order, and no other. */
  ghost predicate AllOfType(sigs: seq<Signature>, msgType: MsgType, variants: seq<Signature>) {
    && Subsequence(variants, sigs)
    && forall sig :: multiset(variants)[sig] == if sig.msgType == msgType then multiset(sigs)[sig] else 0
  }

  lemma {:induction false} FilteredOfType(sigs: seq<Signature>, msgType: MsgType)
    ensures AllOfType(sigs, msgType, Filtered(sigs, OfType(msgType)))
  {
    FilteredMeaning(sigs, OfType(msgType));
  }

  /** The emitted enum is closed in what occurs as a whole path: a generic is declared exactly when
      it occurs so in an emitted type, once; the rest are reported unused, in order; and of the
      predicates exactly those in which only declared generics occur so are kept, in order. */
  ghost predicate Closed(generics: seq<Generic>, predicates: seq<Node>, v: MsgVariants) {
    && Distinct(v.used)
    && (forall g :: g in v.used <==> g in generics && Uses(AllEmitted(v.variants), g))
    && (forall g :: g in v.unused <==> g in generics && g !in v.used)
    && Subsequence(v.unused, generics)
    && (Distinct(generics) ==> multiset(v.used) + multiset(v.unused) == multiset(generics))
    && v.wheres == Filtered(predicates, MentionsOnly(generics, v.used))
  }

  method NewMsgVariants(sigs: seq<Signature>, msgType: MsgType, generics: seq<Generic>, predicates: seq<Node>)
    returns (v: MsgVariants)
    ensures v.variants == Filtered(sigs, OfType(msgType)) && AllOfType(sigs, msgType, v.variants)
    ensures forall n :: n in AllEmitted(v.variants) ==> !MentionsSelf(n)
    ensures NamesDistinct(generics) && NoneNamedSelf(generics) ==>
              Closed(generics, predicates, v) && DeclaresWritten(generics, v)
  {
    var checker := new CheckGenerics(generics);
    var variants := [];
    for i := 0 to |sigs|
      invariant checker.generics == generics && fresh(checker)
      invariant variants == Filtered(sigs[..i], OfType(msgType))
      invariant Distinct(checker.used)
      invariant forall n :: n in AllEmitted(variants) ==> !MentionsSelf(n)
      invariant NamesDistinct(generics) && NoneNamedSelf(generics) ==>
                  forall g :: g in checker.used <==> g in generics && Uses(AllEmitted(variants), g)
    {
      var sig := sigs[i];
      if sig.msgType == msgType {
        checker.VisitAll(Visited(sig));
        EmittedMentionsNoSelf(sig);
        forall g { UsesAppend(AllEmitted(variants), Emitted(sig), g); }
        if NoneNamedSelf(generics) {
          forall g | g in generics { EmittedUses(sig, g); }
        }
        assert (variants + [sig])[..|variants|] == variants;
        variants := variants + [sig];
      }
      assert sigs[..i + 1][..i] == sigs[..i];
    }
    assert sigs[..|sigs|] == sigs;
    FilteredOfType(sigs, msgType);
    var used, unused := checker.UsedUnused();
    var wheres := FilterWheres(predicates, generics, used);
    v := MsgVariants(variants, used, unused, wheres);
    if NamesDistinct(generics) && NoneNamedSelf(generics) { ClosedDeclaresWritten(generics, predicates, v); }
  }

  lemma {:induction false} UsesAppend(a: seq<Node>, b: seq<Node>, g: Generic)
    ensures Uses(a + b, g) <==> Uses(a, g) || Uses(b, g)
  {
    assert forall n :: n in a || n in b ==> n in a + b;
  }

  /** The types a method is written with: those of its parameters, and for a query its response. */
  ghost function Written(sig: Signature): seq<Node> {
    sig.fields + if sig.msgType == Query then [Response(sig)] else []
  }

  ghost predicate AllBare(sig: Signature) {
    forall n :: n in Written(sig) ==> BareSelf(n)
  }

  /** A generic the method is written with occurs in what is emitted for it. */
  lemma {:induction false} WrittenIsEmitted(sig: Signature, g: Generic)
    requires AllBare(sig) && (g.TypeParam? ==> g.ident != "Self")
    requires Uses(Written(sig), g)
    ensures Uses(Emitted(sig), g)
  {
    var n :| n in Written(sig) && Occurs(Alone(g), n);
    StripKeepsGenerics(n, g);
    if n in sig.fields { NodeKept(sig.fields, n); }
    assert StripSelf(n) in Emitted(sig);
  }

  lemma {:induction false} EmittedForEach(sigs: seq<Signature>, sig: Signature, g: Generic)
    requires sig in sigs && Uses(Emitted(sig), g)
    ensures Uses(AllEmitted(sigs), g)
  {
    var (init, last) := (sigs[..|sigs| - 1], sigs[|sigs| - 1]);
    assert sigs == init + [last];
    UsesAppend(AllEmitted(init), Emitted(last), g);
    if sig != last { EmittedForEach(init, sig, g); }
  }

  /** Every generic that a method of the enum is written with is declared. */
  ghost predicate DeclaresWritten(generics: seq<Generic>, v: MsgVariants) {
    forall sig, g :: sig in v.variants && AllBare(sig) && g in generics && Uses(Written(sig), g) ==> g in v.used
  }

  lemma {:induction false} ClosedDeclaresWritten(generics: seq<Generic>, predicates: seq<Node>, v: MsgVariants)
    requires NoneNamedSelf(generics) && Closed(generics, predicates, v)
    ensures DeclaresWritten(generics, v)
  {
    forall sig, g | sig in v.variants && AllBare(sig) && g in generics && Uses(Written(sig), g)
      ensures g in v.used
    {
      WrittenIsEmitted(sig, g);
      EmittedForEach(v.variants, sig, g);
    }
  }

  /* ---- what the declarations miss ---- */

  ghost predicate Mentioned(q: Path -> bool, v: MsgVariants) {
    OccursIn(q, AllEmitted(v.variants)) || OccursIn(q, v.wheres)
  }

  /** No path of an emitted type or a kept predicate begins with an undeclared parameter. */
  ghost predicate AllDeclared(generics: seq<Generic>, v: MsgVariants) {
    forall g :: g in generics && Mentioned(StartsWith(g), v) ==> g in v.used
  }

  /** A closed enum declares all it mentions exactly when every parameter that begins a longer path
      also occurs alone in an emitted type. */
  lemma {:induction false} AllDeclaredIff(generics: seq<Generic>, predicates: seq<Node>, v: MsgVariants)
    requires Closed(generics, predicates, v)
    ensures AllDeclared(generics, v) <==>
              forall g :: g in generics && Mentioned(Longer(g), v) ==> Uses(AllEmitted(v.variants), g)
  {
    FilteredMeaning(predicates, MentionsOnly(generics, v.used));
    forall g | g in generics
      ensures Mentioned(StartsWith(g), v) <==> g in v.used || Mentioned(Longer(g), v)
    {
      StartsInAloneOrLonger(g, AllEmitted(v.variants));
      StartsInAloneOrLonger(g, v.wheres);
      if OccursIn(Alone(g), v.wheres) {
        var p :| p in v.wheres && Occurs(Alone(g), p);
        assert p in [p];
        assert MentionsOnly(generics, v.used)(p) && Uses([p], g);
      }
    }
  }

  ghost function Named(ident: string): Node {
    PathNode(Path([Segment(ident, [])]))
  }

  ghost const T := TypeParam("T", "")
  ghost const T_ITEM := PathNode(Path([Segment("T", []), Segment("Item", [])]))

  lemma {:induction false} OnlyInLongerPath()
    ensures Occurs(StartsWith(T), T_ITEM) && !Occurs(Alone(T), T_ITEM)
    ensures Occurs(Alone(T), Named("T"))
    ensures forall ident :: ident != "T" ==> !Occurs(Alone(T), Named(ident))
  {
  }

  /** The only variant, with one field in which `T` does not occur alone. */
  lemma {:induction false} NothingDeclared(field: Node, predicates: seq<Node>, v: MsgVariants)
    requires StripSelf(field) == field && !Occurs(Alone(T), field)
    requires v.variants == [Signature(Exec, [field], None, Path([]))] && Closed([T], predicates, v)
    ensures AllEmitted(v.variants) == [field] && v.used == []
  {
    var sig := v.variants[0];
    assert v.variants[..0] == [];
    assert StripAll(sig.fields) == [field];
    assert AllEmitted(v.variants) == [field];
    assert !Uses([field], T);
    assert forall g :: g !in v.used;
  }

  /** With `where T: Tr, T::Item: Bound` and a message that does not name `T`, the second predicate
      is kept although `T` is not declared. */
  lemma {:induction false} UndeclaredInKeptPredicate(v: MsgVariants)
    ensures var predicates := [Other([Named("T"), Named("Tr")]), Other([T_ITEM, Named("Bound")])];
            v.variants == [Signature(Exec, [Named("u64")], None, Path([]))] && Closed([T], predicates, v) ==>
              v.used == [] && v.wheres == [predicates[1]] && Occurs(StartsWith(T), v.wheres[0])
  {
    var (p, q) := (Other([Named("T"), Named("Tr")]), Other([T_ITEM, Named("Bound")]));
    OnlyInLongerPath();
    if v.variants == [Signature(Exec, [Named("u64")], None, Path([]))] && Closed([T], [p, q], v) {
      NothingDeclared(Named("u64"), [p, q], v);
      var keep := MentionsOnly([T], v.used);
      assert !keep(p) by {
        assert Named("T") in p.parts && p in [p];
        assert T in [T] && Uses([p], T);
      }
      assert keep(q) by {
        assert forall m :: m in q.parts ==> m == T_ITEM || m == Named("Bound");
        assert !Uses([q], T);
      }
      assert [p, q][..1] == [p] && [p][..0] == [];
      assert Filtered([p], keep) == [];
      assert T_ITEM in q.parts;
    }
  }

  /** A field of type `T::Item` alone is emitted without `T` being declared. */
  lemma {:induction false} UndeclaredInField(v: MsgVariants)
    ensures v.variants == [Signature(Exec, [T_ITEM], None, Path([]))] && Closed([T], [], v) ==>
              v.used == [] && AllEmitted(v.variants) == [T_ITEM] && Occurs(StartsWith(T), T_ITEM)
  {
    OnlyInLongerPath();
    if v.variants == [Signature(Exec, [T_ITEM], None, Path([]))] && Closed([T], [], v) {
      assert StripSegments(T_ITEM.path.segments[1..]) == T_ITEM.path.segments[1..];
      assert StripSelf(T_ITEM) == T_ITEM;
      NothingDeclared(T_ITEM, [], v);
    }
  }
}
