/** The lint against unwrap, expect and panic in production code (xtask/src/runtime_crash_lints.rs). */
module CrashLint {

  // ----- cfg predicates -----

  /** A parsed attribute argument; a list whose tokens do not parse has no items. */
  datatype Meta =
    | Path(path: seq<string>)
    | NameValue(path: seq<string>, value: string)
    | List(path: seq<string>, items: seq<Meta>)

  const TEST := ["test"]
  const ALL := ["all"]
  const ANY := ["any"]
  const NOT := ["not"]
  const CFG := ["cfg"]

  /** The configuration of a build: the names that are set and the name-value pairs. */
  datatype Config = Config(names: set<seq<string>>, pairs: set<(seq<string>, string)>)

  predicate MetaRequiresTest(m: Meta) {
    match m
    case Path(path) => path == TEST
    case NameValue(_, _) => false
    case List(path, items) =>
      if path == ALL then exists i :: 0 <= i < |items| && MetaRequiresTest(items[i])
      else if path == ANY || path == CFG then items != [] && forall i :: 0 <= i < |items| ==> MetaRequiresTest(items[i])
      else false
  }

  /** The predicates the compiler accepts. */
  predicate WellFormed(m: Meta) {
    match m
    case Path(_) => true
    case NameValue(_, _) => true
    case List(path, items) =>
      && (path == ALL || path == ANY || (path == NOT && |items| == 1))
      && forall i :: 0 <= i < |items| ==> WellFormed(items[i])
  }

  /** What the compiler takes a predicate to mean. */
  predicate Holds(m: Meta, cfg: Config) {
    match m
    case Path(path) => path in cfg.names
    case NameValue(path, value) => (path, value) in cfg.pairs
    case List(path, items) =>
      if path == ALL then forall i :: 0 <= i < |items| ==> Holds(items[i], cfg)
      else if path == ANY then exists i :: 0 <= i < |items| && Holds(items[i], cfg)
      else path == NOT && |items| == 1 && !Holds(items[0], cfg)
  }

  predicate TestOff(cfg: Config) { TEST !in cfg.names }

  ghost predicate OnlyUnderTest(m: Meta) { forall cfg :: Holds(m, cfg) ==> !TestOff(cfg) }

  /** A predicate the lint calls test-only holds in test builds only. */
  lemma {:induction false} RequiresTestSound(m: Meta, cfg: Config)
    requires WellFormed(m) && MetaRequiresTest(m) && Holds(m, cfg)
    ensures !TestOff(cfg)
    decreases m
  {
    if m.List? {
      if m.path == ALL {
        var i :| 0 <= i < |m.items| && MetaRequiresTest(m.items[i]);
        RequiresTestSound(m.items[i], cfg);
      } else {
        var i :| 0 <= i < |m.items| && Holds(m.items[i], cfg);
        RequiresTestSound(m.items[i], cfg);
      }
    }
  }

  /** A configuration option a predicate asks about. */
  datatype CfgOption = Named(path: seq<string>) | Paired(path: seq<string>, value: string)

  predicate Set(o: CfgOption, cfg: Config) {
    match o
    case Named(path) => path in cfg.names
    case Paired(path, value) => (path, value) in cfg.pairs
  }

  /** The options a predicate asks to be set, or, if not `wanted`, to be unset; `sign` is false below an odd number of
      negations. */
  function Asked(m: Meta, sign: bool, wanted: bool): set<CfgOption> {
    match m
    case Path(path) => if sign == wanted then {Named(path)} else {}
    case NameValue(path, value) => if sign == wanted then {Paired(path, value)} else {}
    case List(path, items) =>
      var inner := sign != (path == NOT);
      set i, o | 0 <= i < |items| && o in Asked(items[i], inner, wanted) :: o
  }

  /** No list is false, or true below a negation, for being empty. */
  predicate NoneEmpty(m: Meta, sign: bool) {
    m.List? ==>
      && (m.path == (if sign then ANY else ALL) ==> m.items != [])
      && forall i :: 0 <= i < |m.items| ==> NoneEmpty(m.items[i], sign != (m.path == NOT))
  }

  predicate TestFree(m: Meta) {
    match m
    case Path(path) => path != TEST
    case NameValue(_, _) => true
    case List(_, items) => forall i :: 0 <= i < |items| ==> TestFree(items[i])
  }

  predicate TestNotNegated(m: Meta) {
    m.List? ==>
      forall i :: 0 <= i < |m.items| ==> if m.path == NOT then TestFree(m.items[i]) else TestNotNegated(m.items[i])
  }

  /** Predicates that leave `test` out of negations, hold no empty choice and ask of no option both that it be set and
      that it be unset. */
  predicate Plain(m: Meta) {
    WellFormed(m) && TestNotNegated(m) && NoneEmpty(m, true) && Asked(m, true, true) !! Asked(m, true, false)
  }

  /** A configuration gives a predicate what it asks for, except `test`. */
  predicate Meets(m: Meta, sign: bool, cfg: Config) {
    && (forall o :: o in Asked(m, sign, true) && o != Named(TEST) ==> Set(o, cfg))
    && (forall o :: o in Asked(m, sign, false) ==> !Set(o, cfg))
  }

  lemma MeetsItem(m: Meta, sign: bool, cfg: Config, i: nat)
    requires m.List? && i < |m.items| && Meets(m, sign, cfg)
    ensures Meets(m.items[i], sign != (m.path == NOT), cfg)
  {
    var item, inner := m.items[i], sign != (m.path == NOT);
    forall o | o in Asked(item, inner, true) ensures o in Asked(m, sign, true) { }
    forall o | o in Asked(item, inner, false) ensures o in Asked(m, sign, false) { }
  }

  lemma {:induction false} HoldsAsAsked(m: Meta, sign: bool, cfg: Config)
    requires WellFormed(m) && TestFree(m) && NoneEmpty(m, sign) && Meets(m, sign, cfg)
    ensures Holds(m, cfg) == sign
    decreases m
  {
    match m
    case Path(path) => assert Named(path) in Asked(m, sign, sign);
    case NameValue(path, value) => assert Paired(path, value) in Asked(m, sign, sign);
    case List(path, items) =>
      var inner := sign != (path == NOT);
      forall i | 0 <= i < |items| ensures Holds(items[i], cfg) == inner {
        MeetsItem(m, sign, cfg, i);
        HoldsAsAsked(items[i], inner, cfg);
      }
      if path != NOT && items != [] { assert Holds(items[0], cfg) == inner; }
  }

  lemma {:induction false} HoldsWithoutTest(m: Meta, cfg: Config)
    requires WellFormed(m) && TestNotNegated(m) && NoneEmpty(m, true) && !MetaRequiresTest(m) && Meets(m, true, cfg)
    ensures Holds(m, cfg)
    decreases m
  {
    match m
    case Path(path) => assert Named(path) in Asked(m, true, true);
    case NameValue(path, value) => assert Paired(path, value) in Asked(m, true, true);
    case List(path, items) =>
      if path == NOT {
        MeetsItem(m, true, cfg, 0);
        HoldsAsAsked(items[0], false, cfg);
      } else {
        forall i | 0 <= i < |items| && !MetaRequiresTest(items[i]) ensures Holds(items[i], cfg) {
          MeetsItem(m, true, cfg, i);
          HoldsWithoutTest(items[i], cfg);
        }
        if path == ANY {
          var i :| 0 <= i < |items| && !MetaRequiresTest(items[i]);
          assert Holds(items[i], cfg);
        }
      }
  }

  /** What a predicate asks to be set, without `test`. */
  function Wished(m: Meta): Config {
    var options := Asked(m, true, true);
    Config(set o | o in options && o.Named? && o.path != TEST :: o.path,
           set o | o in options && o.Paired? :: (o.path, o.value))
  }

  lemma WishedMeets(m: Meta)
    requires Asked(m, true, true) !! Asked(m, true, false)
    ensures Meets(m, true, Wished(m)) && TestOff(Wished(m))
  {
    var cfg := Wished(m);
    forall o | Set(o, cfg) ensures o in Asked(m, true, true) {
      if o.Named? {
        var p :| p in Asked(m, true, true) && p.Named? && p.path != TEST && p.path == o.path;
        assert p == o;
      } else {
        var p :| p in Asked(m, true, true) && p.Paired? && (p.path, p.value) == (o.path, o.value);
        assert p == o;
      }
    }
  }

  /** For plain predicates the lint's answer is exact. */
  lemma RequiresTestExact(m: Meta)
    requires Plain(m)
    ensures MetaRequiresTest(m) <==> OnlyUnderTest(m)
  {
    if MetaRequiresTest(m) {
      forall cfg | Holds(m, cfg) ensures !TestOff(cfg) { RequiresTestSound(m, cfg); }
    } else {
      WishedMeets(m);
      HoldsWithoutTest(m, Wished(m));
    }
  }

  /** With `test` in a negation it is only safe: a double negation is missed. */
  lemma NegationIsMissed()
    ensures var m := List(NOT, [List(NOT, [Path(TEST)])]);
            WellFormed(m) && OnlyUnderTest(m) && !MetaRequiresTest(m)
  {
    var inner := List(NOT, [Path(TEST)]);
    var m := List(NOT, [inner]);
    forall cfg | Holds(m, cfg) ensures !TestOff(cfg) {
      assert Holds(inner, cfg) <==> !Holds(Path(TEST), cfg);
    }
  }

  // ----- attributes -----

  /** An attribute: its path and, when it has a parsed argument list, the list. */
  datatype Attr = Attr(path: seq<string>, items: seq<Meta>)

  predicate IsTestPath(path: seq<string>) { path != [] && path[|path| - 1] == "test" }

  predicate IsTestOnlyAttr(a: Attr) {
    || IsTestPath(a.path)
    || (a.path == CFG && a.items != [] && forall i :: 0 <= i < |a.items| ==> MetaRequiresTest(a.items[i]))
  }

  predicate IsTestOnly(attrs: seq<Attr>) { exists i :: 0 <= i < |attrs| && IsTestOnlyAttr(attrs[i]) }

  predicate AttrOk(a: Attr) { a.path == CFG ==> |a.items| == 1 && WellFormed(a.items[0]) }

  /** Whether a build compiles what carries the attribute; `test` and paths ending in it mark test functions. */
  predicate Admits(a: Attr, cfg: Config) {
    && (IsTestPath(a.path) ==> !TestOff(cfg))
    && (a.path == CFG ==> |a.items| == 1 && Holds(a.items[0], cfg))
  }

  lemma TestOnlyIsNotAdmitted(a: Attr, cfg: Config)
    requires AttrOk(a) && IsTestOnlyAttr(a) && TestOff(cfg)
    ensures !Admits(a, cfg)
  {
    if !IsTestPath(a.path) && Holds(a.items[0], cfg) { RequiresTestSound(a.items[0], cfg); }
  }

  /** For attributes with plain predicates the answer is exact: test-only is what marks a test function or is compiled
      in test builds only. */
  lemma TestOnlyIsExact(a: Attr)
    requires AttrOk(a) && (a.path == CFG ==> Plain(a.items[0]))
    ensures IsTestOnlyAttr(a) <==>
              (a.path != [] && a.path[|a.path| - 1] == "test") || forall cfg :: Admits(a, cfg) ==> !TestOff(cfg)
  {
    if a.path == CFG {
      RequiresTestExact(a.items[0]);
      assert CFG[0] != "test";
      if OnlyUnderTest(a.items[0]) {
        forall cfg | Admits(a, cfg) ensures !TestOff(cfg) { assert Holds(a.items[0], cfg); }
      } else {
        var cfg :| Holds(a.items[0], cfg) && TestOff(cfg);
        assert Admits(a, cfg);
      }
    } else if !IsTestPath(a.path) {
      var none := Config({}, {});
      assert Admits(a, none) && TestOff(none);
    }
  }

  // ----- programs -----

  datatype Kind = Unwrap | Expect | Panic

  datatype Violation = Violation(file: string, line: nat, column: nat, kind: Kind)

  datatype Span = Span(line: nat, column: nat)

  /** A syntax tree as the visitor sees it. Guarded items are impls, traits, modules, item macros, trait functions,
      constants and statics. Of a function only the body is visited. Macro arguments hold no nodes. */
  datatype Node =
    | Guarded(attrs: seq<Attr>, children: seq<Node>)
    | Function(attrs: seq<Attr>, signature: seq<Node>, body: seq<Node>)
    | MethodCall(name: string, span: Span, children: seq<Node>)
    | MacroCall(path: seq<string>, span: Span)
    | Other(attrs: seq<Attr>, children: seq<Node>)

  function KindOfMethod(name: string): seq<Kind> {
    if name == "unwrap" then [Unwrap] else if name == "expect" then [Expect] else []
  }

  function KindOfMacro(path: seq<string>): seq<Kind> { if path == ["panic"] then [Panic] else [] }

  function At(file: string, span: Span, kinds: seq<Kind>): (r: seq<Violation>) {
    seq(|kinds|, i requires 0 <= i < |kinds| => Violation(file, span.line, span.column + 1, kinds[i]))
  }

  /** What a visit records, in order. */
  function Recorded(file: string, n: Node): seq<Violation>
    decreases n
  {
    match n
    case Guarded(attrs, children) => if IsTestOnly(attrs) then [] else RecordedAll(file, children)
    case Function(attrs, _, body) => if IsTestOnly(attrs) then [] else RecordedAll(file, body)
    case MethodCall(name, span, children) => At(file, span, KindOfMethod(name)) + RecordedAll(file, children)
    case MacroCall(path, span) => At(file, span, KindOfMacro(path))
    case Other(_, children) => RecordedAll(file, children)
  }

  function RecordedAll(file: string, ns: seq<Node>): seq<Violation>
    decreases ns
  {
    if ns == [] then [] else Recorded(file, ns[0]) + RecordedAll(file, ns[1..])
  }

  // ----- what is recorded, by the nodes of the tree -----

  /** A node that may crash: a call of `unwrap` or `expect`, or a use of `panic!`. */
  predicate Crashes(n: Node, kind: Kind) {
    || (kind == Unwrap && n.MethodCall? && n.name == "unwrap")
    || (kind == Expect && n.MethodCall? && n.name == "expect")
    || (kind == Panic && n.MacroCall? && n.path == ["panic"])
  }

  function SpanOf(n: Node): Span
    requires n.MethodCall? || n.MacroCall?
  {
    n.span
  }

  /** The node is the tree, or lies in it outside signatures and test-only items. */
  ghost predicate Visited(root: Node, n: Node)
    decreases root
  {
    || root == n
    || match root
       case Guarded(attrs, children) => !IsTestOnly(attrs) && VisitedIn(children, n)
       case Function(attrs, _, body) => !IsTestOnly(attrs) && VisitedIn(body, n)
       case MethodCall(_, _, children) => VisitedIn(children, n)
       case MacroCall(_, _) => false
       case Other(_, children) => VisitedIn(children, n)
  }

  ghost predicate VisitedIn(roots: seq<Node>, n: Node)
    decreases roots
  {
    exists i :: 0 <= i < |roots| && Visited(roots[i], n)
  }

  ghost predicate Reports(file: string, n: Node, v: Violation) {
    && Crashes(n, v.kind)
    && v.file == file && v.line == SpanOf(n).line && v.column == SpanOf(n).column + 1
  }

  /** A visited node of the tree is what the violation says. */
  ghost predicate Reported(file: string, root: Node, v: Violation) {
    exists n :: Visited(root, n) && Reports(file, n, v)
  }

  ghost predicate ReportedIn(file: string, roots: seq<Node>, v: Violation) {
    exists n :: VisitedIn(roots, n) && Reports(file, n, v)
  }

  lemma AtIs(file: string, n: Node, v: Violation)
    requires n.MethodCall? || n.MacroCall?
    ensures v in (if n.MethodCall? then At(file, n.span, KindOfMethod(n.name))
                  else At(file, n.span, KindOfMacro(n.path)))
       <==> Reports(file, n, v)
  {
    assert "unwrap" != "expect";
    var kinds := if n.MethodCall? then KindOfMethod(n.name) else KindOfMacro(n.path);
    if kinds != [] { assert At(file, n.span, kinds) == [Violation(file, n.span.line, n.span.column + 1, kinds[0])]; }
  }

  lemma ReportedCons(file: string, first: Node, rest: seq<Node>, v: Violation)
    ensures ReportedIn(file, [first] + rest, v) <==> Reported(file, first, v) || ReportedIn(file, rest, v)
  {
    var all := [first] + rest;
    if ReportedIn(file, all, v) {
      var n :| VisitedIn(all, n) && Reports(file, n, v);
      var i :| 0 <= i < |all| && Visited(all[i], n);
      if i > 0 { assert rest[i - 1] == all[i]; }
    }
    if Reported(file, first, v) {
      var n :| Visited(first, n) && Reports(file, n, v);
      assert Visited(all[0], n);
    }
    if ReportedIn(file, rest, v) {
      var n :| VisitedIn(rest, n) && Reports(file, n, v);
      var i :| 0 <= i < |rest| && Visited(rest[i], n);
      assert Visited(all[i + 1], n);
    }
  }

  /** What a tree reports is what its top node and the visited nodes below it report. */
  lemma ReportedSplit(file: string, root: Node, v: Violation)
    ensures Reported(file, root, v) <==>
              || Reports(file, root, v)
              || match root
                 case Guarded(attrs, children) => !IsTestOnly(attrs) && ReportedIn(file, children, v)
                 case Function(attrs, _, body) => !IsTestOnly(attrs) && ReportedIn(file, body, v)
                 case MethodCall(_, _, children) => ReportedIn(file, children, v)
                 case MacroCall(_, _) => false
                 case Other(_, children) => ReportedIn(file, children, v)
  {
    if Reports(file, root, v) { assert Visited(root, root); }
  }

  /** Recorded is exactly what the visited nodes of the tree report. */
  lemma {:induction false} RecordedIsReported(file: string, root: Node, v: Violation)
    ensures v in Recorded(file, root) <==> Reported(file, root, v)
    decreases root
  {
    ReportedSplit(file, root, v);
    match root
    case Guarded(attrs, children) => RecordedAllIsReported(file, children, v);
    case Function(attrs, _, body) => RecordedAllIsReported(file, body, v);
    case MethodCall(name, span, children) =>
      RecordedAllIsReported(file, children, v);
      AtIs(file, root, v);
    case MacroCall(path, span) => AtIs(file, root, v);
    case Other(_, children) => RecordedAllIsReported(file, children, v);
  }

  lemma {:induction false} RecordedAllIsReported(file: string, roots: seq<Node>, v: Violation)
    ensures v in RecordedAll(file, roots) <==> ReportedIn(file, roots, v)
    decreases roots
  {
    if roots != [] {
      RecordedIsReported(file, roots[0], v);
      RecordedAllIsReported(file, roots[1..], v);
      ReportedCons(file, roots[0], roots[1..], v);
      assert [roots[0]] + roots[1..] == roots;
    }
  }

  class RuntimeCrashVisitor {
    const file: string
    var violations: seq<Violation>

    constructor (file: string)
      ensures this.file == file && violations == []
    {
      this.file := file;
      violations := [];
    }

    method Record(span: Span, kind: Kind)
      modifies this
      ensures violations == old(violations) + [Violation(file, span.line, span.column + 1, kind)]
    {
      violations := violations + [Violation(file, span.line, span.column + 1, kind)];
    }

    method CheckMethod(name: string, span: Span)
      modifies this
      ensures violations == old(violations) + At(file, span, KindOfMethod(name))
    {
      if name == "unwrap" {
        Record(span, Unwrap);
      } else if name == "expect" {
        Record(span, Expect);
      }
    }

    /** Adds, in the order of the source, exactly what the visited nodes report. */
    method Visit(n: Node)
      modifies this
      ensures violations == old(violations) + Recorded(file, n)
      ensures forall v :: v in violations <==> v in old(violations) || Reported(file, n, v)
      decreases n
    {
      forall v ensures v in Recorded(file, n) <==> Reported(file, n, v) { RecordedIsReported(file, n, v); }
      match n
      case Guarded(attrs, children) =>
        if IsTestOnly(attrs) {
          return;
        }
        VisitAll(children);
      case Function(attrs, _, body) =>
        if IsTestOnly(attrs) {
          return;
        }
        VisitAll(body);
      case MethodCall(name, span, children) =>
        ghost var before, here := violations, At(file, span, KindOfMethod(name));
        CheckMethod(name, span);
        VisitAll(children);
        Reassociate(before, here, RecordedAll(file, children));
      case MacroCall(path, span) =>
        if path == ["panic"] {
          Record(span, Panic);
        }
      case Other(_, children) => VisitAll(children);
    }

    method VisitAll(ns: seq<Node>)
      modifies this
      ensures violations == old(violations) + RecordedAll(file, ns)
      decreases ns
    {
      if ns != [] {
        Visit(ns[0]);
        VisitAll(ns[1..]);
      }
    }
  }

  // ----- every site, with what encloses it -----

  /** A crash site, the attributes of the items around it, those of the other nodes around it, and whether it lies in
      the signature of a function. */
  datatype Site = Site(violation: Violation, items: seq<seq<Attr>>, others: seq<seq<Attr>>, inSignature: bool)

  function SitesAt(vs: seq<Violation>, items: seq<seq<Attr>>, others: seq<seq<Attr>>, sig: bool): (r: seq<Site>) {
    seq(|vs|, i requires 0 <= i < |vs| => Site(vs[i], items, others, sig))
  }

  /** All sites of the tree, skipping nothing. */
  function Sites(file: string, n: Node, items: seq<seq<Attr>>, others: seq<seq<Attr>>, sig: bool): seq<Site>
    decreases n
  {
    match n
    case Guarded(attrs, children) => SitesAll(file, children, items + [attrs], others, sig)
    case Function(attrs, signature, body) =>
      SitesAll(file, signature, items + [attrs], others, true) + SitesAll(file, body, items + [attrs], others, sig)
    case MethodCall(name, span, children) =>
      SitesAt(At(file, span, KindOfMethod(name)), items, others, sig) + SitesAll(file, children, items, others, sig)
    case MacroCall(path, span) => SitesAt(At(file, span, KindOfMacro(path)), items, others, sig)
    case Other(attrs, children) => SitesAll(file, children, items, others + [attrs], sig)
  }

  function SitesAll(file: string, ns: seq<Node>, items: seq<seq<Attr>>, others: seq<seq<Attr>>, sig: bool): seq<Site>
    decreases ns
  {
    if ns == [] then [] else Sites(file, ns[0], items, others, sig) + SitesAll(file, ns[1..], items, others, sig)
  }

  function FileSites(file: string, n: Node): seq<Site> { Sites(file, n, [], [], false) }

  predicate NoTestOnly(items: seq<seq<Attr>>) { forall i :: 0 <= i < |items| ==> !IsTestOnly(items[i]) }

  /** The violations of the sites that neither a test-only item nor a signature encloses. */
  function Exposed(sites: seq<Site>): seq<Violation> {
    if sites == [] then [] else ExposedOne(sites[0]) + Exposed(sites[1..])
  }

  predicate IsExposed(site: Site) { NoTestOnly(site.items) && !site.inSignature }

  function ExposedOne(site: Site): seq<Violation> { if IsExposed(site) then [site.violation] else [] }

  lemma Reassociate(a: seq<Violation>, b: seq<Violation>, c: seq<Violation>)
    ensures a + (b + c) == (a + b) + c
  {
  }

  lemma {:induction false} ExposedAppend(a: seq<Site>, b: seq<Site>)
    ensures Exposed(a + b) == Exposed(a) + Exposed(b)
    decreases |a|
  {
    if a == [] {
      assert a + b == b;
    } else {
      ExposedAppend(a[1..], b);
      assert (a + b)[1..] == a[1..] + b && (a + b)[0] == a[0];
      Reassociate(ExposedOne(a[0]), Exposed(a[1..]), Exposed(b));
    }
  }

  lemma {:induction false} ExposedAt(vs: seq<Violation>, items: seq<seq<Attr>>, others: seq<seq<Attr>>, sig: bool)
    ensures Exposed(SitesAt(vs, items, others, sig)) == if NoTestOnly(items) && !sig then vs else []
    decreases |vs|
  {
    if vs != [] {
      ExposedAt(vs[1..], items, others, sig);
      assert SitesAt(vs, items, others, sig)[1..] == SitesAt(vs[1..], items, others, sig);
    }
  }

  lemma NoTestOnlySnoc(items: seq<seq<Attr>>, attrs: seq<Attr>)
    ensures NoTestOnly(items + [attrs]) <==> NoTestOnly(items) && !IsTestOnly(attrs)
  {
    if NoTestOnly(items + [attrs]) {
      assert (items + [attrs])[|items|] == attrs;
      forall i | 0 <= i < |items| ensures !IsTestOnly(items[i]) { assert (items + [attrs])[i] == items[i]; }
    }
  }

  lemma {:induction false} ExposedIsRecorded(
    file: string, n: Node, items: seq<seq<Attr>>, others: seq<seq<Attr>>, sig: bool)
    ensures Exposed(Sites(file, n, items, others, sig)) == if NoTestOnly(items) && !sig then Recorded(file, n) else []
    decreases n
  {
    match n
    case Guarded(attrs, children) =>
      NoTestOnlySnoc(items, attrs);
      ExposedIsRecordedAll(file, children, items + [attrs], others, sig);
    case Function(attrs, signature, body) =>
      NoTestOnlySnoc(items, attrs);
      ExposedIsRecordedAll(file, signature, items + [attrs], others, true);
      ExposedIsRecordedAll(file, body, items + [attrs], others, sig);
      ExposedAppend(SitesAll(file, signature, items + [attrs], others, true),
                    SitesAll(file, body, items + [attrs], others, sig));
    case MethodCall(name, span, children) =>
      var here := At(file, span, KindOfMethod(name));
      ExposedAt(here, items, others, sig);
      ExposedIsRecordedAll(file, children, items, others, sig);
      ExposedAppend(SitesAt(here, items, others, sig), SitesAll(file, children, items, others, sig));
    case MacroCall(path, span) => ExposedAt(At(file, span, KindOfMacro(path)), items, others, sig);
    case Other(attrs, children) => ExposedIsRecordedAll(file, children, items, others + [attrs], sig);
  }

  lemma {:induction false} ExposedIsRecordedAll(
    file: string, ns: seq<Node>, items: seq<seq<Attr>>, others: seq<seq<Attr>>, sig: bool)
    ensures Exposed(SitesAll(file, ns, items, others, sig)) ==
            if NoTestOnly(items) && !sig then RecordedAll(file, ns) else []
    decreases ns
  {
    if ns != [] {
      ExposedIsRecorded(file, ns[0], items, others, sig);
      ExposedIsRecordedAll(file, ns[1..], items, others, sig);
      ExposedAppend(Sites(file, ns[0], items, others, sig), SitesAll(file, ns[1..], items, others, sig));
    }
  }

  /** A visit records exactly the sites outside signatures that no test-only item encloses, in the order of the
      source. */
  lemma RecordsExposedSites(file: string, n: Node)
    ensures Recorded(file, n) == Exposed(FileSites(file, n))
  {
    ExposedIsRecorded(file, n, [], [], false);
  }

  // ----- live code -----

  predicate AllAdmit(groups: seq<seq<Attr>>, cfg: Config) {
    forall i, j :: 0 <= i < |groups| && 0 <= j < |groups[i]| ==> Admits(groups[i][j], cfg)
  }

  predicate AttrsOk(groups: seq<seq<Attr>>) {
    forall i, j :: 0 <= i < |groups| && 0 <= j < |groups[i]| ==> AttrOk(groups[i][j])
  }

  /** A build compiles the code at a site. */
  predicate Live(site: Site, cfg: Config) { AllAdmit(site.items, cfg) && AllAdmit(site.others, cfg) }

  lemma {:induction false} ExposedHas(sites: seq<Site>, v: Violation)
    ensures v in Exposed(sites) <==> exists k :: 0 <= k < |sites| && IsExposed(sites[k]) && sites[k].violation == v
    decreases |sites|
  {
    if sites != [] {
      ExposedHas(sites[1..], v);
      assert sites == [sites[0]] + sites[1..];
      if v in Exposed(sites[1..]) {
        var k :| 0 <= k < |sites[1..]| && IsExposed(sites[1..][k]) && sites[1..][k].violation == v;
        assert IsExposed(sites[k + 1]);
      }
    }
  }

  lemma LiveIsNotTestOnly(site: Site, cfg: Config)
    requires TestOff(cfg) && AttrsOk(site.items) && Live(site, cfg)
    ensures NoTestOnly(site.items)
  {
    var items := site.items;
    forall i | 0 <= i < |items| ensures !IsTestOnly(items[i]) {
      forall j | 0 <= j < |items[i]| ensures !IsTestOnlyAttr(items[i][j]) {
        if IsTestOnlyAttr(items[i][j]) { TestOnlyIsNotAdmitted(items[i][j], cfg); }
      }
    }
  }

  /** No other site of the file is at the place of this one. */
  predicate Alone(sites: seq<Site>, k: nat)
    requires k < |sites|
  {
    forall j :: 0 <= j < |sites| && sites[j].violation == sites[k].violation ==> j == k
  }

  /** Of the crash sites that a build without `test` compiles, those in function signatures are missed and all others
      are recorded. */
  lemma LiveSitesAreRecorded(file: string, n: Node, cfg: Config, k: nat)
    requires TestOff(cfg) && k < |FileSites(file, n)|
    requires AttrsOk(FileSites(file, n)[k].items) && Live(FileSites(file, n)[k], cfg)
    ensures var sites := FileSites(file, n);
            && (!sites[k].inSignature ==> sites[k].violation in Recorded(file, n))
            && (Alone(sites, k) ==> (sites[k].violation in Recorded(file, n) <==> !sites[k].inSignature))
  {
    var sites := FileSites(file, n);
    LiveIsNotTestOnly(sites[k], cfg);
    ExposedHas(sites, sites[k].violation);
    RecordsExposedSites(file, n);
  }

  /** A crash site in a signature, such as the length of an array parameter, is compiled in every build and missed. */
  lemma SignatureSitesAreMissed()
    ensures var site := MethodCall("unwrap", Span(1, 0), []);
            var n := Function([], [site], []);
            && Recorded("f", n) == []
            && |FileSites("f", n)| == 1 && FileSites("f", n)[0].violation == Violation("f", 1, 1, Unwrap)
            && forall cfg :: Live(FileSites("f", n)[0], cfg)
  {
    var site := MethodCall("unwrap", Span(1, 0), []);
    var n := Function([], [site], []);
    var v := Violation("f", 1, 1, Unwrap);
    var none: seq<Attr> := [];
    assert At("f", Span(1, 0), KindOfMethod("unwrap")) == [v];
    assert Sites("f", site, [none], [], true) == [Site(v, [none], [], true)];
    assert SitesAll("f", [site], [none], [], true) == [Site(v, [none], [], true)];
    assert [] + [none] == [none] && SitesAll("f", [], [none], [], false) == [];
    assert FileSites("f", n) == [Site(v, [none], [], true)];
  }

  /** Attributes on statements are not looked at: test-only code below one is reported all the same. */
  lemma StatementAttributesAreIgnored()
    ensures var site := MethodCall("unwrap", Span(1, 0), []);
            var n := Function([], [], [Other([Attr(CFG, [Path(TEST)])], [site])]);
            && Recorded("f", n) == [Violation("f", 1, 1, Unwrap)]
            && |FileSites("f", n)| == 1
            && forall cfg :: TestOff(cfg) ==> !Live(FileSites("f", n)[0], cfg)
  {
    var site := MethodCall("unwrap", Span(1, 0), []);
    var attr := Attr(CFG, [Path(TEST)]);
    var stmt := Other([attr], [site]);
    var n := Function([], [], [stmt]);
    var v := Violation("f", 1, 1, Unwrap);
    assert At("f", Span(1, 0), KindOfMethod("unwrap")) == [v];
    assert Recorded("f", site) == [v];
    assert RecordedAll("f", [site]) == [v];
    assert RecordedAll("f", [stmt]) == [v];
    assert Sites("f", site, [[]], [[attr]], false) == [Site(v, [[]], [[attr]], false)];
    assert SitesAll("f", [site], [[]], [[attr]], false) == [Site(v, [[]], [[attr]], false)];
    var none: seq<Attr> := [];
    assert [] + [[attr]] == [[attr]] && [] + [none] == [none];
    assert SitesAll("f", [stmt], [[]], [], false) == [Site(v, [[]], [[attr]], false)];
    assert SitesAll("f", [], [none], [], true) == [];
    assert FileSites("f", n) == [Site(v, [[]], [[attr]], false)];
    forall cfg | TestOff(cfg) ensures !Live(Site(v, [[]], [[attr]], false), cfg) {
      assert !Admits([[attr]][0][0], cfg);
    }
  }

  // ----- the ratchet -----

  /** Entries name file, line and kind; the column is dropped. */
  datatype Entry = Entry(file: string, line: nat, kind: Kind)

  function EntryOf(v: Violation): Entry { Entry(v.file, v.line, v.kind) }

  function Entries(vs: seq<Violation>): set<Entry> { set v | v in vs :: EntryOf(v) }

  method CheckAllowlist(found: seq<Violation>, allowlist: set<Entry>)
    returns (ok: bool, violations: seq<Violation>, stale: set<Entry>)
    ensures ok <==> Entries(found) == allowlist
    ensures ok <==>
              && (forall v :: v in found ==> Entry(v.file, v.line, v.kind) in allowlist)
              && (forall e :: e in allowlist ==>
                    exists v :: v in found && v.file == e.file && v.line == e.line && v.kind == e.kind)
    ensures forall v :: v in violations <==> v in found && EntryOf(v) !in allowlist
    ensures stale == allowlist - Entries(found)
  {
    stale := allowlist - Entries(found);
    violations := [];
    for i := 0 to |found|
      invariant forall v :: v in violations <==> v in found[..i] && EntryOf(v) !in allowlist
    {
      assert found[..i + 1] == found[..i] + [found[i]];
      if EntryOf(found[i]) !in allowlist {
        violations := violations + [found[i]];
      }
    }
    assert found[..|found|] == found;
    ok := violations == [] && stale == {};
    RatchetIsExact(found, allowlist, violations, stale);
  }

  lemma RatchetIsExact(found: seq<Violation>, allowlist: set<Entry>, violations: seq<Violation>, stale: set<Entry>)
    requires forall v :: v in violations <==> v in found && EntryOf(v) !in allowlist
    requires stale == allowlist - Entries(found)
    ensures violations == [] && stale == {} <==> Entries(found) == allowlist
  {
    if violations == [] && stale == {} {
      forall v | v in found ensures EntryOf(v) in allowlist { assert v in violations <==> EntryOf(v) !in allowlist; }
      forall e | e in allowlist ensures e in Entries(found) { assert e in stale <==> e !in Entries(found); }
      assert Entries(found) == allowlist;
    } else if violations != [] {
      var v := violations[0];
      assert v in violations;
      assert EntryOf(v) in Entries(found);
    }
  }

  /** A further site of an allowed kind on an allowed line passes unseen. */
  lemma SameLineIsUnseen(found: seq<Violation>, v: Violation)
    requires EntryOf(v) in Entries(found)
    ensures Entries(found + [v]) == Entries(found)
  {
    forall e | e in Entries(found + [v]) ensures e in Entries(found) {
      var w :| w in found + [v] && EntryOf(w) == e;
      assert w in found || w == v;
    }
    forall e | e in Entries(found) ensures e in Entries(found + [v]) {
      var w :| w in found && EntryOf(w) == e;
      assert w in found + [v];
    }
  }
}
