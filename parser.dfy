/** The entry points of index.js: `_parse` with its argument normalisation,
 *  BOM stripping, pass-through of primitives, the `'ignore'` fast path and the
 *  choice of pre-screen; `parse` and `safeParse` on top of it; and `scan`,
 *  the scanner called directly with its destructuring defaults. */
module Parser {
  import opened JsValues
  import opened JsonGraph
  import opened PreScreen
  import opened Scanner

  /** How a call of `parse` ends: it returns a value or throws. */
  datatype Outcome = Value(value: JVal) | Raised(error: ErrorKind)

  /** What `safeParse` returns: a value (the `null` of a violation among
   *  them) or `undefined`. */
  datatype SafeOutcome = SafeValue(value: JVal) | SafeUndefined

  /** `JSON.parse(text, reviver)`, the engine's own decoder, with the reviver
   *  it is handed (`None` when the argument is not a function). */
  type Decoder = (string, Option<Reviver>) -> Decoded

  /** The byte order mark U+FEFF. */
  const Bom: char := '\U{FEFF}'

  /** The argument normalisation of `_parse`: with no options, an object in
   *  the reviver position is the options and there is no reviver. Answers
   *  the pair (reviver, options). */
  function NormalizeArgs(reviver: Arg, options: Arg): (Arg, Arg) {
    if IsNullish(options) && IsObjectArg(reviver) then (Undef, reviver) else (reviver, options)
  }

  /** `(options && options.f) || 'error'` for the field value `field`. */
  function ResolveAction(options: Arg, field: JsValue): JsValue {
    if ArgTruthy(options) && Truthy(field) then field else Text("error")
  }

  /** The options `_parse` hands to `filter`. For `safe: options && options.safe`
   *  a falsy `options` yields itself, which is never `true`; `Undefined`
   *  stands for it, since `filter` only asks whether `safe === true`. */
  function ResolveOptions(options: Arg): ScanOptions {
    var f := FieldsOf(options);
    ScanOptions(ResolveAction(options, f.protoAction), ResolveAction(options, f.constructorAction),
                if ArgTruthy(options) then f.safe else Undefined)
  }

  /** The text with one leading byte order mark removed. */
  function StripBom(text: string): string {
    if |text| > 0 && text[0] == Bom then text[1..] else text
  }

  /** `filter` is needed: the pre-screen of some inspected category matches. */
  predicate ScanNeeded(text: string, o: ScanOptions) {
    (Checks(o.protoAction) && SuspectProto(text)) || (Checks(o.constructorAction) && SuspectConstructor(text))
  }

  /** The tests of index.js:47-63 as written: does `_parse` go on to call
   *  `filter` for the text `t` and the actions `pa` and `ca`? */
  predicate Gate(t: string, pa: JsValue, ca: JsValue) {
    if pa == Text("ignore") && ca == Text("ignore") then false
    else if pa != Text("ignore") && ca != Text("ignore") then !(!SuspectProto(t) && !SuspectConstructor(t))
    else if pa != Text("ignore") && ca == Text("ignore") then SuspectProto(t)
    else SuspectConstructor(t)
  }

  /** The branches consult exactly the pre-screens of the inspected
   *  categories, and `'ignore'` for both never scans. */
  lemma GateIsScanNeeded(t: string, o: ScanOptions)
    ensures Gate(t, o.protoAction, o.constructorAction) <==> ScanNeeded(t, o)
    ensures !Checks(o.protoAction) && !Checks(o.constructorAction) ==> !Gate(t, o.protoAction, o.constructorAction)
    ensures !Checks(o.constructorAction) ==> (Gate(t, o.protoAction, o.constructorAction) <==> Checks(o.protoAction) && SuspectProto(t))
    ensures !Checks(o.protoAction) ==> (Gate(t, o.protoAction, o.constructorAction) <==> Checks(o.constructorAction) && SuspectConstructor(t))
  {
  }

  /** What `_parse` does with its arguments, before any object is built: it
   *  throws the decoder's SyntaxError, returns the decoded value as it is, or
   *  hands it to `filter` with the given options. */
  datatype Route = Fails | Returns(tree: JTree) | Scans(tree: JTree, o: ScanOptions)

  function RouteOf(text: string, reviver: Arg, options: Arg, decode: Decoder): Route {
    var args := NormalizeArgs(reviver, options);
    var t := StripBom(text);
    match decode(t, ReviverOf(args.0))
    case Malformed => Fails
    case Parsed(tree) =>
      if IsComposite(tree) && ScanNeeded(t, ResolveOptions(args.1)) then Scans(tree, ResolveOptions(args.1))
      else Returns(tree)
  }

  /** The normalisation never changes the function `JSON.parse` calls (an
   *  object is never a reviver), and the options in force are the options
   *  argument, or the reviver argument when there is none. */
  lemma NormalizeArgsFacts(reviver: Arg, options: Arg)
    ensures ReviverOf(NormalizeArgs(reviver, options).0) == ReviverOf(reviver)
    ensures ResolveOptions(NormalizeArgs(reviver, options).1) == ResolveOptions(if IsNullish(options) then reviver else options)
    ensures !IsNullish(options) ==> NormalizeArgs(reviver, options) == (reviver, options)
  {
  }

  /** A resolved action is always truthy; it is `'ignore'` exactly when the
   *  options are truthy and their field says `'ignore'`, and it falls back
   *  to `'error'` whenever the options or the field are falsy. */
  lemma ResolveActionFacts(options: Arg, field: JsValue)
    ensures Truthy(ResolveAction(options, field))
    ensures ResolveAction(options, field) == Text("ignore") <==> ArgTruthy(options) && field == Text("ignore")
    ensures !ArgTruthy(options) || !Truthy(field) ==> ResolveAction(options, field) == Text("error")
  {
  }

  /** With no options at all both categories are inspected and refused;
   *  `safeParse`'s options add safe mode to that. */
  lemma DefaultOptions()
    ensures ResolveOptions(Undef) == ScanOptions(Text("error"), Text("error"), Undefined)
    ensures ResolveOptions(SafeOptions) == ScanOptions(Text("error"), Text("error"), Boolean(true))
    ensures IsSafe(ResolveOptions(SafeOptions)) && !IsSafe(ResolveOptions(Undef))
  {
  }

  /** Exactly one leading byte order mark is removed; any other text is
   *  left as it is. */
  lemma StripBomFacts(s: string)
    ensures StripBom([Bom] + s) == s
    ensures (|s| == 0 || s[0] != Bom) ==> StripBom(s) == s
    ensures |StripBom(s)| >= |s| - 1
  {
  }

  /** index.js:39-41: null and every other primitive is returned as decoded,
   *  whatever the options and the text. */
  lemma PrimitivesPassThrough(text: string, reviver: Arg, options: Arg, decode: Decoder)
    ensures var d := decode(StripBom(text), ReviverOf(NormalizeArgs(reviver, options).0));
      d.Parsed? && !IsComposite(d.tree) ==> RouteOf(text, reviver, options, decode) == Returns(d.tree)
  {
  }

  /** index.js:47-63: with both actions `'ignore'` nothing is scanned; with
   *  one of them `'ignore'`, only the other category's pre-screen decides;
   *  a scan always has a matching pre-screen of an inspected category. */
  lemma ScanOnlyWhenSuspect(text: string, reviver: Arg, options: Arg, decode: Decoder)
    ensures var o := ResolveOptions(NormalizeArgs(reviver, options).1);
      !Checks(o.protoAction) && !Checks(o.constructorAction) ==> !RouteOf(text, reviver, options, decode).Scans?
    ensures var o := ResolveOptions(NormalizeArgs(reviver, options).1);
      RouteOf(text, reviver, options, decode).Scans? ==>
        RouteOf(text, reviver, options, decode).o == o &&
        ((Checks(o.protoAction) && SuspectProto(StripBom(text))) || (Checks(o.constructorAction) && SuspectConstructor(StripBom(text))))
    ensures var o := ResolveOptions(NormalizeArgs(reviver, options).1);
      var d := decode(StripBom(text), ReviverOf(NormalizeArgs(reviver, options).0));
      d.Parsed? && IsComposite(d.tree) && !Checks(o.constructorAction) ==>
        (RouteOf(text, reviver, options, decode).Scans? <==> Checks(o.protoAction) && SuspectProto(StripBom(text)))
  {
  }

  /** The heap value `v` was the tree `t` in the snapshot `m` of the
   *  nodes' properties. */
  ghost predicate DenotesIn(v: JVal, t: JTree, m: map<JNode, seq<Prop>>)
    decreases t
  {
    match t
    case TArr(items) =>
      v.JObj? && v.node in m && v.node.isArray && |m[v.node]| == |items| &&
      forall i | 0 <= i < |items| :: m[v.node][i].0 == IndexKey(i) && DenotesIn(m[v.node][i].1, items[i], m)
    case TObj(ms) =>
      v.JObj? && v.node in m && !v.node.isArray && |m[v.node]| == |ms| &&
      forall i | 0 <= i < |ms| :: m[v.node][i].0 == ms[i].0 && DenotesIn(m[v.node][i].1, ms[i].1, m)
    case _ => v == PrimitiveOf(t)
  }

  lemma {:induction false} DenotesSnapshot(v: JVal, t: JTree, g: set<JNode>, m: map<JNode, seq<Prop>>)
    requires Snapshot(g, m) && Denotes(v, t, g)
    ensures DenotesIn(v, t, m)
    decreases t
  {
    match t
    case TArr(items) =>
      forall i | 0 <= i < |items| ensures DenotesIn(m[v.node][i].1, items[i], m) {
        DenotesSnapshot(v.node.props[i].1, items[i], g, m);
      }
    case TObj(ms) =>
      forall i | 0 <= i < |ms| ensures DenotesIn(m[v.node][i].1, ms[i].1, m) {
        DenotesSnapshot(v.node.props[i].1, ms[i].1, g, m);
      }
    case _ =>
  }

  /** In a graph, the `constructor` hazard judged on the heap is the one
   *  judged on a snapshot of it. */
  lemma CleanInSnapshot(g: set<JNode>, rank: map<JNode, nat>, m: map<JNode, seq<Prop>>, n: JNode, o: ScanOptions)
    requires Graph(g, rank) && Snapshot(g, m) && n in g
    ensures Clean(n, o) == CleanFor(m[n], m, o)
    ensures ConstructorHazard(n) == HazardFor(m[n], m)
  {
    match Get(n.props, ConstructorKey)
    case Some(JObj(t)) =>
      var i :| 0 <= i < |n.props| && n.props[i] == (ConstructorKey, JObj(t));
      assert t in g;
    case _ =>
  }

  /** `_parse` (index.js:17-67) and `parse` (index.js:129-137), which adds
   *  only the saving and restoring of `Error.stackTraceLimit`. `v0` is the
   *  value `JSON.parse` returned, `g` its nodes and `before` their
   *  properties as decoded. */
  method Parse(text: string, reviver: Arg, options: Arg, decode: Decoder)
    returns (r: Outcome, ghost v0: JVal, ghost g: set<JNode>, ghost before: map<JNode, seq<Prop>>)
    ensures fresh(g) && before.Keys == g
    ensures r != Raised(TypeError)
    ensures RouteOf(text, reviver, options, decode).Fails? ==> r == Raised(SyntaxError) && g == {}
    ensures RouteOf(text, reviver, options, decode).Returns? ==>
      r == Value(v0) && Denotes(v0, RouteOf(text, reviver, options, decode).tree, g) &&
      forall n <- g :: n.props == before[n]
    ensures RouteOf(text, reviver, options, decode).Scans? ==>
      var t, o := RouteOf(text, reviver, options, decode).tree, RouteOf(text, reviver, options, decode).o;
      v0.JObj? && DenotesIn(v0, t, before) &&
      (forall n <- g :: Pruned(before[n], n.props, o, HazardFor(before[n], before))) &&
      (forall n <- g :: CleanFor(before[n], before, o) ==> n.props == before[n]) &&
      (r == Value(v0) ==> forall p, x | IsPath(p, v0.node, x) :: Clean(x, o)) &&
      (r.Value? && r.value != v0 ==> r.value == JNull && IsSafe(o) && exists n <- g :: !Clean(n, o)) &&
      (r.Value? && r.value != v0 ==> exists p, x :: IsPath(p, v0.node, x) && !Clean(x, o)) &&
      (r.Raised? ==> r.error == SyntaxError && !IsSafe(o) && exists n <- g ::
        (Throws(o.protoAction) && OwnsProto(n)) || (Throws(o.constructorAction) && ConstructorHazard(n))) &&
      ((forall n <- g :: CleanFor(before[n], before, o)) ==> r == Value(v0) && forall n <- g :: n.props == before[n])
  {
    var args := NormalizeArgs(reviver, options);
    var t := StripBom(text);
    var d := decode(t, ReviverOf(args.0));
    ghost var route := RouteOf(text, reviver, options, decode);
    if d.Malformed? {
      assert route == Fails;
      return Raised(SyntaxError), JNull, {}, map[];
    }
    var obj;
    ghost var rank;
    obj, g, rank := Build(d.tree);
    v0 := obj;
    before := map n | n in g :: n.props;
    // `obj === null || typeof obj !== 'object'`
    if !obj.JObj? {
      assert route == Returns(d.tree);
      return Value(obj), v0, g, before;
    }
    var o := ResolveOptions(args.1);
    GateIsScanNeeded(t, o);
    if !Gate(t, o.protoAction, o.constructorAction) {
      assert route == Returns(d.tree);
      return Value(obj), v0, g, before;
    }
    assert route == Scans(d.tree, o);
    DenotesSnapshot(obj, d.tree, g, before);
    r := Sanitise(obj, o, g, rank, before);
  }

  /** The final `filter` call of `_parse` (index.js:66), from the decoded
   *  graph `g` whose properties are `before`, and its outcome as `_parse`
   *  hands it on: the `null` of safe mode is a value. */
  method Sanitise(obj: JVal, o: ScanOptions, ghost g: set<JNode>, ghost rank: map<JNode, nat>,
                  ghost before: map<JNode, seq<Prop>>)
    returns (r: Outcome)
    requires Graph(g, rank) && Snapshot(g, before) && obj.JObj? && obj.node in g
    modifies g
    ensures r != Raised(TypeError)
    ensures forall n <- g :: Pruned(before[n], n.props, o, HazardFor(before[n], before))
    ensures forall n <- g :: CleanFor(before[n], before, o) ==> n.props == before[n]
    ensures r == Value(obj) ==> forall p, x | IsPath(p, obj.node, x) :: Clean(x, o)
    ensures r.Value? && r.value != obj ==> r.value == JNull && IsSafe(o) && exists n <- g :: !Clean(n, o)
    ensures r.Value? && r.value != obj ==> exists p, x :: IsPath(p, obj.node, x) && !Clean(x, o)
    ensures r.Raised? ==> r.error == SyntaxError && !IsSafe(o) && exists n <- g ::
      (Throws(o.protoAction) && OwnsProto(n)) || (Throws(o.constructorAction) && ConstructorHazard(n))
    ensures (forall n <- g :: CleanFor(before[n], before, o)) ==> r == Value(obj) && forall n <- g :: n.props == before[n]
  {
    forall n <- g ensures Clean(n, o) == CleanFor(before[n], before, o) && ConstructorHazard(n) == HazardFor(before[n], before) {
      CleanInSnapshot(g, rank, before, n, o);
    }
    var s, visited, paths := Filter(obj, o, g, rank);
    if s == Blocked {
      ghost var x :| x in visited && !Clean(x, o);
      assert IsPath(paths[x], obj.node, x);
    }
    match s
    case Scanned(v) => r := Value(v);
    case Blocked => r := Value(JNull);
    case Threw(e) => r := Raised(e);
  }

  /** The options `safeParse` passes: `{ safe: true }`. */
  const SafeOptions := Record(OptionsRecord(Undefined, Undefined, Boolean(true)))

  /** `safeParse` (index.js:145-155): `_parse` in safe mode, with every
   *  exception turned into `undefined`. `v0` is the value `JSON.parse`
   *  returned, `g` its nodes and `before` their properties as decoded. */
  method SafeParse(text: string, reviver: Arg, decode: Decoder)
    returns (r: SafeOutcome, ghost v0: JVal, ghost g: set<JNode>, ghost before: map<JNode, seq<Prop>>)
    ensures fresh(g) && before.Keys == g
    ensures r == SafeUndefined <==> decode(StripBom(text), ReviverOf(reviver)) == Malformed
    ensures forall n <- g :: n.props == before[n]
    ensures RouteOf(text, reviver, SafeOptions, decode).Returns? ==>
      r == SafeValue(v0) && Denotes(v0, RouteOf(text, reviver, SafeOptions, decode).tree, g)
    ensures RouteOf(text, reviver, SafeOptions, decode).Scans? ==>
      v0.JObj? && DenotesIn(v0, RouteOf(text, reviver, SafeOptions, decode).tree, before) &&
      (r == SafeValue(v0) || r == SafeValue(JNull)) &&
      (r == SafeValue(v0) <==> forall p, x | IsPath(p, v0.node, x) :: !OwnsProto(x) && !ConstructorHazard(x))
    ensures r.SafeValue? && r.value.JObj? && RouteOf(text, reviver, SafeOptions, decode).Scans? ==>
      forall p, x | IsPath(p, r.value.node, x) :: !OwnsProto(x) && !ConstructorHazard(x)
    ensures r == SafeValue(JNull) ==>
      decode(StripBom(text), ReviverOf(reviver)) == Parsed(TNull) || exists n <- g :: OwnsProto(n) || ConstructorHazard(n)
  {
    var p;
    p, v0, g, before := Parse(text, reviver, SafeOptions, decode);
    assert NormalizeArgs(reviver, SafeOptions) == (reviver, SafeOptions);
    assert IsSafe(ResolveOptions(SafeOptions));
    assert ResolveOptions(SafeOptions) == ScanOptions(Text("error"), Text("error"), Boolean(true));
    match p
    case Value(v) => r := SafeValue(v);
    case Raised(_) => r := SafeUndefined;
  }

  /** An absent option field of a direct `scan` call takes its default. */
  function OrError(v: JsValue): JsValue {
    if v == Undefined then Text("error") else v
  }

  /** The destructuring `{ protoAction = 'error', constructorAction = 'error',
   *  safe } = {}` of `filter`'s second parameter: `None` is the TypeError of
   *  destructuring `null`. */
  function DirectOptions(arg: Arg): Option<ScanOptions> {
    if arg.NullArg? then None
    else
      var f := FieldsOf(arg);
      Some(ScanOptions(OrError(f.protoAction), OrError(f.constructorAction), f.safe))
  }

  /** The destructuring defaults replace only an absent field: a direct
   *  `scan` answers TypeError only on `null` options, and takes `null` as an
   *  action that deletes, where `_parse`'s `||` turns every falsy action
   *  into `'error'`. */
  lemma DirectOptionsFacts(arg: Arg)
    ensures DirectOptions(arg) == None <==> arg.NullArg?
    ensures DirectOptions(Undef) == Some(ScanOptions(Text("error"), Text("error"), Undefined))
    ensures arg.Record? ==> DirectOptions(arg).value.protoAction == (if arg.o.protoAction == Undefined then Text("error") else arg.o.protoAction)
    ensures var nulls := Record(OptionsRecord(Null, Null, Undefined));
      Removes(DirectOptions(nulls).value, Null) && ResolveOptions(nulls).protoAction == Text("error")
  {
  }

  /** `scan(obj, options)` (index.js:77 with index.js:161): `filter` called
   *  directly, on any acyclic object graph, with the options its parameter
   *  destructuring yields. */
  method Scan(obj: JVal, options: Arg, ghost g: set<JNode>, ghost rank: map<JNode, nat>)
    returns (r: ScanOutcome, ghost visited: set<JNode>, ghost paths: map<JNode, seq<JNode>>)
    requires Graph(g, rank)
    requires obj.JObj? ==> obj.node in g
    modifies g
    ensures DirectOptions(options) == None ==> r == Threw(TypeError) && visited == {} && forall n <- g :: n.props == old(n.props)
    ensures visited <= g
    ensures obj.JObj? ==> forall v <- visited :: v in paths && IsPath(paths[v], obj.node, v)
    ensures DirectOptions(options).Some? ==>
      var o := DirectOptions(options).value;
      (forall n <- g :: Pruned(old(n.props), n.props, o, old(ConstructorHazard(n)))) &&
      (forall n <- g :: n !in visited || old(Clean(n, o)) ==> n.props == old(n.props)) &&
      (r == Threw(TypeError) <==> obj == JNull && (Checks(o.protoAction) || Checks(o.constructorAction))) &&
      (r.Scanned? ==> r.value == obj && (obj.JObj? ==> forall p, x | IsPath(p, obj.node, x) :: Clean(x, o))) &&
      (r == Blocked ==> IsSafe(o) && obj.JObj? && exists v <- visited :: !Clean(v, o)) &&
      (r == Threw(SyntaxError) ==> !IsSafe(o) && obj.JObj? && exists v <- visited ::
        (Throws(o.protoAction) && OwnsProto(v)) || (Throws(o.constructorAction) && ConstructorHazard(v))) &&
      (obj.JObj? && (forall v <- visited :: old(Clean(v, o))) ==> r.Scanned? && forall n <- g :: n.props == old(n.props)) &&
      (obj.JObj? ==>
        (forall p, x | x in g && (forall i | 0 <= i < |p| :: p[i] in g) && old(IsPath(p, obj.node, x)) :: old(Clean(x, o))) ==>
        r == Scanned(obj) && forall n <- g :: n.props == old(n.props))
  {
    var o := DirectOptions(options);
    if o == None {
      return Threw(TypeError), {}, map[];
    }
    r, visited, paths := Filter(obj, o.value, g, rank);
  }
}
