/** The historical entry point lib/index.js: varargs normalisation, the
 *  `'ignore'` return, the lower-case-only pre-screen without a colon, and
 *  `internals.scan`, which only knows about `__proto__` and throws unless the
 *  action is `'remove'`. */
module Legacy {
  import opened JsValues
  import opened JsonGraph
  import opened PreScreen
  import opened PreScreenFacts
  import opened Scanner
  import opened Parser

  /** `internals.suspectRx` (lib/index.js:5): a quoted `__proto__`, escapes
   *  with lower-case hex only, and nothing required after the closing quote. */
  predicate LegacySuspect(text: string) {
    Suspect(text, ProtoKey, false, false)
  }

  /** The two groups of `suspectRx` with a hex letter accept it in lower
   *  case only. */
  lemma LegacyCharForms(a: string)
    ensures IsCharForm(a, '_', false) <==> a in {"_", "\\u005f"}
    ensures IsCharForm(a, 'o', false) <==> a in {"o", "\\u006f"}
  {
    CharFormsAre(a, '_', false, {'5'}, {'f'});
    CharFormsAre(a, 'o', false, {'6'}, {'f'});
  }

  /** With no tail required, a quoted `__proto__` fires the old pre-screen
   *  even where it is a value and not a key. */
  lemma LegacyMatchesValue(pre: string, post: string)
    ensures LegacySuspect(pre + "\"__proto__\"" + post)
  {
    LiteralSpelling(ProtoKey, false);
    SuspectOfSpelling(pre, ProtoKey, [], post, ProtoKey, false, false);
    assert pre + ['"'] + ProtoKey + ['"'] + [] + post == pre + "\"__proto__\"" + post;
  }

  /** The argument normalisation of lib/index.js:13-15 over the arguments
   *  after the text; answers the pair (reviver, options). `typeof args[0]
   *  === 'object'` holds for `null` and records, and of those only a record
   *  is truthy, so only a record is taken as the first options. */
  function LegacyArgs(args: seq<Arg>): (Arg, Arg) {
    var first := if |args| > 0 then args[0] else Undef;
    var reviver := if |args| > 1 || !first.Record? then first else Undef;
    var options :=
      if |args| > 1 && ArgTruthy(args[1]) then args[1]
      else if first.Record? then first
      else Record(EmptyRecord);
    (reviver, options)
  }

  /** A single object after the text is the options, with no reviver; two
   *  arguments are the reviver and the options; the options default to
   *  `{}`, and are never `null` or `undefined`, so reading a field of them
   *  cannot throw. */
  lemma LegacyArgsCases(args: seq<Arg>)
    ensures |args| == 1 && args[0].Record? ==> LegacyArgs(args) == (Undef, args[0])
    ensures |args| > 1 && ArgTruthy(args[1]) ==> LegacyArgs(args) == (args[0], args[1])
    ensures |args| == 0 ==> LegacyArgs(args) == (Undef, Record(EmptyRecord))
    ensures |args| == 1 && !args[0].Record? ==> LegacyArgs(args) == (args[0], Record(EmptyRecord))
    ensures ArgTruthy(LegacyArgs(args).1)
    ensures |args| > 1 ==> LegacyArgs(args).0 == args[0]
  {
  }

  /** The options `internals.scan` acts on, as options of the index.js
   *  walk: only the `__proto__` category is inspected, a violation is
   *  deleted under `'remove'` and refused under any other action, and there
   *  is no safe mode. */
  function LegacyOptions(action: JsValue): ScanOptions {
    ScanOptions(if action == Text("remove") then Text("remove") else Text("error"), Text("ignore"), Undefined)
  }

  /** The per-node branch of lib/index.js:58-63 is the index.js branch under
   *  `LegacyOptions`: `__proto__` is always inspected, `constructor` never,
   *  a violation throws exactly when the action is not `'remove'` and is
   *  deleted exactly when it is. */
  lemma LegacyOptionsAgree(action: JsValue)
    ensures var o := LegacyOptions(action);
      Checks(o.protoAction) && !Checks(o.constructorAction) && !IsSafe(o) &&
      (Throws(o.protoAction) <==> action != Text("remove")) &&
      (Removes(o, o.protoAction) <==> action == Text("remove"))
  {
  }

  /** `internals.scan(obj, options)` (lib/index.js:49-76) with the action
   *  `options.protoAction`: the breadth-first walk of `filter` with the
   *  `constructor` check switched off. Answers the exception, if any. */
  method LegacyScan(obj: JVal, action: JsValue, ghost g: set<JNode>, ghost rank: map<JNode, nat>)
    returns (r: Option<ErrorKind>)
    requires Graph(g, rank) && obj.JObj? && obj.node in g
    modifies g
    ensures action == Text("remove") ==>
      r == None && (forall n <- g :: n.props == old(n.props) || n.props == Drop(old(n.props), ProtoKey)) &&
      forall p, x | IsPath(p, obj.node, x) :: !OwnsProto(x)
    ensures action != Text("remove") ==>
      (forall n <- g :: n.props == old(n.props)) &&
      (r.Some? ==> r.value == SyntaxError) &&
      (r.Some? <==> exists p, x :: IsPath(p, obj.node, x) && OwnsProto(x))
  {
    var o := LegacyOptions(action);
    LegacyOptionsAgree(action);
    assert !Throws(o.constructorAction);
    var s, visited, paths := Filter(obj, o, g, rank);
    if s.Threw? {
      assert s.error == SyntaxError;
      assert exists v <- visited :: (Throws(o.protoAction) && OwnsProto(v)) || (Throws(o.constructorAction) && ConstructorHazard(v));
      ghost var v :| v in visited && OwnsProto(v);
      assert IsPath(paths[v], obj.node, v);
      r := Some(s.error);
    } else {
      assert s != Threw(TypeError);
      assert s != Blocked;
      assert s.Scanned?;
      r := None;
    }
  }

  /** What `exports.parse` (lib/index.js:9-46) does with its arguments: a
   *  Route as for index.js, whose scans use `LegacyOptions`. */
  function LegacyRouteOf(text: string, args: seq<Arg>, decode: Decoder): Route {
    var a := LegacyArgs(args);
    var action := FieldsOf(a.1).protoAction;
    match decode(text, ReviverOf(a.0))
    case Malformed => Fails
    case Parsed(tree) =>
      if action != Text("ignore") && IsComposite(tree) && LegacySuspect(text) then Scans(tree, LegacyOptions(action))
      else Returns(tree)
  }

  /** The gates of lib/index.js: `'ignore'` returns whatever was decoded,
   *  before the type test; a primitive is returned; a scan happens only on
   *  an object whose text the old pre-screen matches. */
  lemma LegacyRouteCases(text: string, args: seq<Arg>, decode: Decoder)
    ensures var a := LegacyArgs(args);
      FieldsOf(a.1).protoAction == Text("ignore") && decode(text, ReviverOf(a.0)).Parsed? ==>
        LegacyRouteOf(text, args, decode) == Returns(decode(text, ReviverOf(a.0)).tree)
    ensures var a := LegacyArgs(args);
      decode(text, ReviverOf(a.0)).Parsed? && !IsComposite(decode(text, ReviverOf(a.0)).tree) ==>
        LegacyRouteOf(text, args, decode) == Returns(decode(text, ReviverOf(a.0)).tree)
    ensures LegacyRouteOf(text, args, decode).Scans? ==> LegacySuspect(text)
    ensures LegacyRouteOf(text, args, decode).Fails? <==> decode(text, ReviverOf(LegacyArgs(args).0)).Malformed?
  {
  }

  /** `exports.parse(text, ...args)` of lib/index.js. `v0` is the value
   *  `JSON.parse` returned, `g` its nodes and `before` their properties as
   *  decoded. */
  method LegacyParse(text: string, args: seq<Arg>, decode: Decoder)
    returns (r: Outcome, ghost v0: JVal, ghost g: set<JNode>, ghost before: map<JNode, seq<Prop>>)
    ensures fresh(g) && before.Keys == g
    ensures LegacyRouteOf(text, args, decode).Fails? ==> r == Raised(SyntaxError) && g == {}
    ensures LegacyRouteOf(text, args, decode).Returns? ==>
      r == Value(v0) && Denotes(v0, LegacyRouteOf(text, args, decode).tree, g) &&
      forall n <- g :: n.props == before[n]
    ensures LegacyRouteOf(text, args, decode).Scans? ==>
      var t, o := LegacyRouteOf(text, args, decode).tree, LegacyRouteOf(text, args, decode).o;
      v0.JObj? && DenotesIn(v0, t, before) &&
      (o.protoAction == Text("remove") ==>
        r == Value(v0) && (forall n <- g :: n.props == before[n] || n.props == Drop(before[n], ProtoKey)) &&
        forall p, x | IsPath(p, v0.node, x) :: !OwnsProto(x)) &&
      (o.protoAction != Text("remove") ==>
        (forall n <- g :: n.props == before[n]) &&
        (r == Value(v0) || r == Raised(SyntaxError)) &&
        (r.Raised? <==> exists p, x :: IsPath(p, v0.node, x) && OwnsProto(x)))
  {
    var a := LegacyArgs(args);
    var d := decode(text, ReviverOf(a.0));
    if d.Malformed? {
      return Raised(SyntaxError), JNull, {}, map[];
    }
    var obj;
    ghost var rank;
    obj, g, rank := Build(d.tree);
    v0 := obj;
    before := map n | n in g :: n.props;
    var action := FieldsOf(a.1).protoAction;
    if action == Text("ignore") {
      return Value(obj), v0, g, before;
    }
    // `!obj || typeof obj !== 'object'`
    if !obj.JObj? {
      return Value(obj), v0, g, before;
    }
    if !LegacySuspect(text) {
      return Value(obj), v0, g, before;
    }
    DenotesSnapshot(obj, d.tree, g, before);
    var e := LegacyScan(obj, action, g, rank);
    r := if e.Some? then Raised(e.value) else Value(obj);
  }
}
