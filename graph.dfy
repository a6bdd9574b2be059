/** The decoded JSON value as the JavaScript engine holds it: primitives, and
 *  objects and arrays that live on the heap and are changed in place. */
module JsonGraph {
  import opened JsValues

  /** A decoded value. Objects and arrays are references to heap nodes. */
  datatype JVal = JNull | JBool(b: bool) | JNum(n: real) | JStr(s: string) | JObj(node: JNode)

  /** An own property: its name and its value. */
  type Prop = (string, JVal)

  /** A JSON object or array. `props` holds the own enumerable properties in
   *  the order `for...in` visits them (an array's are its indices). */
  class JNode {
    const isArray: bool
    var props: seq<Prop>

    constructor (isArray: bool, props: seq<Prop>)
      ensures this.isArray == isArray && this.props == props
    {
      this.isArray := isArray;
      this.props := props;
    }
  }

  /** `Object.prototype.hasOwnProperty.call(node, k)`: a test on the node's own
   *  properties that no property of the node can shadow. */
  predicate HasOwn(ps: seq<Prop>, k: string) {
    exists i | 0 <= i < |ps| :: ps[i].0 == k
  }

  /** `node[k]` for an own property `k`. */
  function Get(ps: seq<Prop>, k: string): (r: Option<JVal>)
    ensures r.Some? <==> HasOwn(ps, k)
    ensures r.Some? ==> exists i | 0 <= i < |ps| :: ps[i] == (k, r.value)
  {
    if ps == [] then None
    else if ps[0].0 == k then Some(ps[0].1)
    else
      var r := Get(ps[1..], k);
      assert r.Some? ==> exists i | 0 <= i < |ps| - 1 :: ps[1..][i] == (k, r.value);
      r
  }

  /** `delete node[k]`: the properties without `k`, the others in their order. */
  function Drop(ps: seq<Prop>, k: string): (r: seq<Prop>)
    ensures !HasOwn(r, k)
    ensures forall i | 0 <= i < |r| :: r[i] in ps && r[i].0 != k
    ensures forall i | 0 <= i < |ps| && ps[i].0 != k :: ps[i] in r
    ensures !HasOwn(ps, k) ==> r == ps
  {
    if ps == [] then []
    else if ps[0].0 == k then Drop(ps[1..], k)
    else
      var r := [ps[0]] + Drop(ps[1..], k);
      assert !HasOwn(ps[1..], k) ==> r == ps;
      r
  }

  /** The object and array values among `ps`, in order: what the scanners
   *  push onto the next level of the walk. */
  function Kids(ps: seq<Prop>): seq<JNode> {
    if ps == [] then []
    else Kids(ps[..|ps| - 1]) + (if ps[|ps| - 1].1.JObj? then [ps[|ps| - 1].1.node] else [])
  }

  lemma {:induction false} KidsAre(ps: seq<Prop>, c: JNode)
    ensures c in Kids(ps) <==> exists i | 0 <= i < |ps| :: ps[i].1 == JObj(c)
    decreases |ps|
  {
    if ps != [] {
      var init := ps[..|ps| - 1];
      KidsAre(init, c);
      assert forall i | 0 <= i < |init| :: init[i] == ps[i];
    }
  }

  /** `g` is a finite acyclic object graph closed under its references:
   *  every referenced node is in `g`, with a smaller rank than its referrer. */
  ghost predicate Graph(g: set<JNode>, rank: map<JNode, nat>)
    reads g
  {
    forall n <- g :: n in rank && forall i | 0 <= i < |n.props| :: n.props[i].1.JObj? ==>
      n.props[i].1.node in g && n.props[i].1.node in rank && rank[n.props[i].1.node] < rank[n]
  }

  /** `p` is a chain of references from `src` to `dst`. */
  ghost predicate IsPath(p: seq<JNode>, src: JNode, dst: JNode)
    reads set i | 0 <= i < |p| - 1 :: p[i]
  {
    |p| > 0 && p[0] == src && p[|p| - 1] == dst &&
    forall i | 0 <= i < |p| - 1 :: p[i + 1] in Kids(p[i].props)
  }

  /** Every object or array value of a node in `s` is itself in `s`. */
  ghost predicate Closed(s: set<JNode>)
    reads s
  {
    forall n <- s :: forall c | c in Kids(n.props) :: c in s
  }

  /** A set closed under references that holds `src` holds everything
   *  reachable from it: a closed set is a superset of the reachable nodes. */
  lemma {:induction false} ReachableInClosed(s: set<JNode>, p: seq<JNode>, src: JNode, dst: JNode)
    requires Closed(s) && src in s && IsPath(p, src, dst)
    ensures dst in s
    decreases |p|
  {
    if |p| > 1 {
      var q := p[..|p| - 1];
      assert IsPath(q, src, p[|p| - 2]);
      ReachableInClosed(s, q, src, p[|p| - 2]);
    }
  }

  /** The property owning `__proto__`. */
  predicate OwnsProto(n: JNode)
    reads n
  {
    HasOwn(n.props, ProtoKey)
  }

  /** The node a `constructor` own property refers to, if it refers to one. */
  function ConstructorTarget(ps: seq<Prop>): set<JNode> {
    match Get(ps, ConstructorKey)
    case Some(JObj(t)) => {t}
    case _ => {}
  }

  /** The node owns `constructor` whose value is a non-null object that owns
   *  `prototype`. */
  predicate ConstructorHazard(n: JNode)
    reads n, ConstructorTarget(n.props)
  {
    match Get(n.props, ConstructorKey)
    case Some(JObj(t)) => HasOwn(t.props, PrototypeKey)
    case _ => false
  }

  /** The decimal name of an array index. */
  function IndexKey(i: nat): string
    decreases i
  {
    if i < 10 then [('0' as int + i) as char]
    else IndexKey(i / 10) + [('0' as int + i % 10) as char]
  }

  /** A decoded JSON value as a tree: what an external JSON parser produces. */
  datatype JTree =
    | TNull | TBool(b: bool) | TNum(n: real) | TStr(s: string)
    | TArr(items: seq<JTree>)
    | TObj(members: seq<(string, JTree)>)

  /** The outcome of `JSON.parse`: a SyntaxError, or a value. */
  datatype Decoded = Malformed | Parsed(tree: JTree)

  predicate IsComposite(t: JTree) {
    t.TArr? || t.TObj?
  }

  /** The primitive value of a primitive tree. */
  function PrimitiveOf(t: JTree): (v: JVal)
    requires !IsComposite(t)
    ensures !v.JObj?
  {
    match t
    case TNull => JNull
    case TBool(b) => JBool(b)
    case TNum(n) => JNum(n)
    case TStr(s) => JStr(s)
  }

  /** The heap value `v`, with the nodes in `g`, is the tree `t`. */
  ghost predicate Denotes(v: JVal, t: JTree, g: set<JNode>)
    reads g
    decreases t
  {
    match t
    case TArr(items) =>
      v.JObj? && v.node in g && v.node.isArray && |v.node.props| == |items| &&
      forall i | 0 <= i < |items| :: v.node.props[i].0 == IndexKey(i) && Denotes(v.node.props[i].1, items[i], g)
    case TObj(ms) =>
      v.JObj? && v.node in g && !v.node.isArray && |v.node.props| == |ms| &&
      forall i | 0 <= i < |ms| :: v.node.props[i].0 == ms[i].0 && Denotes(v.node.props[i].1, ms[i].1, g)
    case _ => v == PrimitiveOf(t)
  }

  lemma {:induction false} DenotesGrow(v: JVal, t: JTree, g: set<JNode>, h: set<JNode>)
    requires g <= h && Denotes(v, t, g)
    ensures Denotes(v, t, h)
    decreases t
  {
    match t
    case TArr(items) =>
      forall i | 0 <= i < |items| ensures Denotes(v.node.props[i].1, items[i], h) {
        DenotesGrow(v.node.props[i].1, items[i], g, h);
      }
    case TObj(ms) =>
      forall i | 0 <= i < |ms| ensures Denotes(v.node.props[i].1, ms[i].1, h) {
        DenotesGrow(v.node.props[i].1, ms[i].1, g, h);
      }
    case _ =>
  }

  /** The number of elements or members of a tree. */
  function Width(t: JTree): nat {
    match t
    case TArr(items) => |items|
    case TObj(ms) => |ms|
    case _ => 0
  }

  /** The properties `ps` hold, in order, the keys of the tree `t`
   *  (array indices or member names) with the values the nodes of `g` denote. */
  ghost predicate DenotesEntries(ps: seq<Prop>, t: JTree, g: set<JNode>)
    reads g
    requires IsComposite(t)
  {
    |ps| == Width(t) &&
    if t.TArr? then forall j | 0 <= j < |ps| :: ps[j].0 == IndexKey(j) && Denotes(ps[j].1, t.items[j], g)
    else forall j | 0 <= j < |ps| :: ps[j].0 == t.members[j].0 && Denotes(ps[j].1, t.members[j].1, g)
  }

  lemma DenotesEntriesGrow(ps: seq<Prop>, t: JTree, g: set<JNode>, h: set<JNode>)
    requires IsComposite(t) && g <= h && DenotesEntries(ps, t, g)
    ensures DenotesEntries(ps, t, h)
  {
    forall j | 0 <= j < |ps|
      ensures Denotes(ps[j].1, if t.TArr? then t.items[j] else t.members[j].1, h)
    {
      DenotesGrow(ps[j].1, if t.TArr? then t.items[j] else t.members[j].1, g, h);
    }
  }

  /** Two disjoint graphs together are a graph. */
  lemma GraphJoin(g: set<JNode>, rank: map<JNode, nat>, h: set<JNode>, r: map<JNode, nat>)
    requires Graph(g, rank) && Graph(h, r) && rank.Keys == g && r.Keys == h && g !! h
    ensures Graph(g + h, rank + r)
  {
  }

  /** Allocates the fresh object graph of a decoded tree, the way `JSON.parse`
   *  hands it to its caller: every object and array a new node. */
  method Build(t: JTree) returns (v: JVal, ghost g: set<JNode>, ghost rank: map<JNode, nat>)
    ensures fresh(g) && rank.Keys == g && Graph(g, rank)
    ensures Denotes(v, t, g)
    ensures v.JObj? <==> IsComposite(t)
    ensures v.JObj? ==> v.node in g
    decreases t, 1
  {
    if !IsComposite(t) {
      v, g, rank := PrimitiveOf(t), {}, map[];
      return;
    }
    var props;
    ghost var top;
    props, g, rank, top := BuildEntries(t);
    var node := new JNode(t.TArr?, props);
    DenotesEntriesGrow(props, t, g, g + {node});
    v, g, rank := JObj(node), g + {node}, rank[node := top];
  }

  /** The properties of the node built for a composite tree, each value built
   *  in turn; `top` bounds the ranks of the nodes they refer to. */
  method BuildEntries(t: JTree) returns (props: seq<Prop>, ghost g: set<JNode>, ghost rank: map<JNode, nat>, ghost top: nat)
    requires IsComposite(t)
    ensures fresh(g) && rank.Keys == g && Graph(g, rank)
    ensures DenotesEntries(props, t, g)
    ensures forall j | 0 <= j < |props| :: props[j].1.JObj? ==> props[j].1.node in g && rank[props[j].1.node] < top
    decreases t, 0
  {
    var isArray := t.TArr?;
    props, g, rank, top := [], {}, map[], 0;
    for i := 0 to Width(t)
      invariant |props| == i
      invariant fresh(g) && rank.Keys == g && Graph(g, rank)
      invariant forall j | 0 <= j < i :: props[j].1.JObj? ==> props[j].1.node in g && rank[props[j].1.node] < top
      invariant isArray ==> forall j | 0 <= j < i :: props[j].0 == IndexKey(j) && Denotes(props[j].1, t.items[j], g)
      invariant !isArray ==> forall j | 0 <= j < i :: props[j].0 == t.members[j].0 && Denotes(props[j].1, t.members[j].1, g)
    {
      var key, child := if isArray then IndexKey(i) else t.members[i].0, if isArray then t.items[i] else t.members[i].1;
      var cv, cg, cr := Build(child);
      forall j | 0 <= j < i
        ensures Denotes(props[j].1, if isArray then t.items[j] else t.members[j].1, g + cg)
      {
        DenotesGrow(props[j].1, if isArray then t.items[j] else t.members[j].1, g, g + cg);
      }
      DenotesGrow(cv, child, cg, g + cg);
      GraphJoin(g, rank, cg, cr);
      props := props + [(key, cv)];
      g, rank := g + cg, rank + cr;
      if cv.JObj? && top <= cr[cv.node] {
        top := cr[cv.node] + 1;
      }
    }
  }
}
