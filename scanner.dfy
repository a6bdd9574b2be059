/** The graph scanner `filter` of index.js (exported as `scan`): a
 *  breadth-first walk over the decoded object graph that reports, removes or
 *  refuses own `__proto__` properties and `constructor` properties that
 *  refer to an object owning `prototype`. */
module Scanner {
  import opened JsValues
  import opened JsonGraph

  /** The destructured options of `filter`, after the defaults for absent
   *  fields have been applied. */
  datatype ScanOptions = ScanOptions(protoAction: JsValue, constructorAction: JsValue, safe: JsValue)

  /** The result of a walk: the walked value itself, the `null` that safe mode
   *  returns on a violation, or an exception. */
  datatype ScanOutcome = Scanned(value: JVal) | Blocked | Threw(error: ErrorKind)

  /** A category is inspected unless its action is `'ignore'`. */
  predicate Checks(action: JsValue) {
    action != Text("ignore")
  }

  /** A violation throws when its action is `'error'` (and safe mode is off). */
  predicate Throws(action: JsValue) {
    action == Text("error")
  }

  predicate IsSafe(o: ScanOptions) {
    o.safe == Boolean(true)
  }

  /** A violation of a category is deleted: the category is inspected, safe
   *  mode is off and the action is not `'error'`. This holds for `'remove'`
   *  and for any other value the branches do not name. */
  predicate Removes(o: ScanOptions, action: JsValue) {
    Checks(action) && !IsSafe(o) && !Throws(action)
  }

  /** The node shows no violation of an inspected category. */
  predicate Clean(n: JNode, o: ScanOptions)
    reads n, ConstructorTarget(n.props)
  {
    (Checks(o.protoAction) ==> !OwnsProto(n)) && (Checks(o.constructorAction) ==> !ConstructorHazard(n))
  }

  /** `after` is `before` with at most the own `__proto__` property (when that
   *  category removes) and the own `constructor` property (when that one
   *  removes and `hazard`, the `constructor` of `before` refers to an object
   *  owning `prototype`) deleted: every other property is kept, in order. */
  ghost predicate Pruned(before: seq<Prop>, after: seq<Prop>, o: ScanOptions, hazard: bool) {
    after == before
    || (Removes(o, o.protoAction) && after == Drop(before, ProtoKey))
    || (Removes(o, o.constructorAction) && hazard && after == Drop(before, ConstructorKey))
    || (Removes(o, o.protoAction) && Removes(o, o.constructorAction) && hazard &&
        after == Drop(Drop(before, ProtoKey), ConstructorKey))
  }

  /** The verdict on one node: go on, or end the walk with an outcome. */
  datatype Verdict = Pass | Halt(outcome: ScanOutcome)

  /** What the two checks on one node promise, with `before` and `after` its
   *  properties before and after them and `orig` the properties the walk
   *  started from: only what a removing category finds is deleted; the
   *  checks pass exactly on a node left clean; a node that was clean passes
   *  untouched; a halt answers a violation that is still there, `null` only
   *  in safe mode and an exception only as a SyntaxError with its reason. */
  ghost predicate Inspected(before: seq<Prop>, after: seq<Prop>, v: Verdict, orig: map<JNode, seq<Prop>>, o: ScanOptions) {
    && Pruned(before, after, o, HazardFor(before, orig))
    && (v.Pass? ==> CleanFor(after, orig, o))
    && (CleanFor(before, orig, o) ==> v.Pass? && after == before)
    && (v.Halt? ==> !v.outcome.Scanned? && !CleanFor(after, orig, o) && !CleanFor(before, orig, o))
    && (v == Halt(Blocked) ==> IsSafe(o))
    && (v.Halt? && v.outcome.Threw? ==> ThrowReason(after, v.outcome, orig, o))
  }

  /** The two checks of `filter` on one node (index.js:85-107). */
  method Inspect(node: JNode, o: ScanOptions, ghost orig: map<JNode, seq<Prop>>) returns (v: Verdict)
    requires forall t <- ConstructorTarget(node.props) ::
      t != node && t in orig && HasOwn(t.props, PrototypeKey) == HasOwn(orig[t], PrototypeKey)
    modifies node
    ensures Inspected(old(node.props), node.props, v, orig, o)
  {
    ghost var before := node.props;
    // the hazard does not depend on the node's own `__proto__`
    if Checks(o.protoAction) && HasOwn(node.props, ProtoKey) {
      if o.safe == Boolean(true) {
        return Halt(Blocked);
      } else if o.protoAction == Text("error") {
        return Halt(Threw(SyntaxError));
      }
      node.props := Drop(node.props, ProtoKey);
    }
    assert Get(node.props, ConstructorKey) == Get(before, ConstructorKey) by {
      DropKeepsGet(before, ProtoKey, ConstructorKey);
    }
    if Checks(o.constructorAction) && HasOwn(node.props, ConstructorKey) {
      var c := Get(node.props, ConstructorKey).value;
      if c.JObj? && HasOwn(c.node.props, PrototypeKey) {
        if o.safe == Boolean(true) {
          return Halt(Blocked);
        } else if o.constructorAction == Text("error") {
          return Halt(Threw(SyntaxError));
        }
        node.props := Drop(node.props, ConstructorKey);
      }
    }
    return Pass;
  }

  /** Deleting one key leaves the lookup of another as it was. */
  lemma {:induction false} DropKeepsGet(ps: seq<Prop>, k: string, k': string)
    requires k != k'
    ensures Get(Drop(ps, k), k') == Get(ps, k')
  {
    if ps != [] {
      DropKeepsGet(ps[1..], k, k');
    }
  }

  /** The `for (const key in node)` loop: pushes every object or array value
   *  of the node onto the next level, in order. */
  method PushKids(node: JNode, next: seq<JNode>) returns (r: seq<JNode>)
    ensures r == next + Kids(node.props)
  {
    r := next;
    var k := 0;
    while k < |node.props|
      invariant 0 <= k <= |node.props|
      invariant r == next + Kids(node.props[..k])
    {
      assert node.props[..k + 1][..k] == node.props[..k];
      var value := node.props[k].1;
      if value.JObj? {
        r := r + [value.node];
      }
      k := k + 1;
    }
    assert node.props[..k] == node.props;
  }


  /** The `constructor` hazard of properties `ps`, judged by the original
   *  properties `orig` of the nodes (which agree with the current ones on who
   *  owns `prototype`). */
  predicate HazardFor(ps: seq<Prop>, orig: map<JNode, seq<Prop>>) {
    match Get(ps, ConstructorKey)
    case Some(JObj(t)) => t in orig && HasOwn(orig[t], PrototypeKey)
    case _ => false
  }

  /** `Clean` for properties `ps`, judged by `orig`. */
  predicate CleanFor(ps: seq<Prop>, orig: map<JNode, seq<Prop>>, o: ScanOptions) {
    (Checks(o.protoAction) ==> !HasOwn(ps, ProtoKey)) && (Checks(o.constructorAction) ==> !HazardFor(ps, orig))
  }

  /** Deletion keeps the ownership of every other key. */
  lemma PrunedKeepsOwn(before: seq<Prop>, after: seq<Prop>, o: ScanOptions, hazard: bool, k: string)
    requires Pruned(before, after, o, hazard) && k != ProtoKey && k != ConstructorKey
    ensures HasOwn(after, k) == HasOwn(before, k)
  {
    if HasOwn(before, k) {
      var i :| 0 <= i < |before| && before[i].0 == k;
      if after == Drop(Drop(before, ProtoKey), ConstructorKey) {
        assert before[i] in Drop(before, ProtoKey);
      }
      assert before[i] in after;
    }
  }

  /** Deletion only removes properties, so it adds no object values. */
  lemma PrunedKids(before: seq<Prop>, after: seq<Prop>, o: ScanOptions, hazard: bool)
    requires Pruned(before, after, o, hazard)
    ensures forall c | c in Kids(after) :: c in Kids(before)
  {
    forall c | c in Kids(after) ensures c in Kids(before) {
      KidsAre(after, c);
      var i :| 0 <= i < |after| && after[i].1 == JObj(c);
      if after == Drop(Drop(before, ProtoKey), ConstructorKey) {
        assert after[i] in Drop(before, ProtoKey);
      }
      var k :| 0 <= k < |before| && before[k] == after[i];
      KidsAre(before, c);
    }
  }

  // The walk is proved against a ghost copy `cur` of every node's
  // properties, which the heap matches throughout; `orig` is the copy taken
  // when the walk began.

  /** The heap holds exactly the properties `cur` records for the nodes `g`. */
  ghost predicate Snapshot(g: set<JNode>, cur: map<JNode, seq<Prop>>)
    reads g
  {
    cur.Keys == g && forall n <- g :: n.props == cur[n]
  }

  /** Every object value recorded in `m` is a node of `m` of smaller rank. */
  ghost predicate Ranked(m: map<JNode, seq<Prop>>, rank: map<JNode, nat>) {
    forall n <- m.Keys :: n in rank && forall i | 0 <= i < |m[n]| :: m[n][i].1.JObj? ==>
      m[n][i].1.node in m && m[n][i].1.node in rank && rank[m[n][i].1.node] < rank[n]
  }

  lemma GraphRanked(g: set<JNode>, rank: map<JNode, nat>, m: map<JNode, seq<Prop>>)
    requires Graph(g, rank) && Snapshot(g, m)
    ensures Ranked(m, rank)
  {
  }

  lemma RankedKids(m: map<JNode, seq<Prop>>, rank: map<JNode, nat>, n: JNode)
    requires Ranked(m, rank) && n in m
    ensures forall c | c in Kids(m[n]) :: c in m && c in rank && rank[c] < rank[n]
  {
    forall c | c in Kids(m[n]) ensures c in m && c in rank && rank[c] < rank[n] {
      KidsAre(m[n], c);
    }
  }

  /** `p` is a chain of references from `src` to `dst` in the recorded properties `m`. */
  ghost predicate PathIn(m: map<JNode, seq<Prop>>, p: seq<JNode>, src: JNode, dst: JNode) {
    |p| > 0 && p[0] == src && p[|p| - 1] == dst &&
    forall i | 0 <= i < |p| - 1 :: p[i] in m && p[i + 1] in Kids(m[p[i]])
  }

  lemma PathInExtend(m: map<JNode, seq<Prop>>, p: seq<JNode>, src: JNode, dst: JNode, c: JNode)
    requires PathIn(m, p, src, dst) && dst in m && c in Kids(m[dst])
    ensures PathIn(m, p + [c], src, c)
  {
    var q := p + [c];
    forall i | 0 <= i < |q| - 1 ensures q[i] in m && q[i + 1] in Kids(m[q[i]]) {
      if i < |p| - 1 {
        assert q[i] == p[i] && q[i + 1] == p[i + 1];
      }
    }
  }

  /** A path in a snapshot the heap matches is a path in the heap. */
  lemma PathInHeap(g: set<JNode>, m: map<JNode, seq<Prop>>, p: seq<JNode>, src: JNode, dst: JNode)
    requires Snapshot(g, m) && PathIn(m, p, src, dst)
    ensures IsPath(p, src, dst)
  {
  }

  /** `x` was reached along references from `root` whose every node before
   *  `x` has already been visited. */
  ghost predicate Witnessed(paths: map<JNode, seq<JNode>>, cur: map<JNode, seq<Prop>>, x: JNode, root: JNode, done: set<JNode>) {
    x in paths && (forall j | 0 <= j < |paths[x]| - 1 :: paths[x][j] in done) && PathIn(cur, paths[x], root, x)
  }

  /** Changing the properties of an unvisited node keeps every witness. */
  lemma WitnessedKept(paths: map<JNode, seq<JNode>>, cur: map<JNode, seq<Prop>>, x: JNode, root: JNode, done: set<JNode>,
                      node: JNode, after: seq<Prop>)
    requires Witnessed(paths, cur, x, root, done) && (node in done ==> node in cur && after == cur[node])
    ensures Witnessed(paths, cur[node := after], x, root, done)
  {
    var p := paths[x];
    forall i | 0 <= i < |p| - 1 ensures p[i] in cur[node := after] && p[i + 1] in Kids(cur[node := after][p[i]]) {
      assert p[i] in done;
    }
  }

  /** The recorded paths, with each of `kids` recorded one step past `node`. */
  ghost function Extend(paths: map<JNode, seq<JNode>>, node: JNode, kids: seq<JNode>): (r: map<JNode, seq<JNode>>)
    requires node in paths
    ensures forall x <- paths :: x in r
    ensures forall j | 0 <= j < |kids| :: kids[j] in r && r[kids[j]] == paths[node] + [kids[j]]
    ensures forall x <- paths | x !in kids :: r[x] == paths[x]
  {
    map x | x in paths.Keys + (set c | c in kids) :: if x in kids then paths[node] + [x] else paths[x]
  }

  /** The walk's frame: the recorded properties are the original ones with
   *  only removing deletions applied, and only on visited nodes that were
   *  not clean. */
  ghost predicate Frame(orig: map<JNode, seq<Prop>>, cur: map<JNode, seq<Prop>>, rank: map<JNode, nat>, o: ScanOptions,
                        done: set<JNode>)
  {
    && Ranked(orig, rank) && cur.Keys == orig.Keys && done <= orig.Keys
    && forall n <- orig.Keys :: NodeFrame(orig, cur, o, done, n)
  }

  /** The frame at one node: its properties only lost what a removing
   *  category deletes, it owns `prototype` as it did, and it is unchanged
   *  unless it was visited and found not clean. */
  ghost predicate NodeFrame(orig: map<JNode, seq<Prop>>, cur: map<JNode, seq<Prop>>, o: ScanOptions, done: set<JNode>, n: JNode) {
    && n in orig && n in cur && Pruned(orig[n], cur[n], o, HazardFor(orig[n], orig))
    && HasOwn(cur[n], PrototypeKey) == HasOwn(orig[n], PrototypeKey)
    && (n !in done || CleanFor(orig[n], orig, o) ==> cur[n] == orig[n])
  }

  /** The visited nodes are clean, and each object value of a visited node is
   *  visited or pending. */
  ghost predicate Covered(orig: map<JNode, seq<Prop>>, cur: map<JNode, seq<Prop>>, o: ScanOptions,
                          root: JNode, done: set<JNode>, pending: seq<JNode>)
  {
    && (root in done || root in pending)
    && forall d <- done :: Settled(orig, cur, o, done, pending, d)
  }

  /** The visited node `d` is clean and its object values are visited or pending. */
  ghost predicate Settled(orig: map<JNode, seq<Prop>>, cur: map<JNode, seq<Prop>>, o: ScanOptions,
                          done: set<JNode>, pending: seq<JNode>, d: JNode)
  {
    && d in cur && CleanFor(cur[d], orig, o)
    && forall c | c in Kids(cur[d]) :: c in done || c in pending
  }

  /** Every visited or pending node has a recorded path from the root. */
  ghost predicate Traced(cur: map<JNode, seq<Prop>>, root: JNode, done: set<JNode>, pending: seq<JNode>, paths: map<JNode, seq<JNode>>) {
    && (forall x <- done :: Witnessed(paths, cur, x, root, done))
    && (forall x <- pending :: Witnessed(paths, cur, x, root, done))
  }

  /** What holds before and after each node of the walk: `done` are the
   *  nodes visited so far, `pending` those queued in this level or the next. */
  ghost predicate WalkState(orig: map<JNode, seq<Prop>>, cur: map<JNode, seq<Prop>>, rank: map<JNode, nat>, o: ScanOptions,
                            root: JNode, done: set<JNode>, pending: seq<JNode>, paths: map<JNode, seq<JNode>>)
  {
    && Frame(orig, cur, rank, o, done) && root in orig
    && (forall x <- pending :: x in orig)
    && Covered(orig, cur, o, root, done, pending)
    && Traced(cur, root, done, pending, paths)
  }

  /** The `constructor` target of a recorded node is another recorded node
   *  whose ownership of `prototype` is the original one. */
  lemma TargetFacts(orig: map<JNode, seq<Prop>>, cur: map<JNode, seq<Prop>>, rank: map<JNode, nat>, o: ScanOptions,
                    done: set<JNode>, n: JNode)
    requires Frame(orig, cur, rank, o, done) && n in cur
    ensures forall t <- ConstructorTarget(cur[n]) ::
      t != n && t in orig && HasOwn(cur[t], PrototypeKey) == HasOwn(orig[t], PrototypeKey)
  {
    var r := Get(cur[n], ConstructorKey);
    if r.Some? && r.value.JObj? {
      assert NodeFrame(orig, cur, o, done, n);
      var i :| 0 <= i < |cur[n]| && cur[n][i] == (ConstructorKey, r.value);
      var k :| 0 <= k < |orig[n]| && orig[n][k] == cur[n][i];
      assert NodeFrame(orig, cur, o, done, r.value.node);
    }
  }

  /** While nobody gains or loses `prototype`, `Clean` can be judged by `orig`. */
  lemma CleanIsCleanFor(g: set<JNode>, orig: map<JNode, seq<Prop>>, cur: map<JNode, seq<Prop>>, rank: map<JNode, nat>,
                        o: ScanOptions, done: set<JNode>, n: JNode)
    requires Snapshot(g, cur) && Frame(orig, cur, rank, o, done) && n in g
    ensures Clean(n, o) == CleanFor(n.props, orig, o)
    ensures ConstructorHazard(n) == HazardFor(n.props, orig)
  {
    TargetFacts(orig, cur, rank, o, done, n);
  }

  /** The frame survives a visit, with `after` the node's properties once
   *  visited. */
  lemma FrameStep(orig: map<JNode, seq<Prop>>, cur: map<JNode, seq<Prop>>, rank: map<JNode, nat>, o: ScanOptions,
                  done: set<JNode>, node: JNode, after: seq<Prop>)
    requires Frame(orig, cur, rank, o, done) && node in cur
    requires node in done ==> CleanFor(cur[node], orig, o)
    requires Pruned(cur[node], after, o, HazardFor(cur[node], orig))
    requires CleanFor(cur[node], orig, o) ==> after == cur[node]
    ensures Frame(orig, cur[node := after], rank, o, done + {node})
  {
    forall n <- orig.Keys ensures NodeFrame(orig, cur[node := after], o, done + {node}, n) {
      assert NodeFrame(orig, cur, o, done, n);
      if n == node {
        PrunedKeepsOwn(cur[node], after, o, HazardFor(cur[node], orig), PrototypeKey);
      }
    }
  }

  /** Coverage survives a visit that passed. */
  lemma CoveredStep(orig: map<JNode, seq<Prop>>, cur: map<JNode, seq<Prop>>, o: ScanOptions,
                    root: JNode, done: set<JNode>, node: JNode, rest: seq<JNode>, next: seq<JNode>, after: seq<Prop>)
    requires node in cur && Covered(orig, cur, o, root, done, [node] + rest + next)
    requires CleanFor(after, orig, o)
    ensures Covered(orig, cur[node := after], o, root, done + {node}, rest + (next + Kids(after)))
  {
    var cur', done', pending, pending' := cur[node := after], done + {node}, [node] + rest + next, rest + (next + Kids(after));
    forall d <- done' ensures Settled(orig, cur', o, done', pending', d) {
      if d != node {
        assert Settled(orig, cur, o, done, pending, d);
      }
    }
  }

  /** The recorded paths survive a visit that passed. */
  lemma TracedStep(cur: map<JNode, seq<Prop>>, root: JNode, done: set<JNode>, node: JNode, rest: seq<JNode>,
                   next: seq<JNode>, paths: map<JNode, seq<JNode>>, after: seq<Prop>)
    requires node in cur && Traced(cur, root, done, [node] + rest + next, paths)
    requires node in done ==> after == cur[node]
    ensures node in paths
    ensures Traced(cur[node := after], root, done + {node}, rest + (next + Kids(after)), Extend(paths, node, Kids(after)))
  {
    var cur', done', pending, pending' := cur[node := after], done + {node}, [node] + rest + next, rest + (next + Kids(after));
    assert node in pending;
    assert Witnessed(paths, cur, node, root, done);
    WitnessedKept(paths, cur, node, root, done, node, after);
    var paths' := Extend(paths, node, Kids(after));
    forall x <- done' ensures Witnessed(paths', cur', x, root, done') {
      WitnessedKept(paths, cur, x, root, done, node, after);
      WitnessedGrow(paths, cur', x, root, done, node, Kids(after));
    }
    forall x <- pending' ensures Witnessed(paths', cur', x, root, done') {
      if x !in Kids(after) {
        assert x in pending;
        WitnessedKept(paths, cur, x, root, done, node, after);
      }
      WitnessedGrow(paths, cur', x, root, done, node, Kids(after));
    }
  }

  /** A visited node's object values are witnessed one step past it. */
  lemma WitnessedGrow(paths: map<JNode, seq<JNode>>, cur: map<JNode, seq<Prop>>, x: JNode, root: JNode, done: set<JNode>,
                      node: JNode, kids: seq<JNode>)
    requires Witnessed(paths, cur, node, root, done) && node in cur && kids == Kids(cur[node])
    requires x in kids || Witnessed(paths, cur, x, root, done)
    ensures Witnessed(Extend(paths, node, kids), cur, x, root, done + {node})
  {
    var paths' := Extend(paths, node, kids);
    if x in kids {
      var j :| 0 <= j < |kids| && kids[j] == x;
      assert paths'[x] == paths[node] + [x];
      PathInExtend(cur, paths[node], root, node, x);
    }
  }

  /** The walk state survives a visit that passed, with `after` the node's
   *  properties once visited. */
  lemma WalkStep(orig: map<JNode, seq<Prop>>, cur: map<JNode, seq<Prop>>, rank: map<JNode, nat>, o: ScanOptions,
                 root: JNode, done: set<JNode>, node: JNode, rest: seq<JNode>, next: seq<JNode>,
                 paths: map<JNode, seq<JNode>>, after: seq<Prop>)
    requires node in cur && WalkState(orig, cur, rank, o, root, done, [node] + rest + next, paths)
    requires Pruned(cur[node], after, o, HazardFor(cur[node], orig))
    requires CleanFor(cur[node], orig, o) ==> after == cur[node]
    requires CleanFor(after, orig, o)
    ensures node in paths
    ensures WalkState(orig, cur[node := after], rank, o, root, done + {node}, rest + (next + Kids(after)),
                      Extend(paths, node, Kids(after)))
  {
    FrameStep(orig, cur, rank, o, done, node, after);
    CoveredStep(orig, cur, o, root, done, node, rest, next, after);
    TracedStep(cur, root, done, node, rest, next, paths, after);
    RankedKids(orig, rank, node);
    PrunedKids(orig[node], after, o, HazardFor(orig[node], orig));
  }

  /** A SyntaxError needs the `'error'` action of a category that `ps` violates, outside safe mode. */
  predicate ThrowReason(ps: seq<Prop>, outcome: ScanOutcome, orig: map<JNode, seq<Prop>>, o: ScanOptions) {
    outcome.Threw? && outcome.error == SyntaxError && !IsSafe(o) &&
    ((Throws(o.protoAction) && HasOwn(ps, ProtoKey)) || (Throws(o.constructorAction) && HazardFor(ps, orig)))
  }

  /** The node `c` explains a walk that ended with `outcome`: it was not
   *  clean when the walk began and is not clean now, a `null` answer needs
   *  safe mode, and an exception is a SyntaxError with its reason. */
  ghost predicate Culprit(c: JNode, outcome: ScanOutcome, orig: map<JNode, seq<Prop>>, cur: map<JNode, seq<Prop>>, o: ScanOptions) {
    && !outcome.Scanned? && c in orig && c in cur
    && !CleanFor(orig[c], orig, o) && !CleanFor(cur[c], orig, o)
    && (outcome == Blocked ==> IsSafe(o))
    && (outcome.Threw? ==> ThrowReason(cur[c], outcome, orig, o))
  }

  /** What holds when the walk halts with `outcome`: the frame, a recorded
   *  path to each visited node, and a visited culprit. */
  ghost predicate Halted(orig: map<JNode, seq<Prop>>, cur: map<JNode, seq<Prop>>, rank: map<JNode, nat>, o: ScanOptions,
                         root: JNode, done: set<JNode>, paths: map<JNode, seq<JNode>>, outcome: ScanOutcome)
  {
    && Frame(orig, cur, rank, o, done)
    && (forall x <- done :: x in paths && PathIn(cur, paths[x], root, x))
    && exists c <- done :: Culprit(c, outcome, orig, cur, o)
  }

  /** A visit that halted, with `after` the node's properties once visited,
   *  leaves the walk `Halted` with that node as the culprit. */
  lemma HaltStep(orig: map<JNode, seq<Prop>>, cur: map<JNode, seq<Prop>>, rank: map<JNode, nat>, o: ScanOptions,
                 root: JNode, done: set<JNode>, node: JNode, rest: seq<JNode>, next: seq<JNode>,
                 paths: map<JNode, seq<JNode>>, after: seq<Prop>, outcome: ScanOutcome)
    requires node in cur && WalkState(orig, cur, rank, o, root, done, [node] + rest + next, paths)
    requires Pruned(cur[node], after, o, HazardFor(cur[node], orig))
    requires !CleanFor(cur[node], orig, o) && !CleanFor(after, orig, o) && !outcome.Scanned?
    requires outcome == Blocked ==> IsSafe(o)
    requires outcome.Threw? ==> ThrowReason(after, outcome, orig, o)
    ensures Halted(orig, cur[node := after], rank, o, root, done + {node}, paths, outcome)
  {
    var pending := [node] + rest + next;
    assert node in pending;
    FrameStep(orig, cur, rank, o, done, node, after);
    forall x <- done + {node} ensures x in paths && PathIn(cur[node := after], paths[x], root, x) {
      WitnessedKept(paths, cur, x, root, done, node, after);
    }
    assert Culprit(node, outcome, orig, cur[node := after], o);
  }

  /** Every queued node has a recorded path. */
  lemma WalkPaths(orig: map<JNode, seq<Prop>>, cur: map<JNode, seq<Prop>>, rank: map<JNode, nat>, o: ScanOptions,
                  root: JNode, done: set<JNode>, node: JNode, rest: seq<JNode>, next: seq<JNode>,
                  paths: map<JNode, seq<JNode>>)
    requires WalkState(orig, cur, rank, o, root, done, [node] + rest + next, paths)
    ensures node in paths
  {
    assert node in [node] + rest + next;
  }

  /** The walk once the checks on `node` have answered `v` and left its
   *  properties `after`, as `Inspect` promises. */
  lemma VisitStep(orig: map<JNode, seq<Prop>>, cur: map<JNode, seq<Prop>>, rank: map<JNode, nat>, o: ScanOptions,
                  root: JNode, done: set<JNode>, node: JNode, rest: seq<JNode>, next: seq<JNode>,
                  paths: map<JNode, seq<JNode>>, after: seq<Prop>, v: Verdict,
                  cur': map<JNode, seq<Prop>>, next': seq<JNode>, paths': map<JNode, seq<JNode>>)
    requires node in cur && WalkState(orig, cur, rank, o, root, done, [node] + rest + next, paths)
    requires Inspected(cur[node], after, v, orig, o)
    requires cur' == cur[node := after]
    requires v.Pass? ==> node in paths && next' == next + Kids(after) && paths' == Extend(paths, node, Kids(after))
    requires v.Halt? ==> paths' == paths
    ensures v.Pass? ==> WalkState(orig, cur', rank, o, root, done + {node}, rest + next', paths')
    ensures v.Halt? ==> Halted(orig, cur', rank, o, root, done + {node}, paths', v.outcome)
  {
    if v.Halt? {
      HaltStep(orig, cur, rank, o, root, done, node, rest, next, paths, after, v.outcome);
    } else {
      WalkStep(orig, cur, rank, o, root, done, node, rest, next, paths, after);
    }
  }

  /** One node of the walk: the two checks, then, when they pass, its
   *  object values queued for the next level (index.js:84-115). */
  method Visit(node: JNode, o: ScanOptions, next: seq<JNode>, ghost orig: map<JNode, seq<Prop>>,
               ghost g: set<JNode>, ghost cur: map<JNode, seq<Prop>>)
    returns (v: Verdict, next': seq<JNode>)
    requires forall t <- ConstructorTarget(node.props) ::
      t != node && t in orig && HasOwn(t.props, PrototypeKey) == HasOwn(orig[t], PrototypeKey)
    requires Snapshot(g, cur) && node in g
    modifies node
    ensures Inspected(old(node.props), node.props, v, orig, o)
    ensures v.Pass? ==> next' == next + Kids(node.props)
    ensures Snapshot(g, cur[node := node.props])
  {
    v := Inspect(node, o, orig);
    next' := next;
    if v.Pass? {
      next' := PushKids(node, next);
    }
  }

  /** The walk's queue, split at its first node. */
  lemma QueueSplit(rest: seq<JNode>, next: seq<JNode>)
    requires |rest| > 0
    ensures rest + next == [rest[0]] + rest[1..] + next
  {
  }

  /** The object values of a node of this level rank below the next level's bound. */
  lemma RanksStep(orig: map<JNode, seq<Prop>>, cur: map<JNode, seq<Prop>>, rank: map<JNode, nat>, o: ScanOptions,
                  done: set<JNode>, root: JNode, node: JNode, level: nat, before: seq<JNode>, next: seq<JNode>)
    requires Frame(orig, cur, rank, o, done) && node in orig && root in rank && rank[node] + level <= rank[root]
    requires forall x <- before :: x in rank && rank[x] + level + 1 <= rank[root]
    requires next == before + Kids(cur[node])
    ensures forall x <- next :: x in rank && rank[x] + level + 1 <= rank[root]
  {
    RankedKids(orig, rank, node);
    PrunedKids(orig[node], cur[node], o, HazardFor(orig[node], orig));
    forall x <- next ensures x in rank && rank[x] + level + 1 <= rank[root] {
      assert x in before || x in Kids(cur[node]);
    }
  }

  /** The walk and the rank bounds of the level once `node`, the head of the
   *  level's queue, has been visited with verdict `v` and left with
   *  properties `after`. */
  lemma LevelStep(orig: map<JNode, seq<Prop>>, cur: map<JNode, seq<Prop>>, rank: map<JNode, nat>, o: ScanOptions,
                  root: JNode, done: set<JNode>, node: JNode, rest: seq<JNode>, before: seq<JNode>,
                  paths: map<JNode, seq<JNode>>, after: seq<Prop>, v: Verdict, next: seq<JNode>, level: nat)
    requires node in cur && WalkState(orig, cur, rank, o, root, done, [node] + rest + before, paths)
    requires root in rank && node in rank && rank[node] + level <= rank[root]
    requires forall x <- before :: x in rank && rank[x] + level + 1 <= rank[root]
    requires Inspected(cur[node], after, v, orig, o)
    requires v.Pass? ==> next == before + Kids(after)
    ensures v.Pass? ==> node in paths
    ensures v.Pass? ==>
      WalkState(orig, cur[node := after], rank, o, root, done + {node}, rest + next, Extend(paths, node, Kids(after)))
    ensures v.Pass? ==> forall x <- next :: x in rank && rank[x] + level + 1 <= rank[root]
    ensures v.Halt? ==> Halted(orig, cur[node := after], rank, o, root, done + {node}, paths, v.outcome)
  {
    if v.Pass? {
      WalkPaths(orig, cur, rank, o, root, done, node, rest, before, paths);
      VisitStep(orig, cur, rank, o, root, done, node, rest, before, paths, after, v,
                cur[node := after], next, Extend(paths, node, Kids(after)));
      RanksStep(orig, cur[node := after], rank, o, done + {node}, root, node, level, before, next);
    } else {
      VisitStep(orig, cur, rank, o, root, done, node, rest, before, paths, after, v, cur[node := after], next, paths);
    }
  }

  /** One level of the walk, `for (const node of nodes)`: visits the nodes
   *  in order and queues their object values as the next level. */
  method ScanLevel(nodes: seq<JNode>, o: ScanOptions, ghost level: nat, ghost g: set<JNode>,
                   ghost orig: map<JNode, seq<Prop>>, ghost cur: map<JNode, seq<Prop>>, ghost rank: map<JNode, nat>,
                   ghost root: JNode, ghost done: set<JNode>, ghost paths: map<JNode, seq<JNode>>)
    returns (v: Verdict, next: seq<JNode>, ghost cur': map<JNode, seq<Prop>>, ghost done': set<JNode>,
             ghost paths': map<JNode, seq<JNode>>)
    requires Snapshot(g, cur) && WalkState(orig, cur, rank, o, root, done, nodes, paths)
    requires root in rank && forall x <- nodes :: x in rank && rank[x] + level <= rank[root]
    modifies g
    ensures Snapshot(g, cur')
    ensures v.Pass? ==> WalkState(orig, cur', rank, o, root, done', next, paths')
    ensures v.Pass? ==> forall x <- next :: x in rank && rank[x] + level + 1 <= rank[root]
    ensures v.Halt? ==> Halted(orig, cur', rank, o, root, done', paths', v.outcome)
  {
    next, cur', done', paths' := [], cur, done, paths;
    var rest := nodes;
    assert rest + next == nodes;
    while |rest| > 0
      invariant forall x <- rest :: x in rank && rank[x] + level <= rank[root]
      invariant forall x <- next :: x in rank && rank[x] + level + 1 <= rank[root]
      invariant Snapshot(g, cur')
      invariant WalkState(orig, cur', rank, o, root, done', rest + next, paths')
    {
      var node := rest[0];
      ghost var before, cur0, paths0 := next, cur', paths';
      QueueSplit(rest, next);
      assert node in rest;
      rest := rest[1..];
      TargetFacts(orig, cur0, rank, o, done', node);
      assert node.props == cur0[node];
      v, next := Visit(node, o, next, orig, g, cur0);
      cur' := cur0[node := node.props];
      LevelStep(orig, cur0, rank, o, root, done', node, rest, before, paths0, node.props, v, next, level);
      if v.Halt? {
        done' := done' + {node};
        return;
      }
      paths' := Extend(paths0, node, Kids(node.props));
      done' := done' + {node};
    }
    assert rest + next == next;
    v := Pass;
  }

  /** The walk state of a walk that has only queued the root. */
  lemma WalkStart(orig: map<JNode, seq<Prop>>, rank: map<JNode, nat>, o: ScanOptions, root: JNode)
    requires Ranked(orig, rank) && root in orig
    ensures WalkState(orig, orig, rank, o, root, {}, [root], map[root := [root]])
  {
    assert PathIn(orig, [root], root, root);
    assert Witnessed(map[root := [root]], orig, root, root, {});
  }

  /** The walk only deletes, so a path in the recorded properties was a path
   *  in the original ones. */
  lemma PathInOrig(orig: map<JNode, seq<Prop>>, cur: map<JNode, seq<Prop>>, rank: map<JNode, nat>, o: ScanOptions,
                   done: set<JNode>, p: seq<JNode>, src: JNode, dst: JNode)
    requires Frame(orig, cur, rank, o, done) && PathIn(cur, p, src, dst)
    ensures PathIn(orig, p, src, dst)
  {
    forall i | 0 <= i < |p| - 1 ensures p[i] in orig && p[i + 1] in Kids(orig[p[i]]) {
      assert NodeFrame(orig, cur, o, done, p[i]);
      PrunedKids(orig[p[i]], cur[p[i]], o, HazardFor(orig[p[i]], orig));
    }
  }

  /** What a walk that ran out of pending nodes has established, in the heap. */
  lemma WalkEnd(g: set<JNode>, orig: map<JNode, seq<Prop>>, cur: map<JNode, seq<Prop>>, rank: map<JNode, nat>,
                o: ScanOptions, root: JNode, done: set<JNode>, paths: map<JNode, seq<JNode>>)
    requires Snapshot(g, cur) && WalkState(orig, cur, rank, o, root, done, [], paths)
    ensures root in done && Closed(done) && done <= g
    ensures forall v <- done :: Clean(v, o) && v in paths && IsPath(paths[v], root, v)
    ensures forall v <- done :: PathIn(orig, paths[v], root, v)
    ensures forall p, x | IsPath(p, root, x) :: Clean(x, o)
    ensures forall n <- g :: Pruned(orig[n], n.props, o, HazardFor(orig[n], orig))
    ensures forall n <- g :: n !in done || CleanFor(orig[n], orig, o) ==> n.props == orig[n]
    ensures (forall v <- done :: CleanFor(orig[v], orig, o)) ==> forall n <- g :: n.props == orig[n]
  {
    forall v <- done ensures Clean(v, o) && v in paths && IsPath(paths[v], root, v) {
      CleanIsCleanFor(g, orig, cur, rank, o, done, v);
      PathInHeap(g, cur, paths[v], root, v);
    }
    forall v <- done ensures PathIn(orig, paths[v], root, v) {
      PathInOrig(orig, cur, rank, o, done, paths[v], root, v);
    }
    forall p, x | IsPath(p, root, x) ensures Clean(x, o) {
      ReachableInClosed(done, p, root, x);
    }
    forall n <- g ensures Pruned(orig[n], n.props, o, HazardFor(orig[n], orig)) &&
                          (n !in done || CleanFor(orig[n], orig, o) ==> n.props == orig[n]) {
      assert NodeFrame(orig, cur, o, done, n);
    }
  }

  /** What a walk that halted has established, in the heap. */
  lemma HaltEnd(g: set<JNode>, orig: map<JNode, seq<Prop>>, cur: map<JNode, seq<Prop>>, rank: map<JNode, nat>,
                o: ScanOptions, root: JNode, done: set<JNode>, paths: map<JNode, seq<JNode>>, outcome: ScanOutcome)
    requires Snapshot(g, cur) && Halted(orig, cur, rank, o, root, done, paths, outcome)
    ensures done <= g && !outcome.Scanned?
    ensures forall n <- g :: Pruned(orig[n], n.props, o, HazardFor(orig[n], orig))
    ensures forall n <- g :: n !in done || CleanFor(orig[n], orig, o) ==> n.props == orig[n]
    ensures forall x <- done :: x in paths && IsPath(paths[x], root, x)
    ensures forall x <- done :: PathIn(orig, paths[x], root, x)
    ensures exists c <- done :: !CleanFor(orig[c], orig, o)
    ensures outcome == Blocked ==> IsSafe(o) && exists c <- done :: !Clean(c, o)
    ensures outcome.Threw? ==> outcome.error == SyntaxError && !IsSafe(o) && exists c <- done ::
      (Throws(o.protoAction) && OwnsProto(c)) || (Throws(o.constructorAction) && ConstructorHazard(c))
  {
    forall x <- done ensures x in paths && IsPath(paths[x], root, x) && PathIn(orig, paths[x], root, x) {
      PathInHeap(g, cur, paths[x], root, x);
      PathInOrig(orig, cur, rank, o, done, paths[x], root, x);
    }
    forall n <- g ensures Pruned(orig[n], n.props, o, HazardFor(orig[n], orig)) &&
                          (n !in done || CleanFor(orig[n], orig, o) ==> n.props == orig[n]) {
      assert NodeFrame(orig, cur, o, done, n);
    }
    var c :| c in done && Culprit(c, outcome, orig, cur, o);
    CleanIsCleanFor(g, orig, cur, rank, o, done, c);
    TargetFacts(orig, cur, rank, o, done, c);
  }

  /** The walk of `filter` from an object root (index.js:80-117). */
  method Walk(root: JNode, o: ScanOptions, ghost g: set<JNode>, ghost rank: map<JNode, nat>)
    returns (r: ScanOutcome, ghost visited: set<JNode>, ghost paths: map<JNode, seq<JNode>>)
    requires Graph(g, rank) && root in g
    modifies g
    ensures forall n <- g :: Pruned(old(n.props), n.props, o, old(ConstructorHazard(n)))
    ensures forall n <- g :: n !in visited || old(Clean(n, o)) ==> n.props == old(n.props)
    ensures visited <= g
    ensures forall v <- visited :: v in paths && IsPath(paths[v], root, v)
    ensures forall v <- visited :: (forall i | 0 <= i < |paths[v]| :: paths[v][i] in g) && old(IsPath(paths[v], root, v))
    ensures r == Scanned(JObj(root)) || r == Blocked || r == Threw(SyntaxError)
    ensures r.Scanned? ==>
      root in visited && Closed(visited) && (forall v <- visited :: Clean(v, o)) &&
      forall p, x | IsPath(p, root, x) :: Clean(x, o)
    ensures r == Blocked ==> IsSafe(o) && exists v <- visited :: !Clean(v, o)
    ensures r == Threw(SyntaxError) ==> !IsSafe(o) && exists v <- visited ::
      (Throws(o.protoAction) && OwnsProto(v)) || (Throws(o.constructorAction) && ConstructorHazard(v))
    ensures (forall v <- visited :: old(Clean(v, o))) ==> r.Scanned? && forall n <- g :: n.props == old(n.props)
    ensures (forall p, x | x in g && (forall i | 0 <= i < |p| :: p[i] in g) && old(IsPath(p, root, x)) :: old(Clean(x, o))) ==>
      r.Scanned? && forall n <- g :: n.props == old(n.props)
  {
    ghost var orig := map n | n in g :: n.props;
    ghost var cur := orig;
    assert Snapshot(g, orig);
    GraphRanked(g, rank, orig);
    assert Frame(orig, orig, rank, o, {});
    forall n <- g ensures Clean(n, o) == CleanFor(orig[n], orig, o) && ConstructorHazard(n) == HazardFor(orig[n], orig) {
      CleanIsCleanFor(g, orig, orig, rank, o, {}, n);
    }
    var next: seq<JNode> := [root];
    ghost var done: set<JNode> := {};
    ghost var level: nat := 0;
    paths := map[root := [root]];
    WalkStart(orig, rank, o, root);
    r := Scanned(JObj(root));
    while |next| > 0
      invariant Snapshot(g, cur)
      invariant WalkState(orig, cur, rank, o, root, done, next, paths)
      invariant root in rank && forall x <- next :: x in rank && rank[x] + level <= rank[root]
      invariant level <= rank[root] + 1
      decreases rank[root] + 1 - level
    {
      assert next[0] in next;
      var verdict;
      verdict, next, cur, done, paths := ScanLevel(next, o, level, g, orig, cur, rank, root, done, paths);
      if verdict.Halt? {
        HaltEnd(g, orig, cur, rank, o, root, done, paths, verdict.outcome);
        r := verdict.outcome;
        break;
      }
      level := level + 1;
    }
    if r.Scanned? {
      WalkEnd(g, orig, cur, rank, o, root, done, paths);
    }
    visited := done;
    // every visited node was reachable before the walk
    forall v <- visited ensures (forall i | 0 <= i < |paths[v]| :: paths[v][i] in g) && old(IsPath(paths[v], root, v)) {
      var p := paths[v];
      assert PathIn(orig, p, root, v);
      forall i | 0 <= i < |p| - 1 ensures p[i] in g && old(p[i + 1] in Kids(p[i].props)) {
        assert p[i] in orig;
      }
    }
  }

  /** `filter(obj, options)` of index.js:77-118. It deletes nothing but what a
   *  removing category finds; on success every node it visited, and so every
   *  node reachable from the root, is free of the inspected violations; a
   *  `null` or an exception is answered only for a violation found on a
   *  reachable node; and a graph that is already clean comes back untouched. */
  method Filter(obj: JVal, o: ScanOptions, ghost g: set<JNode>, ghost rank: map<JNode, nat>)
    returns (r: ScanOutcome, ghost visited: set<JNode>, ghost paths: map<JNode, seq<JNode>>)
    requires Graph(g, rank)
    requires obj.JObj? ==> obj.node in g
    modifies g
    ensures forall n <- g :: Pruned(old(n.props), n.props, o, old(ConstructorHazard(n)))
    ensures forall n <- g :: n !in visited || old(Clean(n, o)) ==> n.props == old(n.props)
    ensures visited <= g
    ensures obj.JObj? ==> forall v <- visited :: v in paths && IsPath(paths[v], obj.node, v)
    ensures r == Threw(TypeError) <==> obj == JNull && (Checks(o.protoAction) || Checks(o.constructorAction))
    ensures !obj.JObj? ==> visited == {} && (r.Scanned? || r == Threw(TypeError))
    ensures r.Scanned? ==> r.value == obj
    ensures r.Scanned? && obj.JObj? ==>
      obj.node in visited && Closed(visited) && (forall v <- visited :: Clean(v, o)) &&
      forall p, x | IsPath(p, obj.node, x) :: Clean(x, o)
    ensures r == Blocked ==> IsSafe(o) && obj.JObj? && exists v <- visited :: !Clean(v, o)
    ensures r == Threw(SyntaxError) ==> !IsSafe(o) && obj.JObj? && exists v <- visited ::
      (Throws(o.protoAction) && OwnsProto(v)) || (Throws(o.constructorAction) && ConstructorHazard(v))
    ensures obj.JObj? && (forall v <- visited :: old(Clean(v, o))) ==>
      r.Scanned? && forall n <- g :: n.props == old(n.props)
    ensures obj.JObj? ==>
      (forall p, x | x in g && (forall i | 0 <= i < |p| :: p[i] in g) && old(IsPath(p, obj.node, x)) :: old(Clean(x, o))) ==>
      r == Scanned(obj) && forall n <- g :: n.props == old(n.props)
  {
    if !obj.JObj? {
      visited, paths := {}, map[];
      if obj == JNull && (Checks(o.protoAction) || Checks(o.constructorAction)) {
        // `Object.prototype.hasOwnProperty.call(null, ...)` throws
        return Threw(TypeError), visited, paths;
      }
      // a primitive has no own `__proto__`, `constructor` or object values
      return Scanned(obj), visited, paths;
    }
    r, visited, paths := Walk(obj.node, o, g, rank);
  }
}
