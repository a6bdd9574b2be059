# secure-json-parse, modelled in Dafny

secure-json-parse is a drop-in replacement for `JSON.parse` that guards
against prototype poisoning. It decodes the text with the engine's own
decoder. When the decoded value is an object and a cheap test on the raw text
suggests a dangerous key, it walks the object graph breadth-first and handles
every node that owns:

- a `__proto__` property, or
- a `constructor` property whose value is an object owning `prototype`.

Depending on the options it refuses such a node (SyntaxError), deletes the
property in place, or, in safe mode, returns `null`.

The Dafny project models this core:

- `values.dfy` (`JsValues`): the arguments in the reviver and options positions, and JavaScript truthiness of option values.
- `graph.dfy` (`JsonGraph`): the decoded value as a heap graph. A `class JNode` holds its own properties as a sequence; there are lookup and `delete` on properties, paths, and `Build`, which allocates the graph of a decoded tree the way `JSON.parse` does.
- `prescreen.dfy`, `prescreen_lemmas.dfy` (`PreScreen`, `PreScreenFacts`): the two regular expressions of index.js and the one of lib/index.js. Each is a hand-written matcher over `seq<char>` together with a reference definition of the strings the expression matches, and the two are proved equal.
- `scanner.dfy` (`Scanner`): `filter`, the in-place breadth-first scanner. The `next` queue is rebuilt level by level, every visited node is inspected and then cleaned or refused, and every object value is pushed.
- `parser.dfy` (`Parser`): `_parse`, `parse`, `safeParse` and the exported `scan`. This covers argument normalisation, BOM stripping, pass-through of primitives, the `'ignore'` fast path and the choice of pre-screens. `RouteOf` is a pure description of where a call of `_parse` ends up; `Parse` is proved against it.
- `legacy.dfy` (`Legacy`): the historical lib/index.js. It has varargs normalisation, `'ignore'` checked first, a lower-case-only pre-screen without the colon, and a scan that only knows `__proto__` and throws unless the action is `'remove'`.

Acyclicity and termination use a ghost rank map: every reference points to a node of smaller rank. The graph handed to `scan` may be a DAG, in which case a shared node is visited more than once, as in the source. The decoder is modelled as yielding a tree (see "## Left out").

## Model

| member | source | states |
|---|---|---|
| `JsonGraph.Get` | index.js:96-99 | `node[k]` on own properties: defined exactly when `k` is owned, and the result is the value of an own property `k` |
| `JsonGraph.Drop` | index.js:92 | `delete node[k]`: afterwards `k` is not owned, every remaining property was a property before, every property with another key is kept, and the list is unchanged when `k` was not owned |
| `JsonGraph.KidsAre` | index.js:109-114 | the values the walk pushes are exactly the object and array values of the node |
| `JsonGraph.Build` | index.js:36 | the value `JSON.parse` hands back is a freshly allocated acyclic graph that denotes the decoded tree; it is an object reference exactly when the tree is an object or array |
| `JsonGraph.ReachableInClosed` | index.js:80-116 | a node set closed under references contains everything reachable from its members |
| `PreScreenFacts.SuspectIsPattern` | index.js:4-5 | the hand-written matcher fires exactly on the texts in which a quote, a spelling of the key, a quote and the tail (`\s*:`, or nothing for lib/index.js) occur |
| `PreScreenFacts.MatchKeySound` | index.js:4 | when the key reader succeeds, the characters it consumed are a spelling of the key |
| `PreScreenFacts.MatchKeyComplete` | index.js:4 | every spelling of the key at a position is read by the key reader, which ends just past it |
| `PreScreenFacts.ProtoCharForms` | index.js:4 | each group of the `__proto__` pattern accepts the literal character or `\u00XX` with hex letters in either case, and nothing else |
| `PreScreenFacts.ConstructorCharForms` | index.js:5 | the same for the groups of the `constructor` pattern |
| `PreScreenFacts.SuspectOfSpelling` | index.js:4-5 | a quoted spelling of the key followed by its tail fires the pre-screen, whatever surrounds it |
| `PreScreenFacts.SpacedProtoKey` | index.js:4 | a quoted `__proto__` followed by any whitespace and a colon fires the `__proto__` pre-screen |
| `PreScreenFacts.ProtoValueIsNotKey` | index.js:4 | a quoted `__proto__` followed by `}` (a value, not a key) is no match at that position |
| `Scanner.Inspect` | index.js:85-107 | the two checks on one node: the outcome is a halt only on a violation of an inspected category; safe mode halts with `null`; `'error'` throws; otherwise the property is deleted. `constructor` is deleted only when it refers to an object owning `prototype`, a clean node is left as it was, and nothing else changes |
| `Scanner.DropKeepsGet` | index.js:92-99 | deleting `__proto__` does not change what `node.constructor` reads |
| `Scanner.PrunedKeepsOwn` | index.js:92 | what the scanner deletes leaves the ownership of every other key unchanged |
| `Scanner.PushKids` | index.js:109-114 | the `for...in` loop appends exactly the node's object and array values, in order, to the next level |
| `Scanner.Visit` | index.js:84-114 | one visit: the node passes the checks exactly when it is left clean, losing at most `__proto__` and a `constructor` that refers to an object owning `prototype`, and only in a removing category; when it passes, its object values are appended to the next level; every other node is untouched |
| `Scanner.ScanLevel` | index.js:81-115 | one level of the walk keeps the invariant over the whole level and queues the next level at a smaller rank bound |
| `Scanner.Walk` | index.js:78-117 | the walk of an object: it ends in the same root, in `null` (safe mode) or in a SyntaxError. Deletions are the only changes: `__proto__`, and `constructor` only where it refers to an object owning `prototype`, and only on visited nodes that showed the violation; unvisited and clean nodes are unchanged. On success every node reachable from the root is clean. `null` and SyntaxError each name a visited node with the violation. Every visited node was reachable from the root before the walk, so a graph whose reachable nodes are all clean comes back as the same root, unchanged |
| `Scanner.Filter` | index.js:77-118 | `filter` on any value: a primitive root is returned, except that `null` with an inspected category is the TypeError of `hasOwnProperty.call(null)`; objects as in `Walk`, with the same frame. Re-scanning is a no-op: when every node reachable from the root is already clean, the same root comes back and no node changes |
| `Parser.GateIsScanNeeded` | index.js:47-63 | the branches as written call `filter` exactly when the pre-screen of an inspected category matches; both `'ignore'` never scans, and an ignored category's pre-screen is never consulted |
| `Parser.NormalizeArgsFacts` | index.js:19-24 | normalisation never changes the function `JSON.parse` receives; the options in force are the options argument, or the reviver argument when no options are given |
| `Parser.ResolveActionFacts` | index.js:43-44 | a resolved action is truthy; it is `'ignore'` exactly when the options say so; any falsy options or field gives `'error'` |
| `Parser.DefaultOptions` | index.js:43-44 | without options both categories are refused; `{ safe: true }` adds safe mode |
| `Parser.StripBomFacts` | index.js:31-33 | exactly one leading U+FEFF is removed, any other text is unchanged |
| `Parser.PrimitivesPassThrough` | index.js:39-41 | `null` and every other primitive is returned as decoded, whatever the options |
| `Parser.ScanOnlyWhenSuspect` | index.js:47-63 | a scan happens only with a matching pre-screen of an inspected category and with the resolved options; with `constructor` ignored only the `__proto__` pre-screen decides |
| `Parser.DenotesSnapshot` | index.js:36 | a graph that denotes a tree still denotes it in a snapshot of its properties |
| `Parser.Parse` | index.js:17-67 | `_parse`/`parse` follow `RouteOf`. Malformed text throws SyntaxError. A pass-through returns the decoded graph untouched. A scan returns the same root with no reachable violation, or `null` in safe mode on a violation, or throws SyntaxError naming a violating node. Nodes only lose what their category deletes (`constructor` only when it referred to an object owning `prototype`), a clean document is returned unchanged, and TypeError never escapes (the decoder fails only with SyntaxError; reviver exceptions are not modelled) |
| `Parser.Sanitise` | index.js:66 | the final `filter` call and its outcome as `_parse` returns it |
| `Parser.SafeParse` | index.js:143-155 | `safeParse` returns `undefined` exactly when the text is malformed. Otherwise it returns the decoded value, unchanged, when no scan is needed. After a scan it returns either the decoded root or `null`: the root exactly when no node reachable from it owns `__proto__` or a `constructor` referring to an object owning `prototype`. It never changes the decoded graph, and `null` means the document was `null` or held a violation |
| `Parser.DirectOptionsFacts` | index.js:77 | the destructuring defaults of a direct `scan`: TypeError only for `null` options, `'error'` for absent fields; a `null` action deletes there, while `_parse` turns it into `'error'` |
| `Parser.Scan` | index.js:161 | the exported `scan`: `null` options throw TypeError and change nothing; otherwise `filter`'s guarantees under the destructured options: the same root comes back with no reachable violation, `null` and SyntaxError only for a visited violating node, only the offending properties of visited nodes deleted, and a graph whose reachable nodes are all clean returned unchanged, so a second scan is a no-op |
| `Legacy.LegacyCharForms` | lib/index.js:5 | the old pattern accepts `_` and `o` in lower case only |
| `Legacy.LegacyMatchesValue` | lib/index.js:5 | the old pattern needs no colon: a quoted `__proto__` value fires it too |
| `Legacy.LegacyArgsCases` | lib/index.js:13-15 | a single object argument is the options with no reviver; with two arguments they are the reviver and the options; the options default to `{}` and are never nullish |
| `Legacy.LegacyOptionsAgree` | lib/index.js:58-63 | the old per-node branch is `filter`'s `__proto__` branch with `'remove'` deleting, any other action throwing, no `constructor` check and no safe mode |
| `Legacy.LegacyScan` | lib/index.js:49-76 | under `'remove'` the old scan completes, leaves no reachable node owning `__proto__` and deletes nothing else. Under any other action it changes nothing, and it throws SyntaxError exactly when a reachable node owns `__proto__` |
| `Legacy.LegacyRouteCases` | lib/index.js:19-39 | `'ignore'` returns whatever was decoded, before the type test; primitives are returned; a scan needs the old pre-screen to match; only malformed text fails |
| `Legacy.LegacyParse` | lib/index.js:9-46 | the old `parse` follows `LegacyRouteOf`: the same object reference is returned after the scan, with `__proto__` removed everywhere under `'remove'`, and a SyntaxError exactly when a reachable node owns `__proto__` otherwise |

## Left out

- `JSON.parse` and the reviver are a parameter `decode` from the text and the reviver (when the argument is a function) to a decoded tree or a SyntaxError. What the decoder does with duplicate keys, and anything a reviver does, belongs to it.
- Pre-screen soundness is not proved: no statement says that every text whose decoded tree owns `__proto__` fires the pre-screen, since the decoder is abstract. The guarantees after a pass-through therefore say nothing about violations.
- Buffer input and its `toString` (index.js:26-28): the text is a string.
- Saving and restoring `Error.stackTraceLimit` (index.js:130-135, index.js:146-153), and the exception messages.
- `for...in` order: the walk visits own properties in the order the node holds them; JavaScript puts integer keys first. That order only decides which violation is met first. Inherited enumerable properties are not modelled.
- Cyclic graphs: `scan` requires an acyclic graph (a rank map). On a cycle the `while (next.length)` loop of index.js:80 never ends. `JSON.parse` without a reviver always yields a tree. A reviver, however, can return shared or cyclic structures, for example by linking a value to its holder (`this`). `_parse` would then hand a cyclic graph to `filter`. The decoder is modelled as yielding a tree, so such reviver output is not modelled.
- Exceptions thrown by a reviver are not modelled: the decoder fails only with SyntaxError.
- Values a reviver could return that JSON cannot express (functions, class instances, getters) are not modelled. So neither is `typeof node.constructor === 'object'` failing on a function.
- lib/index.js:58 calls `node.hasOwnProperty` directly, which an own property of that name shadows. The model tests own-key membership, as index.js:85 does.
- Options values: numbers are integers (NaN and fractions are not modelled); any object or function is one `Object`; only the truthiness of other arguments is kept.
- `safe: options && options.safe` with falsy options yields that falsy value; the model writes `Undefined` for it, since only `safe === true` is tested.
- test.js:189-195 expects `null` from `safeParse` on malformed text, but index.js:150-151 returns `undefined`. The model follows the code (`Parser.SafeParse`).
- The `\s` of index.js:4-5 is the full JavaScript whitespace set, not only JSON whitespace.
- Duplicate member names: the decoded tree may repeat a name, and `Build` then gives the node the property twice, which no JavaScript object can hold. `JSON.parse` keeps the last value of a repeated name, while `Get` reads the first. The decoder is abstract, so the model does not exclude such trees.
- `undefined` as a decoded value is not a `JVal`, so `scan(undefined)`, which throws TypeError in the source as `scan(null)` does, cannot be expressed. `JSON.parse` never yields `undefined` without a reviver.
- Test harnesses, type declarations and benchmarks are not part of this model.
