/** The values that cross the public interface of the parser: the argument
 *  passed in the reviver position or the options position, and the fields
 *  of an options record as the JavaScript engine sees them. */
module JsValues {

  datatype Option<+T> = None | Some(value: T)

  /** The property names the parser guards against. */
  const ProtoKey: string := "__proto__"
  const ConstructorKey: string := "constructor"
  const PrototypeKey: string := "prototype"

  /** The kinds of exception the parser lets escape. */
  datatype ErrorKind = SyntaxError | TypeError

  /** The value of one field of an options object. `Number` keeps only an
   *  integer (NaN and fractions are not modelled; only "is it zero" matters
   *  to the parser), and `Object` stands for any object or function. */
  datatype JsValue = Undefined | Null | Boolean(b: bool) | Number(n: int) | Text(s: string) | Object

  /** JavaScript truthiness, the test behind `a && b` and `a || b`. */
  predicate Truthy(v: JsValue) {
    match v
    case Undefined => false
    case Null => false
    case Boolean(b) => b
    case Number(n) => n != 0
    case Text(s) => s != ""
    case Object => true
  }

  /** The three fields of an options object the parser reads; a field that
   *  is absent reads as `Undefined`. */
  datatype OptionsRecord = OptionsRecord(protoAction: JsValue, constructorAction: JsValue, safe: JsValue)

  /** The record with no fields set: `{}`. */
  const EmptyRecord := OptionsRecord(Undefined, Undefined, Undefined)

  /** A reviver function supplied by the caller, known only by its identity;
   *  its effect on the decoded value belongs to the external decoder. */
  datatype Reviver = Reviver(id: nat)

  /** A value passed in the reviver or the options position: `undefined`
   *  (also an omitted argument), `null`, a boolean, number or string
   *  (only its truthiness matters), a function, or an object, whose
   *  option fields are given. */
  datatype Arg = Undef | NullArg | Primitive(truthy: bool) | Callable(f: Reviver) | Record(o: OptionsRecord)

  predicate ArgTruthy(a: Arg) {
    match a
    case Undef => false
    case NullArg => false
    case Primitive(t) => t
    case Callable(_) => true
    case Record(_) => true
  }

  /** `a == null`: loose equality with null holds for `null` and `undefined`. */
  predicate IsNullish(a: Arg) {
    a.Undef? || a.NullArg?
  }

  /** `a !== null && typeof a === 'object'`: functions answer 'function' and
   *  `null` is excluded by hand, so only a record passes. */
  predicate IsObjectArg(a: Arg) {
    a.Record?
  }

  /** Reading the option fields of a value that is not `null` or `undefined`:
   *  a primitive or a function has none of them, so every field reads as
   *  `undefined`. */
  function FieldsOf(a: Arg): (r: OptionsRecord)
    ensures a.Record? ==> r == a.o
    ensures !a.Record? ==> r == EmptyRecord
  {
    if a.Record? then a.o else EmptyRecord
  }

  /** What `JSON.parse(text, reviver)` does with the reviver argument: it
   *  calls it only when it is a function. */
  function ReviverOf(a: Arg): (r: Option<Reviver>)
    ensures r.Some? <==> a.Callable?
    ensures a.Callable? ==> r.value == a.f
  {
    if a.Callable? then Some(a.f) else None
  }
}
