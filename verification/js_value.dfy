/** The JavaScript values a caller can pass as the key-attribute argument. */
module JsValue {

  /** `Obj` is a plain object (its constructor is `Object`); its fields are
      listed in the object's enumeration order. `Instance` is any other object:
      a class instance, a `Date`, a `Map`, an object without a prototype.
      Numbers are modelled by their integer values. */
  datatype Value =
    | Undefined
    | Null
    | Bool(b: bool)
    | Num(n: int)
    | Str(s: string)
    | Arr(items: seq<Value>)
    | Obj(fields: seq<Field>)
    | Instance

  /** One named property of a plain object. */
  type Field = (string, Value)

  /** The values that `!v` holds of. */
  predicate Falsy(v: Value) {
    v.Undefined? || v.Null? || v == Bool(false) || v == Num(0) || v == Str("")
  }

  predicate HasName(fields: seq<Field>, name: string) {
    exists k :: 0 <= k < |fields| && fields[k].0 == name
  }

  /** The string the `Object` constructor converts to under V8. Loose
      (in)equality compares `Object` with a string through this text. */
  const ObjectSource: string := "function Object() { [native code] }"

  /** Whether `v.constructor != Object` is false for a plain object whose own
      `constructor` property holds `v`. A function value, `Object` itself
      included, has no representation here; among the values that do, only
      the string `ObjectSource` is loosely equal to `Object`. */
  predicate LooselyObject(v: Value) {
    v == Str(ObjectSource)
  }

  /** What `objKeyAttributes.constructor` reads of a plain object: the
      inherited `Object` unless an own `constructor` property shadows it. */
  predicate ConstructorIsObject(fields: seq<Field>) {
    forall k :: 0 <= k < |fields| && fields[k].0 == "constructor" ==> LooselyObject(fields[k].1)
  }

  /** Property names of an object are pairwise distinct. */
  predicate UniqueNames(fields: seq<Field>) {
    forall i, j :: 0 <= i < j < |fields| ==> fields[i].0 != fields[j].0
  }
}
