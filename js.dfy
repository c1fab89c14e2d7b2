/**
 * The JavaScript values the dashboard store holds and inspects: JSON-shaped data plus
 * `undefined`, with JavaScript's truthiness and property access.
 */
module Js {
  import opened Wrappers

  datatype JsValue =
    | Undefined
    | Null
    | Bool(b: bool)
    | Num(n: int)
    | Str(s: string)
    | Arr(elems: seq<JsValue>)
    | Obj(props: map<string, JsValue>)

  /** The exception JavaScript throws when a property of `null` or `undefined` is read. */
  const TypeError: JsValue := Obj(map["name" := Str("TypeError")])

  /** JavaScript truthiness: `undefined`, `null`, `false`, `0` and `""` are falsy. */
  predicate Truthy(v: JsValue) {
    match v
    case Undefined => false
    case Null => false
    case Bool(b) => b
    case Num(n) => n != 0
    case Str(s) => s != ""
    case Arr(_) => true
    case Obj(_) => true
  }

  /**
   * The expression `v.key`: throws TypeError on `null` and `undefined`, reads an object's own
   * property, gives the length of a string or array for "length", and `undefined` otherwise.
   */
  function Member(v: JsValue, key: string): (r: Result<JsValue, JsValue>)
    ensures r.Failure? <==> (v.Undefined? || v.Null?)
    ensures r.Failure? ==> r.error == TypeError
    ensures v.Obj? ==> r == Success(if key in v.props then v.props[key] else Undefined)
    ensures Truthy(v) && !v.Obj? && key != "length" ==> r == Success(Undefined)
  {
    match v
    case Undefined => Failure(TypeError)
    case Null => Failure(TypeError)
    case Obj(props) => Success(if key in props then props[key] else Undefined)
    case Str(s) => Success(if key == "length" then Num(|s|) else Undefined)
    case Arr(elems) => Success(if key == "length" then Num(|elems|) else Undefined)
    case _ => Success(Undefined)
  }
}
