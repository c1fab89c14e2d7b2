/**
 * The dashboard's local store: one shared `error` slot and the single mutation that fills it
 * from a failure, preferring the server's response body when there is a truthy one.
 */
module LocalStore {
  import opened Wrappers
  import opened Js

  /** What `state()` returns for `error`. */
  const InitialError: JsValue := Str("")

  /**
   * The value `error(state, e)` stores, or the exception it throws: reading `e.response`
   * throws when `e` is `null` or `undefined`; `&&` reads `.data` only of a truthy response.
   */
  function Captured(e: JsValue): Result<JsValue, JsValue> {
    match Member(e, "response")
    case Failure(thrown) => Failure(thrown)
    case Success(response) =>
      if !Truthy(response) then Success(e)
      else
        match Member(response, "data")
        case Failure(thrown) => Failure(thrown)
        case Success(data) => Success(if Truthy(data) then data else e)
  }

  /** A failure carrying a truthy response body is recorded as that body. */
  lemma {:induction false} CapturedBody(e: JsValue, data: JsValue)
    requires e.Obj? && "response" in e.props
    requires e.props["response"].Obj? && "data" in e.props["response"].props
    requires data == e.props["response"].props["data"] && Truthy(data)
    ensures Captured(e) == Success(data)
  {
  }

  /** Without a truthy body (no response, a falsy response, falsy data), the raw value is kept. */
  lemma CapturedRaw(e: JsValue)
    requires !(e.Undefined? || e.Null?)
    requires !Truthy(Member(e, "response").value) ||
             !Truthy(Member(Member(e, "response").value, "data").value)
    ensures Captured(e) == Success(e)
  {
  }

  /** Only a `null` or `undefined` failure makes the mutation throw. */
  lemma CapturedThrows(e: JsValue)
    ensures Captured(e).Failure? <==> (e.Undefined? || e.Null?)
  {
  }

  /** A server error body is recorded, and a plain transport error string as itself. */
  lemma CapturedScenarios()
    ensures Captured(Obj(map["response" := Obj(map["data" := Obj(map["message" := Str("not found")])])]))
            == Success(Obj(map["message" := Str("not found")]))
    ensures Captured(Str("timeout")) == Success(Str("timeout"))
  {
  }

  class Store {
    var error: JsValue

    constructor ()
      ensures error == InitialError
    {
      error := InitialError;
    }

    /** The `error` mutation. A throw leaves the slot as it was and reaches the caller. */
    method MutateError(e: JsValue) returns (r: Outcome<JsValue>)
      modifies this
      ensures Captured(e).Success? ==> r == Pass && error == Captured(e).value
      ensures Captured(e).Failure? ==> r == Fail(Captured(e).error) && error == old(error)
    {
      var response := Member(e, "response");
      if response.Failure? {
        return Fail(response.error);
      }
      if Truthy(response.value) {
        var data := Member(response.value, "data");
        if data.Success? && Truthy(data.value) {
          error := data.value;
          return Pass;
        }
      }
      error := e;
      r := Pass;
    }
  }
}
