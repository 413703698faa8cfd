/**
 * The `POST /sign` handler: take `payload` from the JSON body, insist that it is
 * an object, sign it, and answer 200 with the result or 400 with what was thrown.
 */
module SignRoute {
  import opened Wrappers
  import opened JsValues
  import opened Signing

  const PayloadErrorMessage: string := "Body must be { payload: object }"

  /** The reply: 200 with `{signature, stringToSign}`, or 400 with the error. */
  datatype SignResponse = Signed200(out: Signed) | BadRequest400(error: Thrown)

  /** `const { payload } = req.body || {}`; `body` is Undefined when no JSON body was parsed. */
  function PayloadOf(body: JsValue): (p: JsValue)
    ensures body.Def? && body.v.Obj? && "payload" in body.v.props ==> p == Def(body.v.props["payload"])
    ensures !(body.Def? && body.v.Obj? && "payload" in body.v.props) ==> p == Undefined
  {
    match Member(Or(body, Def(Obj(map[]))), "payload")
    case Ok(p) => p
    case Err(_) => Undefined  // unreachable: the operand of the read is never undefined or null
  }

  /** The check `!payload || typeof payload !== 'object'`, negated: the payload is
      accepted exactly when it is a JSON object or an array. */
  function AcceptsPayload(p: JsValue): (ok: bool)
    ensures ok <==> p.Def? && (p.v.Obj? || p.v.Arr?)
  {
    Truthy(p) && TypeOf(p) == "object"
  }

  /** The whole handler, with the configured key `pk`. */
  function HandleSign(body: JsValue, pk: string, lib: Library): (resp: SignResponse)
    ensures !AcceptsPayload(PayloadOf(body)) ==> resp == BadRequest400(Error(PayloadErrorMessage))
    ensures resp.Signed200? ==>
              AcceptsPayload(PayloadOf(body)) && Sign(PayloadOf(body), pk, lib) == Ok(resp.out)
    ensures AcceptsPayload(PayloadOf(body)) && Sign(PayloadOf(body), pk, lib).Ok? ==>
              resp == Signed200(Sign(PayloadOf(body), pk, lib).value)
    ensures AcceptsPayload(PayloadOf(body)) && Sign(PayloadOf(body), pk, lib).Err? ==>
              resp == BadRequest400(Sign(PayloadOf(body), pk, lib).error)
  {
    var payload := PayloadOf(body);
    if !AcceptsPayload(payload) then BadRequest400(Error(PayloadErrorMessage))
    else
      match Sign(payload, pk, lib)
      case Ok(out) => Signed200(out)
      case Err(e) => BadRequest400(e)
  }
}
