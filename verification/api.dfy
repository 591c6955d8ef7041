/** What the route handlers share: request values, the acting user, the error
    replies, the role gate and the request-field checks of the validation layer. */
module Api {
  import opened Wrappers

  /** A JSON scalar as it arrives in a request body or is stored in a column. */
  datatype Json = JNull | JBool(b: bool) | JNum(n: real) | JStr(s: string)

  /** JavaScript truthiness of a JSON scalar: `null`, `false`, `0` and `""` are falsy. */
  predicate Truthy(v: Json) {
    match v
    case JNull => false
    case JBool(b) => b
    case JNum(n) => n != 0.0
    case JStr(s) => s != ""
  }

  /** `x || null` on an optional request field: an absent or falsy value is stored as NULL. */
  function OrNull(v: Option<Json>): (r: Json)
    ensures r == JNull <==> (v.None? || !Truthy(v.value))
    ensures r != JNull ==> v == Some(r) && Truthy(r)
  {
    if v.Some? && Truthy(v.value) then v.value else JNull
  }

  /** The authenticated user a request runs as (its id and its role name). */
  datatype Actor = Actor(id: string, role: string)

  /** Why a request was refused, one constructor per distinct reply of the handlers. */
  datatype Reason =
    | Forbidden
    | ValidationFailed(fields: seq<string>)
    | InsufficientFunds(available: real, requested: real)
    | CaseNumberExists
    | NothingToUpdate
    | NotFound

  /** A refused request: the HTTP status and the reason carried in the body. */
  datatype HttpError = HttpError(status: int, reason: Reason)

  /** The reply of the `authorize(...roles)` middleware when the role is not listed. */
  const ForbiddenError := HttpError(403, Forbidden)

  /** The `authorize(...roles)` middleware: the request passes iff the actor's role is listed. */
  predicate Authorized(actor: Actor, roles: seq<string>) {
    actor.role in roles
  }

  /** `body(f).notEmpty()` on a text field; an absent field is checked as "". */
  predicate NotEmpty(s: string) {
    s != ""
  }

  predicate IsHexDigit(c: char) {
    ('0' <= c <= '9') || ('a' <= c <= 'f') || ('A' <= c <= 'F')
  }

  /** `body(f).isUUID()`: 8-4-4-4-12 hexadecimal digits separated by hyphens, any case. */
  predicate IsUuid(s: string) {
    && |s| == 36
    && (forall i :: 0 <= i < 36 && i in {8, 13, 18, 23} ==> s[i] == '-')
    && (forall i :: 0 <= i < 36 && i !in {8, 13, 18, 23} ==> IsHexDigit(s[i]))
  }

  /** The names of the failing checks, in the order the checks are declared. */
  function FailedFields(checks: seq<(string, bool)>): (r: seq<string>)
    ensures |r| <= |checks|
    ensures forall f :: f in r <==> exists i :: 0 <= i < |checks| && checks[i].0 == f && !checks[i].1
    ensures r == [] <==> forall i :: 0 <= i < |checks| ==> checks[i].1
  {
    if |checks| == 0 then []
    else (if checks[0].1 then [] else [checks[0].0]) + FailedFields(checks[1..])
  }
}
