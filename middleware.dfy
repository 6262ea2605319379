/**
 * The request-handling vocabulary shared by both controllers: the JSON
 * scalars a request body can carry, JavaScript truthiness, the outcome of
 * one middleware check, and the way Express runs an exported array of
 * middleware (each check either calls `next()` and the next one runs, or
 * calls `next(error)` and the chain stops there).
 */
module Middleware {

  datatype Option<+T> = None | Some(value: T) {
    function GetOr(default: T): T {
      match this
      case Some(v) => v
      case None => default
    }
  }

  /**
   * A body property that no truthiness check guards: left out of the JSON
   * (`undefined`), sent as `null`, or given. The two empty cases behave
   * differently downstream (they print differently, and knex binds `null`
   * but refuses `undefined`), so they are kept apart.
   */
  datatype Field<+T> = Absent | NullField | Given(value: T)

  /** A JSON scalar as it arrives in `req.body.data`; numbers are finite. */
  datatype Value = Undefined | Null | Bool(b: bool) | Num(n: real) | Str(s: string)

  /** JavaScript truthiness of a scalar. */
  predicate Truthy(v: Value) {
    match v
    case Undefined => false
    case Null => false
    case Bool(b) => b
    case Num(n) => n != 0.0
    case Str(s) => s != ""
  }

  /** Truthiness of a text field that may be absent. */
  predicate Present(field: Option<string>) {
    field.Some? && field.value != ""
  }

  /**
   * What one middleware check does with the request:
   * - Pass: it calls `next()`;
   * - Fail: it calls `next({status, message})`;
   * - MissingProperties: the shared required-properties check rejected the
   *   body (its status and message are defined outside this model);
   * - Thrown: the check itself raised an exception (a property read on
   *   `undefined`, a query with an undefined binding), which the error
   *   boundary turns into an error response.
   */
  datatype Outcome = Pass | Fail(status: int, message: string) | MissingProperties | Thrown

  /** Express running an array of middleware: the first check that does not pass ends the chain. */
  function Run(checks: seq<Outcome>): (r: Outcome)
    ensures r == Pass || r in checks
  {
    if checks == [] then Pass
    else if checks[0] != Pass then checks[0]
    else Run(checks[1..])
  }

  /** Running a chain runs its first check, and the rest only when that one passes. */
  lemma RunCons(first: Outcome, rest: seq<Outcome>)
    ensures Run([first] + rest) == if first != Pass then first else Run(rest)
  {
    assert ([first] + rest)[0] == first;
    assert ([first] + rest)[1..] == rest;
  }

  lemma {:induction false} RunPassesIff(checks: seq<Outcome>)
    ensures Run(checks) == Pass <==> forall i :: 0 <= i < |checks| ==> checks[i] == Pass
  {
    if checks != [] {
      RunPassesIff(checks[1..]);
      assert forall i :: 1 <= i < |checks| ==> checks[i] == checks[1..][i - 1];
    }
  }

  /** A rejected chain reports exactly the outcome of its first failing check. */
  lemma {:induction false} RunFirstFailure(checks: seq<Outcome>)
    ensures Run(checks) != Pass ==>
      exists k :: 0 <= k < |checks| && checks[k] == Run(checks) &&
        forall j :: 0 <= j < k ==> checks[j] == Pass
  {
    if checks != [] && checks[0] == Pass && Run(checks) != Pass {
      RunFirstFailure(checks[1..]);
      var k :| 0 <= k < |checks[1..]| && checks[1..][k] == Run(checks[1..]) &&
        forall j :: 0 <= j < k ==> checks[1..][j] == Pass;
      assert checks[k + 1] == Run(checks);
      assert forall j :: 1 <= j < k + 1 ==> checks[j] == checks[1..][j - 1];
    }
  }
}
