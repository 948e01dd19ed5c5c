/**
 * What the sources see of the outside world: the outcome of one `fetch`
 * and the process environment.
 */
module Http {

  /** The outcome of one `fetch`: it threw, or the server answered with a status and a decoded body. */
  datatype Fetch<T> = Threw(message: string) | Responded(status: int, statusText: string, body: T)

  /** `Response.ok`. */
  predicate IsOk(status: int)
  {
    200 <= status <= 299
  }

  /** The process environment: variable name to value. */
  type Env = map<string, string>

  /** A variable that is set to a non-empty value (a truthy `process.env.X`). */
  predicate EnvSet(env: Env, name: string)
  {
    name in env && env[name] != ""
  }

  /** `process.env.X || fallback`. */
  function EnvOr(env: Env, name: string, fallback: string): (v: string)
    ensures EnvSet(env, name) ==> v == env[name]
    ensures !EnvSet(env, name) ==> v == fallback
  {
    if EnvSet(env, name) then env[name] else fallback
  }

  /** `(e as { message?: string })?.message || 'unknown error'`. */
  function MessageOrUnknown(message: string): (m: string)
    ensures m != ""
    ensures message != "" ==> m == message
    ensures message == "" ==> m == "unknown error"
  {
    if message != "" then message else "unknown error"
  }
}
