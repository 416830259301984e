/**
 * `process.env`: the server's environment, a map from variable name to
 * value, read the way JavaScript reads it.
 */
module Environment {
  import opened Wrappers
  import opened JsStrings

  type Env = map<string, string>

  /** `process.env[name]` */
  function Var(env: Env, name: string): (r: Option<string>)
    ensures r.Some? <==> name in env
    ensures r.Some? ==> r.value == env[name]
  {
    if name in env then Some(env[name]) else None
  }

  /** `process.env[name]` is set to a non-empty value. */
  predicate IsSet(env: Env, name: string) {
    Truthy(Var(env, name))
  }

  /** `process.env[name] || fallback`: an unset or empty variable gives the fallback. */
  function VarOr(env: Env, name: string, fallback: string): (r: string)
    ensures IsSet(env, name) ==> r == env[name]
    ensures !IsSet(env, name) ==> r == fallback
  {
    Or(Var(env, name), Some(fallback)).value
  }
}
