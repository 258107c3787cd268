/** The process environment, given to the model as a map from variable name to value. */
module Env {

  /** os.Getenv: an unset variable reads as the empty string. */
  function Getenv(env: map<string, string>, key: string): (value: string)
    ensures key in env ==> value == env[key]
    ensures key !in env ==> value == ""
  {
    if key in env then env[key] else ""
  }
}
