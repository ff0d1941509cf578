/** The process environment, read through Go's `os.Getenv`. */
module OsEnv {

  /** The environment as a value: a variable that is absent reads as "". */
  type Env = map<string, string>

  /** `os.Getenv(key)`: an unset variable and one set to "" are indistinguishable. */
  function Getenv(env: Env, key: string): string
  {
    if key in env then env[key] else ""
  }
}
