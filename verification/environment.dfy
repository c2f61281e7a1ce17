/** The process environment as the entry points read it with `os.getenv`. */
module Environment {
  type Env = map<string, string>

  /** Python truthiness of `os.getenv(name)`: set and not empty. */
  predicate IsSet(env: Env, name: string) {
    name in env && env[name] != []
  }
}
