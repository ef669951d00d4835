/** Backend configuration (`config.ts`): the service URL and public key
    come from the build environment, with placeholders when unset. */
module Config {

  /** The build environment: variables that are set, with their values. */
  type Env = map<string, string>

  const URL_VAR := "VITE_SUPABASE_URL"
  const KEY_VAR := "VITE_SUPABASE_ANON_KEY"
  const URL_PLACEHOLDER := "https://your-project-id.supabase.co"
  const KEY_PLACEHOLDER := "your-anon-key-here"

  /** `fromEnv(key)`: the variable's value, or "" when it is unset. */
  function FromEnv(env: Env, key: string): (v: string)
    ensures key in env ==> v == env[key]
    ensures key !in env ==> v == ""
  {
    if key in env then env[key] else ""
  }

  /** `SUPABASE_URL`: the variable when non-empty, else the placeholder; never empty. */
  function SupabaseUrl(env: Env): (url: string)
    ensures url != ""
    ensures FromEnv(env, URL_VAR) != "" ==> url == FromEnv(env, URL_VAR)
    ensures FromEnv(env, URL_VAR) == "" ==> url == URL_PLACEHOLDER
  {
    var v := FromEnv(env, URL_VAR);
    if v != "" then v else URL_PLACEHOLDER
  }

  /** `SUPABASE_ANON_KEY`: the variable when non-empty, else the placeholder; never empty. */
  function SupabaseAnonKey(env: Env): (key: string)
    ensures key != ""
    ensures FromEnv(env, KEY_VAR) != "" ==> key == FromEnv(env, KEY_VAR)
    ensures FromEnv(env, KEY_VAR) == "" ==> key == KEY_PLACEHOLDER
  {
    var v := FromEnv(env, KEY_VAR);
    if v != "" then v else KEY_PLACEHOLDER
  }

  /** `isConfigValid`: both variables are set, non-empty, and differ from
      their placeholders. */
  function IsConfigValid(env: Env): (valid: bool)
    ensures valid <==> URL_VAR in env && env[URL_VAR] != "" && env[URL_VAR] != URL_PLACEHOLDER
                       && KEY_VAR in env && env[KEY_VAR] != "" && env[KEY_VAR] != KEY_PLACEHOLDER
  {
    SupabaseUrl(env) != URL_PLACEHOLDER && SupabaseAnonKey(env) != KEY_PLACEHOLDER
  }
}
