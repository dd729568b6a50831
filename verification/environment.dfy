/**
 * Values the configuration derives from the process environment: the
 * predefined server list, the build's commit hash and the router mode.
 * The environment is a parameter: a variable is either absent from the map
 * (JavaScript `undefined`) or holds a string.
 */
module Environment {
  import opened Wrappers

  type Environ = map<string, string>

  const DefaultServersKey := "DEFAULT_SERVERS"
  const CommitHashKey := "COMMIT_HASH"
  const PagesCommitShaKey := "CF_PAGES_COMMIT_SHA"
  const HistoryRouterModeKey := "HISTORY_ROUTER_MODE"

  /** `process.env[key]` */
  function Lookup(env: Environ, key: string): Option<string> {
    if key in env then Some(env[key]) else None
  }

  /** JavaScript truthiness of an environment value: `undefined` and `""` are falsy. */
  predicate Truthy(v: Option<string>) {
    v.Some? && v.value != ""
  }

  /**
   * The chain `process.env[keys[0]] || process.env[keys[1]] || ... || fallback`:
   * the first truthy value, or `fallback` when there is none.
   */
  function OrChain(env: Environ, keys: seq<string>, fallback: string): (r: string)
    ensures r == fallback || exists i :: 0 <= i < |keys| && Lookup(env, keys[i]) == Some(r)
    ensures r != fallback ==> r != ""
    decreases |keys|
  {
    if |keys| == 0 then fallback
    else if Truthy(Lookup(env, keys[0])) then env[keys[0]]
    else OrChain(env, keys[1..], fallback)
  }

  /** The chain stops at the first key whose value is truthy. */
  lemma {:induction false} OrChainPicksFirstTruthy(env: Environ, keys: seq<string>, fallback: string, i: nat)
    requires i < |keys| && Truthy(Lookup(env, keys[i]))
    requires forall j :: 0 <= j < i ==> !Truthy(Lookup(env, keys[j]))
    ensures OrChain(env, keys, fallback) == env[keys[i]]
    decreases i
  {
    if i > 0 {
      assert !Truthy(Lookup(env, keys[0]));
      OrChainPicksFirstTruthy(env, keys[1..], fallback, i - 1);
    }
  }

  /** With no truthy value anywhere in the chain the fallback is the result. */
  lemma OrChainFallsBack(env: Environ, keys: seq<string>, fallback: string)
    requires forall j :: 0 <= j < |keys| ==> !Truthy(Lookup(env, keys[j]))
    ensures OrChain(env, keys, fallback) == fallback
  {
  }

  /** `env.server_url_list`: `process.env.DEFAULT_SERVERS || ''`. */
  function ServerUrlList(env: Environ): (r: string)
    // `|| ''` on a string-or-undefined is the value itself when present, else ""
    ensures r == Lookup(env, DefaultServersKey).GetOr("")
  {
    OrChain(env, [DefaultServersKey], "")
  }

  /** `env.commit_hash`: `process.env.COMMIT_HASH || process.env.CF_PAGES_COMMIT_SHA || ''`. */
  function CommitHash(env: Environ): (r: string)
    ensures Truthy(Lookup(env, CommitHashKey)) ==> r == env[CommitHashKey]
    ensures (!Truthy(Lookup(env, CommitHashKey)) && Truthy(Lookup(env, PagesCommitShaKey)))
      ==> r == env[PagesCommitShaKey]
    ensures (!Truthy(Lookup(env, CommitHashKey)) && !Truthy(Lookup(env, PagesCommitShaKey)))
      ==> r == ""
  {
    var keys := [CommitHashKey, PagesCommitShaKey];
    var r := OrChain(env, keys, "");
    assert !Truthy(Lookup(env, CommitHashKey)) && Truthy(Lookup(env, PagesCommitShaKey)) ==> r == env[PagesCommitShaKey] by {
      if !Truthy(Lookup(env, CommitHashKey)) && Truthy(Lookup(env, PagesCommitShaKey)) {
        OrChainPicksFirstTruthy(env, keys, "", 1);
      }
    }
    r
  }

  datatype RouterMode = History | Hash

  /** `router.mode`: history addressing only for the exact string "1". */
  function Mode(env: Environ): (m: RouterMode)
    ensures m == History <==> HistoryRouterModeKey in env && env[HistoryRouterModeKey] == "1"
  {
    if Lookup(env, HistoryRouterModeKey) == Some("1") then History else Hash
  }

  /** Values that are merely truthy or look like "1" still select hash mode. */
  lemma ModeNeedsExactOne()
    ensures Mode(map[]) == Hash
    ensures Mode(map[HistoryRouterModeKey := ""]) == Hash
    ensures Mode(map[HistoryRouterModeKey := "true"]) == Hash
    ensures Mode(map[HistoryRouterModeKey := " 1"]) == Hash
    ensures Mode(map[HistoryRouterModeKey := "01"]) == Hash
    ensures Mode(map[HistoryRouterModeKey := "1"]) == History
  {
  }

  /** The derived values read no variable other than the four named above. */
  lemma DerivedValuesReadOnlyTheirKeys(env: Environ, env': Environ)
    requires forall k :: k in {DefaultServersKey, CommitHashKey, PagesCommitShaKey, HistoryRouterModeKey}
               ==> Lookup(env, k) == Lookup(env', k)
    ensures ServerUrlList(env) == ServerUrlList(env')
    ensures CommitHash(env) == CommitHash(env')
    ensures Mode(env) == Mode(env')
  {
    assert Lookup(env, DefaultServersKey) == Lookup(env', DefaultServersKey);
    assert Lookup(env, CommitHashKey) == Lookup(env', CommitHashKey);
    assert Lookup(env, PagesCommitShaKey) == Lookup(env', PagesCommitShaKey);
    assert Lookup(env, HistoryRouterModeKey) == Lookup(env', HistoryRouterModeKey);
  }
}
