# jellyfin-vue: Nuxt configuration logic

This project models the parts of the jellyfin-vue front end's Nuxt
configuration (`frontend/nuxt.config.ts`) that are logic rather than static
data:

- **Environment-derived values.** `env.server_url_list` is
  `DEFAULT_SERVERS || ''`. `env.commit_hash` is
  `COMMIT_HASH || CF_PAGES_COMMIT_SHA || ''`. `router.mode` is `'history'`
  exactly when `HISTORY_ROUTER_MODE === '1'`, and `'hash'` otherwise. The
  process environment is a `map<string, string>` parameter. An absent key is
  JavaScript `undefined`. `||` follows JavaScript truthiness, so `undefined`
  and `""` both fall through. Module `Environment`.
- **`router.extendRoutes`.** Every top-level route gets an alias.
  `path + 'index.html'` is used when the path's last character is `/`, and
  `path + '/index.html'` otherwise. Module `Router`.
- **`build.extend`.** The webpack hook appends rules to
  `config.module.rules`. A client build first gets the comlink-loader rule for
  `.worker.ts` sources outside `node_modules`. Every build then gets two
  libass rules: `javascript/auto` for the octopus `.wasm` binary, and
  file-loader for anything named after the octopus worker. Nothing is
  appended when `config.module` is absent. Module `BuildRules`.
- **The four path patterns as hand-written matchers.** The patterns are
  `/\.worker\.ts$/`, `/(node_modules)/` and the two libass expressions. Module
  `PathPatterns`.
  - The libass expressions are unanchored. They match when some substring of
    the path is the words `libass-wasm`, `dist`, `js` and a file name, joined
    by separators. A separator is `([\\]+|\/)`: one or more backslashes, or
    exactly one slash.
  - The executable matcher (`ContainsMatch`) consumes the longest run of
    backslashes. It is proved to accept exactly the paths for which the
    ghost definition `RegexMatches` holds.
- **Webpack's use of the rules.** A rule applies to a resource when its `test`
  matches and its `exclude` does not. Webpack applies every applicable rule,
  not only the first one. `BuildRules.Applicable` is therefore the ordered
  filter of the rule list.
- **Supporting modules and scenarios.**
  - `Wrappers` provides `Option`.
  - `Strings` provides prefix, suffix and substring predicates and
    JavaScript's `slice(-1)`.
  - `Scenarios` states which appended rules apply to concrete kinds of
    path.

Some of the code's behaviour is easy to misread. This model follows the
code as written:

- **Empty path.** An empty route path is not excluded. `''.slice(-1)` is `''`,
  so its alias is `/index.html` (`Router.EmptyPathAlias`).
- **Worker suffix.** The worker rule's test is exactly `.worker.ts` at the
  end of the path. It is not a general `.worker.<ext>`.
- **Overlapping rules.** The worker-suffix rule and the libass rules are not
  disjoint. A file such as `libass-wasm/dist/js/subtitles-octopus-worker.worker.ts`
  takes both comlink-loader and file-loader in a client build
  (`Scenarios.WorkerAndLibassRulesOverlap`).
- **The two libass rules overlap too.** Every path the `.wasm` rule takes is
  also taken by the file-loader rule (`BuildRules.OctopusWasmRuleWithinAssetRule`).
  So the binary gets `javascript/auto` and file-loader together. That is the
  combination the comment above those rules asks for.

## Model

| member | source | states |
|---|---|---|
| Environment.OrChain | frontend/nuxt.config.ts:14-19 | a chain of JavaScript or-operators over environment lookups yields either the fallback or the value of one of the listed keys, and a non-fallback result is never the empty string |
| Environment.OrChainPicksFirstTruthy | frontend/nuxt.config.ts:18-19 | the chain yields the value of the first key whose value is truthy when every earlier key is falsy |
| Environment.OrChainFallsBack | frontend/nuxt.config.ts:18-19 | when no key in the chain holds a truthy value the fallback is the result |
| Environment.ServerUrlList | frontend/nuxt.config.ts:14 | the server list is `DEFAULT_SERVERS` when set, and `""` when it is absent |
| Environment.CommitHash | frontend/nuxt.config.ts:18-19 | the commit hash is `COMMIT_HASH` when truthy, else `CF_PAGES_COMMIT_SHA` when truthy, else `""` |
| Environment.Mode | frontend/nuxt.config.ts:161 | history mode holds if and only if `HISTORY_ROUTER_MODE` is present and exactly `"1"` |
| Environment.ModeNeedsExactOne | frontend/nuxt.config.ts:161 | an unset variable, `""`, `"true"`, `" 1"` and `"01"` all give hash mode; only `"1"` gives history mode |
| Environment.DerivedValuesReadOnlyTheirKeys | frontend/nuxt.config.ts:14-19 | two environments that agree on the four named variables give the same server list, commit hash and router mode |
| Strings.SliceLast | frontend/nuxt.config.ts:154 | `slice(-1)` is a suffix of the string, of length one, or zero for the empty string |
| Strings.Contains | frontend/nuxt.config.ts:266 | the left-to-right substring search; through `Strings.ContainsIffOccurs` it holds exactly when the substring occurs at some index |
| Strings.ContainsIffOccurs | frontend/nuxt.config.ts:266 | the recursive substring test holds exactly when the substring occurs at some index |
| Router.DropTrailingSlash | frontend/nuxt.config.ts:154 | removing a trailing slash gives a string that is the path, or the path minus its final `/`, the latter exactly when the path ends in `/` |
| Router.AliasFor | frontend/nuxt.config.ts:154-158 | an alias starts with the route path, ends in `/index.html`, and is the path without its trailing slash followed by `/index.html` |
| Router.WithAlias | frontend/nuxt.config.ts:154-158 | one loop iteration keeps the route's path, name and children and sets the alias to exactly the path without its trailing slash followed by `/index.html`, which starts with the path and ends in `/index.html` |
| Router.ExtendRoutes | frontend/nuxt.config.ts:151-160 | the hook keeps the length and order of the table and each route's path, name and children, and sets each alias from its own path |
| Router.ExtendRoutesIdempotent | frontend/nuxt.config.ts:151-160 | running the hook on its own output yields the same table |
| Router.EmptyPathAlias | frontend/nuxt.config.ts:154-158 | the empty path gets the alias `/index.html` |
| Router.RootAlias | frontend/nuxt.config.ts:154-155 | the root path `/` gets `/index.html`, with no doubled slash |
| Router.PageAlias | frontend/nuxt.config.ts:156-157 | `/settings` gets `/settings/index.html` |
| Router.ExtendRoutesExample | frontend/nuxt.config.ts:151-160 | the table of the root and a named `/settings` page gets the aliases `/index.html` and `/settings/index.html`, and the named route keeps its name |
| Router.ChildrenKeepTheirAliases | frontend/nuxt.config.ts:153 | the loop visits only the top-level routes, so a nested route's alias stays unset |
| Strings.EndsWithIffStem | frontend/nuxt.config.ts:257 | a string ends with a suffix exactly when it is some stem followed by that suffix |
| Strings.ContainsInside | frontend/nuxt.config.ts:266 | a string placed between any two others is found by the substring search |
| Strings.ContainsInSuffix | frontend/nuxt.config.ts:266 | what occurs in a suffix of a string occurs in the string |
| PathPatterns.IsWorkerSource | frontend/nuxt.config.ts:257 | `/\.worker\.ts$/` holds exactly when the path is some stem followed by `.worker.ts` |
| PathPatterns.WorkerSourceEndsInTs | frontend/nuxt.config.ts:257 | a worker source ends in `ts`, so a path ending otherwise is none |
| PathPatterns.InNodeModules | frontend/nuxt.config.ts:266 | `/(node_modules)/` holds exactly when `node_modules` occurs at some index of the path |
| PathPatterns.MissingLetterMeansOutsideNodeModules | frontend/nuxt.config.ts:266 | a path lacking any letter of `node_modules` is not matched by the exclusion |
| PathPatterns.SeparatorCharacters | frontend/nuxt.config.ts:274 | a separator holds only slashes and backslashes |
| PathPatterns.BackslashRun | frontend/nuxt.config.ts:274 | the run consists of backslashes and is maximal: the next character, if any, is not one |
| PathPatterns.SeparatorLength | frontend/nuxt.config.ts:274 | a positive length marks a prefix that is a separator: one or more backslashes, or a single slash |
| PathPatterns.SeparatorLengthExact | frontend/nuxt.config.ts:274 | when a separator is followed by a character other than a backslash, the matcher finds exactly that separator |
| PathPatterns.MatchesPrefix | frontend/nuxt.config.ts:274 | a prefix match needs at least the words plus one character per separator, and the last word occurs in the text; `PathPatterns.MatchesPrefixIffJoined` gives its exact meaning |
| PathPatterns.MatchesPrefixSound | frontend/nuxt.config.ts:274 | what the prefix matcher accepts begins with the words joined by separators |
| PathPatterns.MatchesPrefixComplete | frontend/nuxt.config.ts:274 | the prefix matcher accepts every text that begins with the joined words |
| PathPatterns.MatchesPrefixIffJoined | frontend/nuxt.config.ts:274 | the prefix matcher holds exactly when some prefix is the joined words |
| PathPatterns.ContainsMatch | frontend/nuxt.config.ts:274-278 | an unanchored match needs a path at least as long as the words plus one character per separator, and the pattern's last word occurs in the path; `PathPatterns.ContainsMatchIffRegexMatches` gives its exact meaning |
| PathPatterns.ContainsMatchSound | frontend/nuxt.config.ts:274 | a match the unanchored search finds is a substring that is the joined words |
| PathPatterns.ContainsMatchComplete | frontend/nuxt.config.ts:274 | the unanchored search finds a match wherever the joined words occur in the path |
| PathPatterns.ContainsMatchIffRegexMatches | frontend/nuxt.config.ts:274 | the unanchored search holds exactly when the regular expression matches |
| PathPatterns.JoinedCons | frontend/nuxt.config.ts:274 | a word, a separator and joined words form joined words |
| PathPatterns.RegexMatchesInside | frontend/nuxt.config.ts:274 | the unanchored pattern matches any path containing the joined words |
| PathPatterns.LibassWordsWellFormed | frontend/nuxt.config.ts:274-278 | no word after `libass-wasm` in either libass pattern is empty or starts with a backslash |
| PathPatterns.IsOctopusWasm | frontend/nuxt.config.ts:274 | the `.wasm` test holds exactly when its regular expression matches the path |
| PathPatterns.IsOctopusAsset | frontend/nuxt.config.ts:278 | the file-loader test holds exactly when its regular expression matches the path |
| PathPatterns.ContainsMatchLongerLastWord | frontend/nuxt.config.ts:274-278 | lengthening the final word of a pattern only narrows what it matches |
| PathPatterns.OctopusWasmIsOctopusAsset | frontend/nuxt.config.ts:274-278 | every path the `.wasm` pattern matches also matches the file-loader pattern |
| PathPatterns.OctopusMinimumLengths | frontend/nuxt.config.ts:274-278 | the shortest matches of the two libass patterns are 49 and 44 characters |
| PathPatterns.ShortPathsAreNotOctopus | frontend/nuxt.config.ts:274-278 | paths shorter than 49 characters miss the `.wasm` pattern, and paths shorter than 44 miss the file-loader pattern |
| BuildRules.Applicable | frontend/nuxt.config.ts:256-281 | webpack's selection of rules for a path: an ordered filter, never longer than the list; `BuildRules.ApplicableMembers` says which rules it keeps |
| BuildRules.ApplicableMembers | frontend/nuxt.config.ts:256-281 | a rule is among those applied to a path exactly when it is in the list and its test matches while its exclude does not |
| BuildRules.Extend | frontend/nuxt.config.ts:254-283 | absent `config.module` leaves the config unchanged; otherwise the pushes in lines 256 and 270 leave the old rules followed by the rules `BuildRules.Added` lists for the build |
| BuildRules.Added | frontend/nuxt.config.ts:256-281 | every appended rule uses one of the four path patterns |
| BuildRules.AddedRulesShape | frontend/nuxt.config.ts:255-281 | every build's appended rules end with the `.wasm` rule followed by the file-loader rule, include the worker rule exactly for a client build, and number three in a client build and two otherwise, so nothing else is appended |
| BuildRules.ExtendKeepsExistingRules | frontend/nuxt.config.ts:254-283 | the existing rules stay unchanged and in order as a prefix, and the list grows by exactly the appended rules |
| BuildRules.WorkerRuleOnlyForClient | frontend/nuxt.config.ts:255-268 | a comlink-loader rule is among the appended rules if and only if the build is a client build |
| BuildRules.WorkerRuleScope | frontend/nuxt.config.ts:257-266 | the worker rule applies exactly to paths ending in `.worker.ts` that do not contain `node_modules` |
| BuildRules.OctopusWasmRuleWithinAssetRule | frontend/nuxt.config.ts:274-278 | whenever the opaque-module rule applies the file-loader rule applies too |
| BuildRules.LibassRulesApplying | frontend/nuxt.config.ts:273-281 | the libass rules that apply to a path are the `.wasm` rule if it matches, followed by the file-loader rule if it matches |
| BuildRules.ClientRulesApplying | frontend/nuxt.config.ts:255-281 | in a client build the worker rule, when it applies, precedes the applicable libass rules |
| BuildRules.AddedRulesApplying | frontend/nuxt.config.ts:254-283 | for any build and path, the appended rules that apply are, in order, the worker rule (client builds only), the `.wasm` rule and the file-loader rule, each present exactly when its patterns accept the path |
| BuildRules.OnlyWorkerRuleApplies | frontend/nuxt.config.ts:255-268 | a worker source outside `node_modules` that neither libass pattern matches takes only the worker rule in a client build and no rule in a server build |
| BuildRules.OnlyAssetRuleApplies | frontend/nuxt.config.ts:277-281 | a path only the file-loader pattern matches takes the file-loader rule alone |
| BuildRules.BothLibassRulesApply | frontend/nuxt.config.ts:273-281 | a path the `.wasm` pattern matches and the worker rule does not takes exactly the `.wasm` rule followed by the file-loader rule |
| BuildRules.ServerBuildTakesNoWorkerRule | frontend/nuxt.config.ts:255 | no path takes the worker rule in a server build |
| Scenarios.LibassWasmFound | frontend/nuxt.config.ts:274 | the `.wasm` pattern finds `libass-wasm/dist/js/subtitles-octopus-worker.wasm` under any mix of separators, wherever it sits in a path |
| Scenarios.LibassAssetFound | frontend/nuxt.config.ts:278 | the file-loader pattern matches the worker's name under any separators, whatever precedes or follows it |
| Scenarios.WasmPathTakesBothLibassRules | frontend/nuxt.config.ts:273-281 | the libass binary, under any separators and below any directory, takes the `.wasm` rule and then the file-loader rule, in client and server builds alike |
| Scenarios.ScriptPathLacksWasmName | frontend/nuxt.config.ts:274 | a path `u + ".js"` with no dot anywhere in `u` does not contain `subtitles-octopus-worker.wasm` |
| Scenarios.ScriptPathTakesOnlyFileLoader | frontend/nuxt.config.ts:273-281 | the sibling `subtitles-octopus-worker.js`, under any separators and below any directory whose path holds no dot (such as `/app/node_modules/`), takes only the file-loader rule |
| Scenarios.WorkerSourceTakesWorkerRule | frontend/nuxt.config.ts:255-268 | a `.worker.ts` source outside `node_modules` whose name is shorter than 34 characters, too short for either libass pattern, takes the worker rule in a client build and nothing in a server build |
| Scenarios.VendoredWorkerSourceSkipsWorkerRule | frontend/nuxt.config.ts:257-266 | a path with `node_modules` anywhere in it never takes the worker rule |
| Scenarios.LibassWorkerSourceOutsideNodeModules | frontend/nuxt.config.ts:266 | a `.worker.ts` file named after the libass worker holds no `n`, so the exclusion does not match it |
| Scenarios.WorkerAndLibassRulesOverlap | frontend/nuxt.config.ts:257-278 | a `.worker.ts` file named after the libass worker takes both the worker rule and the file-loader rule in a client build |

## Left out

- The static parts of the configuration are not modelled: theme palettes, locales, PWA manifest, head metadata, CSS, plugins, modules, build flags and the router middleware list. They are data, not logic.
- Reading `process.env` is not modelled. The environment is a parameter, a map from variable name to string.
- `config` itself being `undefined` at `config?.module` is left out. The hook's parameter is typed as a webpack configuration, so only the absence of `config.module` is modelled.
- A `module` object without a `rules` array is left out. `ModuleOptions` always carries a rule list.
- What the loaders do is left out: comlink-loader, file-loader and `javascript/auto` parsing. So are webpack's other rule fields and the other fields of the build context. A rule's `use` and type are recorded as data.
- vue-router's matching of paths and aliases, and the contents of the framework's resolved route table, are left out. The hook receives a table; which routes it holds is up to the framework.
- Regular expressions in general are left out. Only the four patterns the hook uses are modelled, as specific matchers. Existing rules whose tests come from elsewhere are `Foreign` and are never evaluated.
- JavaScript strings are UTF-16 code units; the model uses Dafny `char`. The patterns and suffixes involved are all ASCII.
- Router.ExtendRoutes: nested `children` routes are not visited, because the source's loop only iterates over the top-level array.
