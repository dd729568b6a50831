/**
 * `build.extend`: the bundler rules the configuration appends to the
 * module rules of a build. A client build first gets a worker-source rule
 * (comlink-loader, one shared worker); every build then gets the two libass
 * rules, one marking the `.wasm` binary as an opaque module and one copying
 * the worker files verbatim under their own name (file-loader).
 * Webpack applies every rule whose test matches and whose exclude does not;
 * the loaders themselves are not modelled.
 */
module BuildRules {
  import opened Wrappers
  import opened Strings
  import opened PathPatterns

  /** A rule's path pattern. `Foreign` stands for any pattern of a rule the build already had. */
  datatype Pattern = WorkerSourcePattern | NodeModulesPattern | OctopusWasmPattern | OctopusAssetPattern
                   | Foreign(source: string)

  datatype LoaderOption = Singleton(enabled: bool) | OutputName(template: string)

  datatype UseEntry = UseEntry(loader: string, options: seq<LoaderOption>)

  /**
   * A module rule. `loader` plus `options` on a rule is webpack's shorthand for
   * a one-entry `use` list, and is written that way here.
   */
  datatype Rule = Rule(test: Pattern, exclude: Option<Pattern>, use: seq<UseEntry>, moduleType: Option<string>)

  datatype ModuleOptions = ModuleOptions(rules: seq<Rule>)

  /** The part of the webpack configuration the hook reads: `config.module`, possibly absent (`moduleOptions`). */
  datatype WebpackConfig = WebpackConfig(moduleOptions: Option<ModuleOptions>)

  /** The part of the build context the hook reads. */
  datatype BuildContext = BuildContext(isClient: bool)

  const WorkerRule := Rule(WorkerSourcePattern, Some(NodeModulesPattern),
                           [UseEntry("comlink-loader", [Singleton(true)])], None)
  const OctopusWasmRule := Rule(OctopusWasmPattern, None, [], Some("javascript/auto"))
  const OctopusAssetRule := Rule(OctopusAssetPattern, None,
                                 [UseEntry("file-loader", [OutputName("[name].[ext]")])], None)

  /** Whether a pattern of this configuration matches a path. */
  predicate Accepts(pattern: Pattern, path: string)
    requires !pattern.Foreign?
  {
    match pattern
    case WorkerSourcePattern => IsWorkerSource(path)
    case NodeModulesPattern => InNodeModules(path)
    case OctopusWasmPattern => IsOctopusWasm(path)
    case OctopusAssetPattern => IsOctopusAsset(path)
  }

  /** A rule all of whose patterns are ones this configuration defines. */
  predicate Native(rule: Rule) {
    !rule.test.Foreign? && (rule.exclude.Some? ==> !rule.exclude.value.Foreign?)
  }

  /** A rule applies when its test matches and its exclude, if any, does not. */
  predicate Applies(rule: Rule, path: string)
    requires Native(rule)
  {
    Accepts(rule.test, path) && !(rule.exclude.Some? && Accepts(rule.exclude.value, path))
  }

  /** The rules that apply to a path, in list order. */
  function Applicable(rules: seq<Rule>, path: string): (r: seq<Rule>)
    requires forall k :: 0 <= k < |rules| ==> Native(rules[k])
    ensures |r| <= |rules|
    ensures rules == [] ==> r == []
    decreases |rules|
  {
    if |rules| == 0 then []
    else (if Applies(rules[0], path) then [rules[0]] else []) + Applicable(rules[1..], path)
  }

  /** The applicable rules are exactly the listed rules that apply. */
  lemma {:induction false} ApplicableMembers(rules: seq<Rule>, path: string, rule: Rule)
    requires forall k :: 0 <= k < |rules| ==> Native(rules[k])
    ensures rule in Applicable(rules, path) <==> rule in rules && Applies(rule, path)
    decreases |rules|
  {
    if |rules| > 0 {
      ApplicableMembers(rules[1..], path, rule);
      assert rules == [rules[0]] + rules[1..];
    }
  }

  /** The hook: push the worker rule for a client build, then the two libass rules. */
  function Extend(config: WebpackConfig, ctx: BuildContext): (r: WebpackConfig)
    ensures config.moduleOptions.None? ==> r == config
    ensures config.moduleOptions.Some? ==> r.moduleOptions.Some?
    ensures config.moduleOptions.Some? ==> r.moduleOptions.value.rules == config.moduleOptions.value.rules + Added(ctx)
  {
    match config.moduleOptions
    case None => config
    case Some(m) =>
      var afterWorker := if ctx.isClient then m.rules + [WorkerRule] else m.rules;
      WebpackConfig(Some(ModuleOptions(afterWorker + [OctopusWasmRule] + [OctopusAssetRule])))
  }

  /** The rules the hook appends for a build context. */
  function Added(ctx: BuildContext): (added: seq<Rule>)
    ensures forall k :: 0 <= k < |added| ==> Native(added[k])
  {
    if ctx.isClient then [WorkerRule, OctopusWasmRule, OctopusAssetRule] else [OctopusWasmRule, OctopusAssetRule]
  }

  /** The existing rules stay, unchanged and in order, in front of the appended ones. */
  lemma ExtendKeepsExistingRules(config: WebpackConfig, ctx: BuildContext)
    requires config.moduleOptions.Some?
    ensures |Extend(config, ctx).moduleOptions.value.rules| == |config.moduleOptions.value.rules| + |Added(ctx)|
    ensures Extend(config, ctx).moduleOptions.value.rules[..|config.moduleOptions.value.rules|] == config.moduleOptions.value.rules
  {
    var before := config.moduleOptions.value.rules;
    assert (before + Added(ctx))[..|before|] == before;
  }

  /** Every build ends with the two libass rules, `.wasm` first; the worker rule is among them exactly for client builds. */
  lemma AddedRulesShape(ctx: BuildContext)
    ensures |Added(ctx)| >= 2 && Added(ctx)[|Added(ctx)| - 2..] == [OctopusWasmRule, OctopusAssetRule]
    ensures WorkerRule in Added(ctx) <==> ctx.isClient
    ensures |Added(ctx)| == if ctx.isClient then 3 else 2
  {
    if !ctx.isClient {
      assert Added(ctx)[0] != WorkerRule && Added(ctx)[1] != WorkerRule;
    }
  }

  /** A comlink worker rule is appended exactly for client builds. */
  lemma WorkerRuleOnlyForClient(ctx: BuildContext)
    ensures (exists k :: 0 <= k < |Added(ctx)| && Added(ctx)[k].use == WorkerRule.use) <==> ctx.isClient
  {
    if ctx.isClient {
      assert Added(ctx)[0].use == WorkerRule.use;
    }
  }

  /** The worker rule applies exactly to `.worker.ts` paths outside `node_modules`. */
  lemma WorkerRuleScope(path: string)
    ensures Applies(WorkerRule, path) <==> EndsWith(path, ".worker.ts") && !Contains(path, "node_modules")
  {
  }

  /** The libass rules overlap: every path the opaque-module rule takes is also copied by file-loader. */
  lemma OctopusWasmRuleWithinAssetRule(path: string)
    ensures Applies(OctopusWasmRule, path) ==> Applies(OctopusAssetRule, path)
  {
    OctopusWasmIsOctopusAsset(path);
  }

  /** The libass rules that apply to a path, in list order. */
  lemma LibassRulesApplying(path: string)
    ensures Applicable([OctopusWasmRule, OctopusAssetRule], path)
         == (if Applies(OctopusWasmRule, path) then [OctopusWasmRule] else [])
          + (if Applies(OctopusAssetRule, path) then [OctopusAssetRule] else [])
  {
    var libass := [OctopusWasmRule, OctopusAssetRule];
    assert libass[1..] == [OctopusAssetRule];
    assert Applicable(libass[1..][1..], path) == [];
  }

  /** The client rules that apply to a path: the worker rule when it applies, then the libass ones. */
  lemma ClientRulesApplying(path: string)
    ensures Applicable([WorkerRule, OctopusWasmRule, OctopusAssetRule], path)
         == (if Applies(WorkerRule, path) then [WorkerRule] else [])
          + Applicable([OctopusWasmRule, OctopusAssetRule], path)
  {
    assert [WorkerRule, OctopusWasmRule, OctopusAssetRule][1..] == [OctopusWasmRule, OctopusAssetRule];
  }

  /** The appended rules that apply to a path, in list order, for any build and any path. */
  lemma AddedRulesApplying(ctx: BuildContext, path: string)
    ensures Applicable(Added(ctx), path)
         == (if ctx.isClient && Applies(WorkerRule, path) then [WorkerRule] else [])
          + ((if Applies(OctopusWasmRule, path) then [OctopusWasmRule] else [])
          + (if Applies(OctopusAssetRule, path) then [OctopusAssetRule] else []))
  {
    LibassRulesApplying(path);
    if ctx.isClient {
      ClientRulesApplying(path);
    } else {
      var libass := Applicable([OctopusWasmRule, OctopusAssetRule], path);
      assert libass == [] + libass;
    }
  }

  /** A path only the worker rule's patterns match takes the worker rule in a client build and nothing otherwise. */
  lemma OnlyWorkerRuleApplies(ctx: BuildContext, path: string)
    requires IsWorkerSource(path) && !InNodeModules(path)
    requires !IsOctopusWasm(path) && !IsOctopusAsset(path)
    ensures Applicable(Added(ctx), path) == if ctx.isClient then [WorkerRule] else []
  {
    AddedRulesApplying(ctx, path);
  }

  /** A path only the file-loader pattern matches takes the file-loader rule alone, in every build. */
  lemma OnlyAssetRuleApplies(ctx: BuildContext, path: string)
    requires !IsWorkerSource(path) && !IsOctopusWasm(path) && IsOctopusAsset(path)
    ensures Applicable(Added(ctx), path) == [OctopusAssetRule]
  {
    AddedRulesApplying(ctx, path);
  }

  /** A path the opaque-module pattern matches, and no worker source, takes both libass rules in every build. */
  lemma BothLibassRulesApply(ctx: BuildContext, path: string)
    requires !IsWorkerSource(path) && IsOctopusWasm(path)
    ensures Applicable(Added(ctx), path) == [OctopusWasmRule, OctopusAssetRule]
  {
    OctopusWasmIsOctopusAsset(path);
    AddedRulesApplying(ctx, path);
  }

  /** A server build takes no worker rule, whatever the path. */
  lemma ServerBuildTakesNoWorkerRule(path: string)
    ensures WorkerRule !in Applicable(Added(BuildContext(false)), path)
  {
    ApplicableMembers(Added(BuildContext(false)), path, WorkerRule);
  }
}
