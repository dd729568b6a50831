/**
 * Which of the rules `build.extend` appends apply to concrete kinds of path:
 * the libass binary and its sibling script, with slash and backslash
 * separators and under any directory, and worker sources inside and outside
 * `node_modules`.
 */
module Scenarios {
  import opened Strings
  import opened PathPatterns
  import opened BuildRules

  /**
   * Regrouping the pieces of a joined path. Stated once as a lemma because
   * the solver is slow to regroup long literal concatenations inline.
   */
  lemma Reassociate(a: string, s1: string, b: string, s2: string, c: string, s3: string, d: string)
    ensures a + s1 + (b + s2 + (c + s3 + d)) == a + s1 + b + s2 + c + s3 + d
  {
  }

  /** `libass-wasm`, `dist`, `js` and `last` joined by the given separators. */
  lemma LibassPathJoined(t: string, s1: string, s2: string, s3: string, last: string)
    requires IsSeparator(s1) && IsSeparator(s2) && IsSeparator(s3)
    requires t == "libass-wasm" + s1 + "dist" + s2 + "js" + s3 + last
    ensures Joined(t, LibassDirs + [last])
  {
    assert Joined(last, [last]);
    JoinedCons("js", s3, last, [last]);
    assert ["js"] + [last] == ["js", last];
    JoinedCons("dist", s2, "js" + s3 + last, ["js", last]);
    assert ["dist"] + ["js", last] == ["dist", "js", last];
    JoinedCons("libass-wasm", s1, "dist" + s2 + ("js" + s3 + last), ["dist", "js", last]);
    assert ["libass-wasm"] + ["dist", "js", last] == LibassDirs + [last];
    Reassociate("libass-wasm", s1, "dist", s2, "js", s3, last);
  }

  /**
   * The `.wasm` pattern finds the joined directories and file name wherever
   * they occur in a path, with any mix of slash and backslash separators.
   */
  lemma LibassWasmFound(before: string, s1: string, s2: string, s3: string, after: string)
    requires IsSeparator(s1) && IsSeparator(s2) && IsSeparator(s3)
    ensures IsOctopusWasm(before + ("libass-wasm" + s1 + "dist" + s2 + "js" + s3 + "subtitles-octopus-worker.wasm") + after)
  {
    var t := "libass-wasm" + s1 + "dist" + s2 + "js" + s3 + "subtitles-octopus-worker.wasm";
    LibassPathJoined(t, s1, s2, s3, "subtitles-octopus-worker.wasm");
    RegexMatchesInside(before, t, after, WasmWords);
  }

  /** Likewise for the file-loader pattern, wherever the worker's name occurs and whatever follows it. */
  lemma LibassAssetFound(before: string, s1: string, s2: string, s3: string, after: string, path: string)
    requires IsSeparator(s1) && IsSeparator(s2) && IsSeparator(s3)
    requires path == before + ("libass-wasm" + s1 + "dist" + s2 + "js" + s3 + "subtitles-octopus-worker") + after
    ensures IsOctopusAsset(path)
  {
    var t := "libass-wasm" + s1 + "dist" + s2 + "js" + s3 + "subtitles-octopus-worker";
    LibassPathJoined(t, s1, s2, s3, "subtitles-octopus-worker");
    RegexMatchesInside(before, t, after, AssetWords);
  }

  /** The opaque-module pattern matches the libass binary under any separators. */
  lemma WasmPathMatchesOpaquePattern(s1: string, s2: string, s3: string, path: string)
    requires IsSeparator(s1) && IsSeparator(s2) && IsSeparator(s3)
    requires path == "libass-wasm" + s1 + "dist" + s2 + "js" + s3 + "subtitles-octopus-worker.wasm"
    ensures IsOctopusWasm(path)
  {
    LibassPathJoined(path, s1, s2, s3, "subtitles-octopus-worker.wasm");
    RegexMatchesWhole(path, WasmWords);
  }

  /** The libass binary ends in `sm`, not `ts`, so it is no worker source. */
  lemma WasmPathIsNoWorkerSource(s1: string, s2: string, s3: string, path: string)
    requires path == "libass-wasm" + s1 + "dist" + s2 + "js" + s3 + "subtitles-octopus-worker.wasm"
    ensures !IsWorkerSource(path)
  {
    assert path[|path| - 1] == 'm';
    WorkerSourceEndsInTs(path);
  }

  /**
   * The libass binary, under any separators and below any directory: both
   * libass rules apply, the opaque-module rule first, for client and server
   * builds alike.
   */
  lemma WasmPathTakesBothLibassRules(ctx: BuildContext, before: string, s1: string, s2: string, s3: string, path: string)
    requires IsSeparator(s1) && IsSeparator(s2) && IsSeparator(s3)
    requires path == before + ("libass-wasm" + s1 + "dist" + s2 + "js" + s3 + "subtitles-octopus-worker.wasm")
    ensures Applicable(Added(ctx), path) == [OctopusWasmRule, OctopusAssetRule]
  {
    LibassWasmFound(before, s1, s2, s3, "");
    assert path + "" == path;
    assert path[|path| - 1] == 'm';
    WorkerSourceEndsInTs(path);
    BothLibassRulesApply(ctx, path);
  }

  /** The libass directories and worker name, joined by separators, hold no dot. */
  lemma LibassWorkerNameHasNoDot(s1: string, s2: string, s3: string, t: string)
    requires IsSeparator(s1) && IsSeparator(s2) && IsSeparator(s3)
    requires t == "libass-wasm" + s1 + "dist" + s2 + "js" + s3 + "subtitles-octopus-worker"
    ensures '.' !in t
  {
    if '.' in s1 { SeparatorCharacters(s1, '.'); }
    if '.' in s2 { SeparatorCharacters(s2, '.'); }
    if '.' in s3 { SeparatorCharacters(s3, '.'); }
    assert '.' !in "libass-wasm" && '.' !in "dist" && '.' !in "js" && '.' !in "subtitles-octopus-worker";
  }

  /**
   * A path `u + ".js"` with no dot anywhere in `u` does not contain the
   * binary's name: that name needs four characters after its dot, and the
   * path has two.
   */
  lemma ScriptPathLacksWasmName(u: string, path: string)
    requires '.' !in u && path == u + ".js"
    ensures !Contains(path, "subtitles-octopus-worker.wasm")
  {
    var name := "subtitles-octopus-worker.wasm";
    ContainsIffOccurs(path, name);
    if i :| OccursAt(path, name, i) {
      WasmNameDotInStem(u, path, i);
      assert false;
    }
  }

  /** An occurrence of the binary's name in `u + ".js"` puts the name's dot inside `u`. */
  lemma WasmNameDotInStem(u: string, path: string, i: int)
    requires path == u + ".js" && OccursAt(path, "subtitles-octopus-worker.wasm", i)
    ensures 0 <= i + 24 < |u| && u[i + 24] == '.'
  {
    assert path[i..i + 29][24] == '.';
  }

  /** The sibling script is neither a worker source nor the binary. */
  lemma ScriptPathFacts(before: string, s1: string, s2: string, s3: string, path: string)
    requires IsSeparator(s1) && IsSeparator(s2) && IsSeparator(s3) && '.' !in before
    requires path == before + ("libass-wasm" + s1 + "dist" + s2 + "js" + s3 + "subtitles-octopus-worker") + ".js"
    ensures !IsWorkerSource(path) && !IsOctopusWasm(path)
  {
    var t := "libass-wasm" + s1 + "dist" + s2 + "js" + s3 + "subtitles-octopus-worker";
    LibassWorkerNameHasNoDot(s1, s2, s3, t);
    var u := before + t;
    assert '.' !in u;
    ScriptPathLacksWasmName(u, path);
    assert WasmWords[|WasmWords| - 1] == "subtitles-octopus-worker.wasm";
    assert path[|path| - 1] == 's' && path[|path| - 2] == 'j';
    WorkerSourceEndsInTs(path);
  }

  /**
   * The sibling worker script, under any separators and below any directory
   * whose path holds no dot: only the file-loader rule applies; the
   * opaque-module rule does not.
   */
  lemma ScriptPathTakesOnlyFileLoader(ctx: BuildContext, before: string, s1: string, s2: string, s3: string, path: string)
    requires IsSeparator(s1) && IsSeparator(s2) && IsSeparator(s3) && '.' !in before
    requires path == before + ("libass-wasm" + s1 + "dist" + s2 + "js" + s3 + "subtitles-octopus-worker") + ".js"
    ensures Applicable(Added(ctx), path) == [OctopusAssetRule]
  {
    ScriptPathFacts(before, s1, s2, s3, path);
    LibassAssetFound(before, s1, s2, s3, ".js", path);
    OnlyAssetRuleApplies(ctx, path);
  }

  /** Worker sources shorter than either libass pattern and outside `node_modules`: only the worker rule, and only in a client build. */
  lemma WorkerSourceTakesWorkerRule(ctx: BuildContext, name: string, path: string)
    requires |name| < 34 && path == name + ".worker.ts" && !InNodeModules(path)
    ensures Applicable(Added(ctx), path) == if ctx.isClient then [WorkerRule] else []
  {
    EndsWithConcat(name, ".worker.ts");
    ShortPathsAreNotOctopus(path);
    OnlyWorkerRuleApplies(ctx, path);
  }

  /** A worker source anywhere below a `node_modules` directory never takes the worker rule. */
  lemma VendoredWorkerSourceSkipsWorkerRule(ctx: BuildContext, before: string, after: string, path: string)
    requires path == before + "node_modules" + after
    ensures WorkerRule !in Applicable(Added(ctx), path)
  {
    ContainsInside(before, "node_modules", after);
    assert InNodeModules(path);
    ApplicableMembers(Added(ctx), path, WorkerRule);
  }

  /** The libass-named worker source lacks the letter `n`, so it lies outside `node_modules`. */
  lemma LibassWorkerSourceOutsideNodeModules(s1: string, s2: string, s3: string, path: string)
    requires IsSeparator(s1) && IsSeparator(s2) && IsSeparator(s3)
    requires path == "libass-wasm" + s1 + "dist" + s2 + "js" + s3 + "subtitles-octopus-worker" + ".worker.ts"
    ensures !InNodeModules(path)
  {
    if 'n' in s1 { SeparatorCharacters(s1, 'n'); }
    if 'n' in s2 { SeparatorCharacters(s2, 'n'); }
    if 'n' in s3 { SeparatorCharacters(s3, 'n'); }
    assert 'n' !in "libass-wasm" && 'n' !in "dist" && 'n' !in "js";
    assert 'n' !in "subtitles-octopus-worker" && 'n' !in ".worker.ts";
    assert NodeModules[0] == 'n';
    MissingLetterMeansOutsideNodeModules(path, 'n');
  }

  /**
   * The worker-suffix rule and the libass rules can take the same path: a
   * `.worker.ts` file named after the libass worker gets comlink-loader and
   * file-loader both.
   */
  lemma WorkerAndLibassRulesOverlap(s1: string, s2: string, s3: string, path: string)
    requires IsSeparator(s1) && IsSeparator(s2) && IsSeparator(s3)
    requires path == "libass-wasm" + s1 + "dist" + s2 + "js" + s3 + "subtitles-octopus-worker" + ".worker.ts"
    ensures WorkerRule in Applicable(Added(BuildContext(true)), path)
    ensures OctopusAssetRule in Applicable(Added(BuildContext(true)), path)
  {
    var t := "libass-wasm" + s1 + "dist" + s2 + "js" + s3 + "subtitles-octopus-worker";
    LibassAssetFound("", s1, s2, s3, ".worker.ts", path);
    assert "" + t + ".worker.ts" == path;
    EndsWithConcat(t, ".worker.ts");
    LibassWorkerSourceOutsideNodeModules(s1, s2, s3, path);
    ApplicableMembers(Added(BuildContext(true)), path, WorkerRule);
    ApplicableMembers(Added(BuildContext(true)), path, OctopusAssetRule);
  }
}
