/**
 * The four path patterns of `build.extend`, as hand-written matchers:
 *   - the worker source test `\.worker\.ts$`;
 *   - the worker exclusion `(node_modules)`;
 *   - the two unanchored libass patterns, which join the words `libass-wasm`,
 *     `dist`, `js` and a file name with separators `([\\]+|\/)`, that is one
 *     or more backslashes or exactly one slash.
 * For the libass patterns a ghost definition (`Joined`, `RegexMatches`) says
 * what the regular expression denotes and the matchers are proved to agree.
 */
module PathPatterns {
  import opened Strings

  const WorkerSuffix := ".worker.ts"
  const NodeModules := "node_modules"

  /** The worker test `/\.worker\.ts$/`: `$` is the end of the path. */
  function IsWorkerSource(path: string): (r: bool)
    ensures r <==> exists stem :: path == stem + WorkerSuffix
  {
    EndsWithIffStem(path, WorkerSuffix);
    EndsWith(path, WorkerSuffix)
  }

  /** The worker exclusion `/(node_modules)/`: anywhere in the path. */
  function InNodeModules(path: string): (r: bool)
    ensures r <==> exists i :: OccursAt(path, NodeModules, i)
  {
    ContainsIffOccurs(path, NodeModules);
    Contains(path, NodeModules)
  }

  /** A worker source ends in `ts`: paths ending otherwise never take the worker rule. */
  lemma WorkerSourceEndsInTs(path: string)
    ensures IsWorkerSource(path) ==> |path| >= 2 && path[|path| - 2..] == "ts"
  {
    if IsWorkerSource(path) {
      assert path[|path| - 2..] == path[|path| - |WorkerSuffix|..][|WorkerSuffix| - 2..];
    }
  }

  /** A path lacking any letter of `node_modules` is outside it. */
  lemma MissingLetterMeansOutsideNodeModules(path: string, c: char)
    requires c in NodeModules && c !in path
    ensures !InNodeModules(path)
  {
    if Contains(path, NodeModules) {
      ContainsOnlyCharsOf(path, NodeModules, c);
    }
  }

  const LibassDirs: seq<string> := ["libass-wasm", "dist", "js"]
  /** The words of the `.wasm` binary's pattern. */
  const WasmWords: seq<string> := LibassDirs + ["subtitles-octopus-worker.wasm"]
  /** The words of the pattern for any file named after the worker. */
  const AssetWords: seq<string> := LibassDirs + ["subtitles-octopus-worker"]

  /** A separator holds nothing but slashes and backslashes. */
  lemma SeparatorCharacters(t: string, c: char)
    requires IsSeparator(t) && c in t
    ensures c == '/' || c == '\\'
  {
  }

  /** `([\\]+|\/)`: one or more backslashes, or a single slash. */
  predicate IsSeparator(t: string) {
    t == "/" || (|t| > 0 && forall k :: 0 <= k < |t| ==> t[k] == '\\')
  }

  /** `t` is exactly the words, in order, with one separator between neighbours. */
  ghost predicate Joined(t: string, words: seq<string>)
    requires |words| > 0
    decreases |words|, 1
  {
    if |words| == 1 then t == words[0]
    else StartsWith(t, words[0]) && exists n :: JoinedAfter(t, words, n)
  }

  /** The separator after the first word of `t` ends at `n`, and the rest of `t` joins the other words. */
  ghost predicate JoinedAfter(t: string, words: seq<string>, n: int)
    requires |words| > 1
    decreases |words|, 0
  {
    |words[0]| < n <= |t| && IsSeparator(t[|words[0]|..n]) && Joined(t[n..], words[1..])
  }

  /** What an unanchored pattern denotes: some substring of the path is the joined words. */
  ghost predicate RegexMatches(path: string, words: seq<string>)
    requires |words| > 0
  {
    exists i, j :: 0 <= i <= j <= |path| && Joined(path[i..j], words)
  }

  /** Words after the first are non-empty and start with something other than a backslash. */
  ghost predicate WellFormedWords(words: seq<string>) {
    && |words| > 0
    && forall i :: 1 <= i < |words| ==> |words[i]| > 0 && words[i][0] != '\\'
  }

  /** The length of the run of backslashes that `s` starts with. */
  function BackslashRun(s: string): (k: nat)
    ensures k <= |s|
    ensures forall j :: 0 <= j < k ==> s[j] == '\\'
    ensures k < |s| ==> s[k] != '\\'
    decreases |s|
  {
    if |s| > 0 && s[0] == '\\' then 1 + BackslashRun(s[1..]) else 0
  }

  /** The length of the separator `s` starts with (every backslash of a run), or 0 for none. */
  function SeparatorLength(s: string): (k: nat)
    ensures k <= |s|
    ensures k > 0 ==> IsSeparator(s[..k])
  {
    if |s| > 0 && s[0] == '/' then 1 else BackslashRun(s)
  }

  /** A separator followed by something other than a backslash is the one `SeparatorLength` finds. */
  lemma SeparatorLengthExact(s: string, m: nat)
    requires 0 < m <= |s| && IsSeparator(s[..m])
    requires m == |s| || s[m] != '\\'
    ensures SeparatorLength(s) == m
  {
    if s[..m] == "/" {
      assert s[0] == '/';
    } else {
      assert s[0] == s[..m][0] == '\\';
    }
  }

  /** The shortest text the joined words can be: the words and one character per separator. */
  function MinJoinedLength(words: seq<string>): nat
    requires |words| > 0
    decreases |words|
  {
    if |words| == 1 then |words[0]| else |words[0]| + 1 + MinJoinedLength(words[1..])
  }

  /** Does some prefix of `s` consist of the joined words? */
  function MatchesPrefix(s: string, words: seq<string>): (r: bool)
    requires |words| > 0
    ensures r ==> |s| >= MinJoinedLength(words)
    ensures r ==> Contains(s, words[|words| - 1])
    decreases |words|
  {
    && StartsWith(s, words[0])
    && (|words| == 1 ||
        var rest := s[|words[0]|..];
        var k := SeparatorLength(rest);
        MatchesPrefixStep(s, words, k);
        k > 0 && MatchesPrefix(rest[k..], words[1..]))
  }

  /** What the rest of the text after the first word and a separator shows about the whole text. */
  lemma MatchesPrefixStep(s: string, words: seq<string>, k: nat)
    requires |words| > 1 && StartsWith(s, words[0]) && k <= |s| - |words[0]|
    ensures |s[|words[0]|..][k..]| >= MinJoinedLength(words[1..]) && k > 0 ==> |s| >= MinJoinedLength(words)
    ensures Contains(s[|words[0]|..][k..], words[1..][|words[1..]| - 1]) ==> Contains(s, words[|words| - 1])
  {
    var n := |words[0]| + k;
    assert s[|words[0]|..][k..] == s[n..];
    assert words[1..][|words[1..]| - 1] == words[|words| - 1];
    ContainsInSuffix(s, n, words[|words| - 1]);
  }

  /** Unanchored matching: try every start position from left to right. */
  function ContainsMatch(path: string, words: seq<string>): (r: bool)
    requires |words| > 0
    ensures r ==> |path| >= MinJoinedLength(words)
    ensures r ==> Contains(path, words[|words| - 1])
    decreases |path|
  {
    MatchesPrefix(path, words) || (|path| > 0 && ContainsMatch(path[1..], words))
  }

  lemma {:induction false} JoinedStartsWithFirst(t: string, words: seq<string>)
    requires |words| > 0 && Joined(t, words)
    ensures StartsWith(t, words[0])
  {
    if |words| == 1 {
      assert t[..|words[0]|] == t;
    }
  }

  lemma WellFormedTail(words: seq<string>)
    requires WellFormedWords(words) && |words| > 1
    ensures WellFormedWords(words[1..])
  {
    var ws := words[1..];
    forall i | 1 <= i < |ws| ensures |ws[i]| > 0 && ws[i][0] != '\\' {
      assert ws[i] == words[i + 1];
    }
  }

  /** One step of soundness: a first word, a separator and joined remaining words make joined words. */
  lemma SoundStep(s: string, words: seq<string>, k: nat, j': nat)
    requires |words| > 1 && StartsWith(s, words[0])
    requires 0 < k <= |s| - |words[0]| && IsSeparator(s[|words[0]|..][..k])
    requires j' <= |s| - |words[0]| - k && Joined(s[|words[0]|..][k..][..j'], words[1..])
    ensures Joined(s[..|words[0]| + k + j'], words)
  {
    var w := words[0];
    var n := |w| + k;
    var t := s[..n + j'];
    SliceOfSlice(s, 0, n + j', 0, |w|);
    SliceOfSlice(s, 0, n + j', |w|, n);
    SliceOfSlice(s, |w|, |s|, 0, k);
    SliceOfSlice(s, 0, n + j', n, n + j');
    SliceOfSlice(s, |w|, |s|, k, |s| - |w|);
    SliceOfSlice(s[|w|..][k..], 0, |s| - n, 0, j');
    assert t[..|w|] == w;
    assert t[|w|..n] == s[|w|..][..k];
    assert t[n..] == s[n..n + j'];
    assert s[|w|..][k..][..j'] == s[n..n + j'];
    assert JoinedAfter(t, words, n);
  }

  /** Soundness of the prefix matcher: what it accepts starts with the joined words. */
  lemma {:induction false} MatchesPrefixSound(s: string, words: seq<string>)
    requires WellFormedWords(words) && MatchesPrefix(s, words)
    ensures exists j :: 0 <= j <= |s| && Joined(s[..j], words)
    decreases |words|
  {
    var w := words[0];
    if |words| == 1 {
      assert Joined(s[..|w|], words);
    } else {
      WellFormedTail(words);
      var rest := s[|w|..];
      var k := SeparatorLength(rest);
      MatchesPrefixSound(rest[k..], words[1..]);
      var j' :| 0 <= j' <= |rest[k..]| && Joined(rest[k..][..j'], words[1..]);
      SoundStep(s, words, k, j');
    }
  }

  /**
   * One step of completeness: in text that starts with joined words, the
   * separator after the first word is the one `SeparatorLength` finds.
   */
  lemma CompleteStep(s: string, words: seq<string>, j: nat) returns (m: nat)
    requires WellFormedWords(words) && |words| > 1 && j <= |s| && Joined(s[..j], words)
    ensures StartsWith(s, words[0])
    ensures m == SeparatorLength(s[|words[0]|..]) && 0 < m && |words[0]| + m <= j
    ensures Joined(s[|words[0]|..][m..][..j - |words[0]| - m], words[1..])
  {
    var w := words[0];
    var ws := words[1..];
    var t := s[..j];
    var n :| JoinedAfter(t, words, n);
    var rest := s[|w|..];
    m := n - |w|;
    assert s[..|w|] == t[..|w|];
    JoinedStartsWithFirst(t[n..], ws);
    assert words[1] == ws[0];
    assert n < j && rest[m] == t[n..][0];
    assert rest[..m] == t[|w|..n];
    SeparatorLengthExact(rest, m);
    assert rest[m..][..j - n] == t[n..];
  }

  /** Completeness of the prefix matcher: it accepts every text that starts with the joined words. */
  lemma {:induction false} MatchesPrefixComplete(s: string, words: seq<string>, j: nat)
    requires WellFormedWords(words) && j <= |s| && Joined(s[..j], words)
    ensures MatchesPrefix(s, words)
    decreases |words|
  {
    var w := words[0];
    if |words| == 1 {
      assert s[..|w|] == s[..j];
    } else {
      var m := CompleteStep(s, words, j);
      WellFormedTail(words);
      MatchesPrefixComplete(s[|w|..][m..], words[1..], j - |w| - m);
    }
  }

  /** The prefix matcher agrees with the definition of the joined words. */
  lemma MatchesPrefixIffJoined(s: string, words: seq<string>)
    requires WellFormedWords(words)
    ensures MatchesPrefix(s, words) <==> exists j :: 0 <= j <= |s| && Joined(s[..j], words)
  {
    if MatchesPrefix(s, words) {
      MatchesPrefixSound(s, words);
    }
    if j :| 0 <= j <= |s| && Joined(s[..j], words) {
      MatchesPrefixComplete(s, words, j);
    }
  }

  /** Soundness of the search: a match it finds is a match of the pattern. */
  lemma {:induction false} ContainsMatchSound(path: string, words: seq<string>)
    requires WellFormedWords(words) && ContainsMatch(path, words)
    ensures RegexMatches(path, words)
    decreases |path|
  {
    if MatchesPrefix(path, words) {
      MatchesPrefixSound(path, words);
      var j :| 0 <= j <= |path| && Joined(path[..j], words);
      assert path[0..j] == path[..j];
    } else {
      ContainsMatchSound(path[1..], words);
      var i, j :| 0 <= i <= j <= |path[1..]| && Joined(path[1..][i..j], words);
      assert path[1..][i..j] == path[i + 1..j + 1];
    }
  }

  /** Completeness of the search: it finds a match starting at any position where one occurs. */
  lemma {:induction false} ContainsMatchComplete(path: string, words: seq<string>, i: nat, j: nat)
    requires WellFormedWords(words) && i <= j <= |path| && Joined(path[i..j], words)
    ensures ContainsMatch(path, words)
    decreases i
  {
    if i == 0 {
      assert path[..j] == path[i..j];
      MatchesPrefixComplete(path, words, j);
    } else {
      SliceOfSlice(path, 1, |path|, i - 1, j - 1);
      assert path[1..][i - 1..j - 1] == path[i..j];
      ContainsMatchComplete(path[1..], words, i - 1, j - 1);
    }
  }

  /** The search matcher agrees with the meaning of the unanchored pattern. */
  lemma ContainsMatchIffRegexMatches(path: string, words: seq<string>)
    requires WellFormedWords(words)
    ensures ContainsMatch(path, words) <==> RegexMatches(path, words)
  {
    if ContainsMatch(path, words) {
      ContainsMatchSound(path, words);
    }
    if RegexMatches(path, words) {
      var i, j :| 0 <= i <= j <= |path| && Joined(path[i..j], words);
      ContainsMatchComplete(path, words, i, j);
    }
  }

  /** A word, a separator and joined words are joined words again. */
  lemma JoinedCons(w: string, sep: string, rest: string, words: seq<string>)
    requires |words| > 0 && IsSeparator(sep) && Joined(rest, words)
    ensures Joined(w + sep + rest, [w] + words)
  {
    var t := w + sep + rest;
    var n := |w| + |sep|;
    assert t[..|w|] == w;
    assert t[|w|..n] == sep;
    assert t[n..] == rest;
    assert ([w] + words)[1..] == words;
    assert JoinedAfter(t, [w] + words, n);
  }

  /** Joined words anywhere inside a path make the unanchored pattern match. */
  lemma RegexMatchesInside(before: string, t: string, after: string, words: seq<string>)
    requires |words| > 0 && Joined(t, words)
    ensures RegexMatches(before + t + after, words)
  {
    var p := before + t + after;
    assert p[|before|..|before| + |t|] == t;
  }

  /** Joined words match the pattern on their own. */
  lemma RegexMatchesWhole(t: string, words: seq<string>)
    requires |words| > 0 && Joined(t, words)
    ensures RegexMatches(t, words)
  {
    assert t[0..|t|] == t;
  }

  /** `/libass-wasm([\\]+|\/)dist([\\]+|\/)js([\\]+|\/)subtitles-octopus-worker\.wasm/` */
  function IsOctopusWasm(path: string): (r: bool)
    ensures r <==> RegexMatches(path, WasmWords)
  {
    LibassWordsWellFormed();
    ContainsMatchIffRegexMatches(path, WasmWords);
    ContainsMatch(path, WasmWords)
  }

  /** `/libass-wasm([\\]+|\/)dist([\\]+|\/)js([\\]+|\/)subtitles-octopus-worker/` */
  function IsOctopusAsset(path: string): (r: bool)
    ensures r <==> RegexMatches(path, AssetWords)
  {
    LibassWordsWellFormed();
    ContainsMatchIffRegexMatches(path, AssetWords);
    ContainsMatch(path, AssetWords)
  }

  lemma LibassWordsWellFormed()
    ensures WellFormedWords(WasmWords) && WellFormedWords(AssetWords)
  {
  }

  /** Lengthening the last word only narrows the prefix matcher. */
  lemma {:induction false} MatchesPrefixLongerLastWord(s: string, init: seq<string>, x: string, y: string)
    ensures MatchesPrefix(s, init + [x + y]) ==> MatchesPrefix(s, init + [x])
    decreases |init|
  {
    var long := init + [x + y];
    var short := init + [x];
    if |init| == 0 {
      if StartsWith(s, x + y) {
        assert s[..|x|] == (x + y)[..|x|] == x;
      }
    } else {
      assert long[0] == short[0] == init[0];
      assert long[1..] == init[1..] + [x + y];
      assert short[1..] == init[1..] + [x];
      if MatchesPrefix(s, long) {
        var rest := s[|init[0]|..];
        var k := SeparatorLength(rest);
        MatchesPrefixLongerLastWord(rest[k..], init[1..], x, y);
      }
    }
  }

  /** Lengthening the last word only narrows the unanchored matcher. */
  lemma {:induction false} ContainsMatchLongerLastWord(path: string, init: seq<string>, x: string, y: string)
    ensures ContainsMatch(path, init + [x + y]) ==> ContainsMatch(path, init + [x])
    decreases |path|
  {
    MatchesPrefixLongerLastWord(path, init, x, y);
    if |path| > 0 {
      ContainsMatchLongerLastWord(path[1..], init, x, y);
    }
  }

  /** The `.wasm` pattern is the file-loader pattern followed by `\.wasm`: every `.wasm` match is an asset match. */
  lemma OctopusWasmIsOctopusAsset(path: string)
    ensures IsOctopusWasm(path) ==> IsOctopusAsset(path)
  {
    assert "subtitles-octopus-worker" + ".wasm" == "subtitles-octopus-worker.wasm";
    ContainsMatchLongerLastWord(path, LibassDirs, "subtitles-octopus-worker", ".wasm");
  }

  /** The shortest texts the two libass patterns can match. */
  lemma OctopusMinimumLengths()
    ensures MinJoinedLength(WasmWords) == 49
    ensures MinJoinedLength(AssetWords) == 44
  {
    assert WasmWords[1..][1..][1..] == ["subtitles-octopus-worker.wasm"];
    assert MinJoinedLength(WasmWords[1..][1..]) == 2 + 1 + 29;
    assert MinJoinedLength(WasmWords[1..]) == 4 + 1 + 32;
    assert AssetWords[1..][1..][1..] == ["subtitles-octopus-worker"];
    assert MinJoinedLength(AssetWords[1..][1..]) == 2 + 1 + 24;
    assert MinJoinedLength(AssetWords[1..]) == 4 + 1 + 27;
  }

  /** Paths too short for the joined words match neither libass pattern. */
  lemma ShortPathsAreNotOctopus(path: string)
    ensures |path| < 49 ==> !IsOctopusWasm(path)
    ensures |path| < 44 ==> !IsOctopusAsset(path)
  {
    OctopusMinimumLengths();
  }
}
