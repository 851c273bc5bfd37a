/** The deterministic preflight: path flags, the sorted set of hot zones a
    change touches, public-API detection and the risk score. Every term of
    the raw risk is a multiple of one half, so the raw risk is kept as an
    exact count of half-points. */
module Preflight {
  import opened Wrappers
  import opened Text
  import opened Seqs
  import opened DiffModel
  import Classify

  /** `/^tsconfig(\..+)?\.json$/i` on an already lower-cased path: the
      optional middle after `tsconfig.` is at least one character, none of
      them a line terminator, since `.` does not match one. */
  predicate IsTsconfigName(lower: string) {
    lower == "tsconfig.json" ||
    (|lower| >= 15 && StartsWith(lower, "tsconfig.") && EndsWith(lower, ".json") &&
     forall i :: 9 <= i < |lower| - 5 ==> !IsLineTerminator(lower[i]))
  }

  /** `CONFIG_PATTERNS.some(r => r.test(path))`. */
  predicate IsConfigPath(path: string) {
    var lower := Lower(path);
    lower == "package.json" || lower == "package-lock.json" || IsTsconfigName(lower) ||
    StartsWith(lower, ".github/") || lower == "dockerfile" || StartsWith(lower, "docker/") ||
    StartsWith(lower, "scripts/") || EndsWith(lower, ".yml") || EndsWith(lower, ".yaml")
  }

  /** The hot-zone ids in declaration order. */
  const HotZoneIds: seq<string> := ["src/mcp", "src/reactive", "src/internal", "src/http", "auth", "security"]

  /** The same ids in code-unit order. */
  const SortedZoneIds: seq<string> := ["auth", "security", "src/http", "src/internal", "src/mcp", "src/reactive"]

  const AuthWords: seq<string> := ["auth", "oauth", "jwt", "token"]

  const SecurityWords: seq<string> := ["security", "crypto", "tls", "ssl"]

  /** `w` is a whole path segment of `s` at `k`: `(^|\/)w(\/|$)`. */
  predicate SegmentAt(s: string, w: string, k: int) {
    OccursAt(s, w, k) &&
    (k == 0 || s[k - 1] == '/') &&
    (k + |w| == |s| || s[k + |w|] == '/')
  }

  predicate HasSegment(s: string, words: seq<string>) {
    exists k, i | 0 <= k <= |s| && 0 <= i < |words| :: SegmentAt(s, words[i], k)
  }

  /** The pattern of hot zone `id` matches `path` (case-insensitively). */
  predicate MatchesZone(id: string, path: string) {
    var lower := Lower(path);
    if id == "auth" then HasSegment(lower, AuthWords)
    else if id == "security" then HasSegment(lower, SecurityWords)
    else id in HotZoneIds && StartsWith(lower, id + "/")
  }

  /** Some changed file lies in hot zone `id`. */
  predicate ZoneHit(id: string, files: seq<string>) {
    exists j :: 0 <= j < |files| && MatchesZone(id, files[j])
  }

  function HitBy(files: seq<string>): string -> bool {
    id => ZoneHit(id, files)
  }

  /** The hot zones hit by `files`, in sorted order. */
  function Hotspots(files: seq<string>): seq<string> {
    Filter(SortedZoneIds, HitBy(files))
  }

  predicate StrictlySorted(xs: seq<string>) {
    PairwiseOrdered(xs, (a, b) => StrLess(a, b))
  }

  /** Two strings that agree before index `k` and differ at `k` are ordered by their `k`-th characters. */
  lemma {:induction false} StrLessAt(a: string, b: string, k: nat)
    requires k < |a| && k < |b| && a[..k] == b[..k] && a[k] < b[k]
    ensures StrLess(a, b)
  {
    if k > 0 {
      assert a[1..][..k - 1] == a[..k][1..];
      assert b[1..][..k - 1] == b[..k][1..];
      StrLessAt(a[1..], b[1..], k - 1);
    }
  }

  lemma SortedZoneIdsSorted()
    ensures StrictlySorted(SortedZoneIds)

  {
    var z := SortedZoneIds;
    forall i, j | 0 <= i < j < |z| ensures StrLess(z[i], z[j]) {
      if i == 0 {
        StrLessAt(z[i], z[j], 0);
      } else if i == 1 {
        assert z[j][..1] == "s" == z[i][..1];
        StrLessAt(z[i], z[j], 1);
      } else {
        assert z[j][..4] == "src/" == z[i][..4];
        StrLessAt(z[i], z[j], 4);
      }
    }
  }

  /** The sorted list holds exactly the declared zone ids. */
  lemma SortedZoneIdsSame()
    ensures forall z :: z in SortedZoneIds <==> z in HotZoneIds
  {
    assert SortedZoneIds == [HotZoneIds[4], HotZoneIds[5], HotZoneIds[3], HotZoneIds[2], HotZoneIds[0], HotZoneIds[1]];
  }

  /** The hotspot list is strictly sorted (hence duplicate-free) and holds
      exactly the zone ids some changed file hits. */
  lemma HotspotsSortedSet(files: seq<string>)
    ensures StrictlySorted(Hotspots(files))
    ensures forall z :: z in Hotspots(files) <==> z in HotZoneIds && ZoneHit(z, files)
  {
    SortedZoneIdsSorted();
    SortedZoneIdsSame();
    FilterOrdered(SortedZoneIds, HitBy(files), (a, b) => StrLess(a, b));
    FilterMembers(SortedZoneIds, HitBy(files));
  }

  lemma ZoneHitSnoc(files: seq<string>, i: nat)
    requires i < |files|
    ensures forall z :: ZoneHit(z, files[..i + 1]) <==> ZoneHit(z, files[..i]) || MatchesZone(z, files[i])
  {
    forall z ensures ZoneHit(z, files[..i + 1]) <==> ZoneHit(z, files[..i]) || MatchesZone(z, files[i]) {
      if ZoneHit(z, files[..i]) {
        var j :| 0 <= j < i && MatchesZone(z, files[..i][j]);
        assert files[..i + 1][j] == files[j];
      }
      if ZoneHit(z, files[..i + 1]) {
        var j :| 0 <= j < i + 1 && MatchesZone(z, files[..i + 1][j]);
        if j < i {
          assert files[..i][j] == files[j];
        }
      }
      if MatchesZone(z, files[i]) {
        assert files[..i + 1][i] == files[i];
      }
    }
  }

  /** The loop of `detectHotspots`: every (file, zone) pair is checked and
      the zones that match are collected in a set. */
  method CollectHits(changedFiles: seq<string>) returns (hits: set<string>)
    ensures forall z :: z in hits <==> z in HotZoneIds && ZoneHit(z, changedFiles)
  {
    hits := {};
    for i := 0 to |changedFiles|
      invariant forall z :: z in hits <==> z in HotZoneIds && ZoneHit(z, changedFiles[..i])
    {
      for k := 0 to |HotZoneIds|
        invariant forall z :: z in hits <==>
          z in HotZoneIds && (ZoneHit(z, changedFiles[..i]) || (z in HotZoneIds[..k] && MatchesZone(z, changedFiles[i])))
      {
        if MatchesZone(HotZoneIds[k], changedFiles[i]) {
          hits := hits + {HotZoneIds[k]};
        }
        assert HotZoneIds[..k + 1] == HotZoneIds[..k] + [HotZoneIds[k]];
      }
      ZoneHitSnoc(changedFiles, i);
      assert HotZoneIds[..|HotZoneIds|] == HotZoneIds;
    }
    assert changedFiles[..|changedFiles|] == changedFiles;
  }

  /** `detectHotspots`: the hit set listed in sorted order. */
  method DetectHotspots(changedFiles: seq<string>) returns (hotspots: seq<string>)
    ensures hotspots == Hotspots(changedFiles)
  {
    var hits := CollectHits(changedFiles);
    SortedZoneIdsSame();
    hotspots := [];
    for k := 0 to |SortedZoneIds|
      invariant hotspots == Filter(SortedZoneIds[..k], HitBy(changedFiles))
    {
      var z := SortedZoneIds[k];
      assert z in HotZoneIds;
      FilterAppend(SortedZoneIds[..k], [z], HitBy(changedFiles));
      PrefixSnoc(SortedZoneIds, k);
      if z in hits {
        hotspots := hotspots + [z];
      }
    }
    assert SortedZoneIds[..|SortedZoneIds|] == SortedZoneIds;
  }

  /** Contents of every added and removed line of every file, in order. */
  function FilesChangedContents(files: seq<DiffFile>): seq<string> {
    if files == [] then [] else ChangedContents(FileLines(files[0])) + FilesChangedContents(files[1..])
  }

  /** `/^\s*(export\s+|module\.exports\b|exports\.)/i`. */
  predicate ExportsLine(line: string) {
    var t := TrimStart(line);
    (StartsWithIgnoreCase(t, "export") && |t| > 6 && IsJsSpace(t[6])) ||
    (StartsWithIgnoreCase(t, "module.exports") && (|t| == 14 || !IsWordChar(t[14]))) ||
    StartsWithIgnoreCase(t, "exports.")
  }

  predicate IsPublicEntryPath(path: string) {
    var lower := Lower(path);
    lower == "src/index.ts" || StartsWith(lower, "src/mcp/tools/")
  }

  /** `detectPublicApiChange`. */
  predicate DetectPublicApiChange(d: ParsedDiff, changedFiles: seq<string>) {
    (exists i :: 0 <= i < |changedFiles| && IsPublicEntryPath(changedFiles[i])) ||
    (var lines := FilesChangedContents(d.files);
     exists i :: 0 <= i < |lines| && ExportsLine(lines[i]))
  }

  /** The changed-file list: the caller's list when non-empty, else the new paths. */
  function ChangedFiles(d: ParsedDiff, provided: Option<seq<string>>): seq<string> {
    if provided.Some? && |provided.value| > 0 then provided.value else NewPaths(d.files)
  }

  /** The raw risk in half-points: base 1, one more above ten files, one half
      per hot zone, one and a half for an API change, one half for a config
      change and one when no test is touched. */
  function RawRiskHalves(filesChanged: nat, hotzones: nat, api: bool, config: bool, testsTouched: bool): nat {
    2 + (if filesChanged > 10 then 2 else 0) + hotzones + (if api then 3 else 0) +
    (if config then 1 else 0) + (if testsTouched then 0 else 2)
  }

  /** The same formula in real arithmetic, as the source writes it. */
  function RawRisk(filesChanged: nat, hotzones: nat, api: bool, config: bool, testsTouched: bool): real {
    1.0 + (if filesChanged > 10 then 1.0 else 0.0) + (hotzones as real) * 0.5 + (if api then 1.5 else 0.0) +
    (if config then 0.5 else 0.0) + (if testsTouched then 0.0 else 1.0)
  }

  lemma RawRiskHalvesExact(filesChanged: nat, hotzones: nat, api: bool, config: bool, testsTouched: bool)
    ensures RawRiskHalves(filesChanged, hotzones, api, config, testsTouched) as real ==
      2.0 * RawRisk(filesChanged, hotzones, api, config, testsTouched)
  {
  }

  /** `Math.ceil(h / 2)`: the least natural whose double reaches `h`. */
  function CeilHalf(h: nat): (c: nat)
    ensures 2 * c >= h && 2 * c < h + 2
  {
    (h + 1) / 2
  }

  /** `Math.min(5, Math.max(1, Math.ceil(raw)))` with the raw risk in half-points. */
  function RiskScore(halves: nat): (r: nat)
    ensures 1 <= r <= 5
    ensures 2 * r >= halves || r == 5
    ensures 2 * r < halves + 2 || r == 1
  {
    var c := CeilHalf(halves);
    if c < 1 then 1 else if c > 5 then 5 else c
  }

  lemma RiskScoreMonotone(h1: nat, h2: nat)
    requires h1 <= h2
    ensures RiskScore(h1) <= RiskScore(h2)
  {
  }

  /** More files, more hot zones, an API or config change, or untouched tests never lower the risk. */
  lemma RiskMonotone(f1: nat, z1: nat, a1: bool, c1: bool, t1: bool, f2: nat, z2: nat, a2: bool, c2: bool, t2: bool)
    requires f1 <= f2 && z1 <= z2 && (a1 ==> a2) && (c1 ==> c2) && (t2 ==> t1)
    ensures RawRiskHalves(f1, z1, a1, c1, t1) <= RawRiskHalves(f2, z2, a2, c2, t2)
    ensures RiskScore(RawRiskHalves(f1, z1, a1, c1, t1)) <= RiskScore(RawRiskHalves(f2, z2, a2, c2, t2))
  {
    RiskScoreMonotone(RawRiskHalves(f1, z1, a1, c1, t1), RawRiskHalves(f2, z2, a2, c2, t2));
  }

  datatype PreflightResult = PreflightResult(
    changedFiles: seq<string>,
    hotspots: seq<string>,
    publicApiChanged: bool,
    configChanged: bool,
    testsTouched: bool,
    isBinaryChange: bool,
    riskScore: nat,
    rawRiskHalves: nat,
    checksExecuted: nat)

  /** `runDeterministicPreflight`. */
  method RunDeterministicPreflight(d: ParsedDiff, provided: Option<seq<string>>) returns (r: PreflightResult)
    ensures r.changedFiles == ChangedFiles(d, provided)
    ensures provided.None? ==> r.changedFiles == NewPaths(d.files)
    ensures r.hotspots == Hotspots(r.changedFiles)
    ensures StrictlySorted(r.hotspots)
    ensures r.publicApiChanged == DetectPublicApiChange(d, r.changedFiles)
    ensures r.configChanged <==> exists i :: 0 <= i < |r.changedFiles| && IsConfigPath(r.changedFiles[i])
    ensures r.testsTouched <==> exists i :: 0 <= i < |r.changedFiles| && Classify.IsTestPath(r.changedFiles[i])
    ensures r.isBinaryChange <==> exists i :: 0 <= i < |d.files| && d.files[i].isBinary
    ensures r.rawRiskHalves as real ==
      2.0 * RawRisk(|r.changedFiles|, |r.hotspots|, r.publicApiChanged, r.configChanged, r.testsTouched)
    ensures r.riskScore == RiskScore(r.rawRiskHalves) && 1 <= r.riskScore <= 5
    ensures r.checksExecuted == 5
  {
    var changedFiles := ChangedFiles(d, provided);
    var hotspots := DetectHotspots(changedFiles);
    HotspotsSortedSet(changedFiles);
    var configChanged := exists i :: 0 <= i < |changedFiles| && IsConfigPath(changedFiles[i]);
    var testsTouched := exists i :: 0 <= i < |changedFiles| && Classify.IsTestPath(changedFiles[i]);
    var api := DetectPublicApiChange(d, changedFiles);
    var binary := exists i :: 0 <= i < |d.files| && d.files[i].isBinary;
    var raw := RawRiskHalves(|changedFiles|, |hotspots|, api, configChanged, testsTouched);
    RawRiskHalvesExact(|changedFiles|, |hotspots|, api, configChanged, testsTouched);
    r := PreflightResult(changedFiles, hotspots, api, configChanged, testsTouched, binary, RiskScore(raw), raw, 5);
  }

  lemma McpToolPathLower()
    ensures Lower("src/mcp/tools/x.ts") == "src/mcp/tools/x.ts"
  {
  }

  /** A path under `src/mcp/tools/` is in the `src/mcp` zone and is a public entry path. */
  lemma McpToolPathIsHot()
    ensures MatchesZone("src/mcp", "src/mcp/tools/x.ts")
    ensures IsPublicEntryPath("src/mcp/tools/x.ts")
  {
    var lower := "src/mcp/tools/x.ts";
    McpToolPathLower();
    assert lower[..8] == "src/mcp" + "/";
    assert lower[..14] == "src/mcp/tools/";
  }

  lemma McpToolPathNotConfig()
    ensures !IsConfigPath("src/mcp/tools/x.ts")
  {
    var lower := "src/mcp/tools/x.ts";
    McpToolPathLower();
    assert lower[..9][0] == 's' && lower[..8][1] == 'r' && lower[..7][0] == 's';
    assert lower[|lower| - 4..][3] == 's' && lower[|lower| - 5..][4] == 's';
  }

  /** A named tsconfig variant is a config path. */
  lemma TsconfigVariantIsConfig()
    ensures IsConfigPath("tsconfig.base.json")
  {
    var p := "tsconfig.base.json";
    assert Lower(p) == p;
    assert p[..9] == "tsconfig." && p[|p| - 5..] == ".json";
    assert IsTsconfigName(p);
  }

  /** A line break in the middle keeps `.+` from matching, so the path is not a tsconfig name. */
  lemma TsconfigLineBreakNotConfig()
    ensures !IsConfigPath("tsconfig.\n.json")
  {
    var p := "tsconfig.\n.json";
    assert Lower(p) == p;
    assert IsLineTerminator(p[9]);
    assert !IsTsconfigName(p);
    assert p[..8][0] == 't' && p[..9][0] == 't' && p[..7][0] == 't';
    assert p[|p| - 4..][3] == 'n' && p[|p| - 5..][4] == 'n';
  }

  lemma McpToolPathNotTest()
    ensures !Classify.IsTestPath("src/mcp/tools/x.ts")
  {
    var lower := "src/mcp/tools/x.ts";
    McpToolPathLower();
    assert '_' !in lower;
    forall k | 0 <= k <= |lower| - 11 ensures !OccursAt(lower, "/__tests__/", k) {
      assert lower[k..k + 11][1] == lower[k + 1];
    }
    assert lower[..6][0] == 's';
    assert lower[|lower| - 8..][0] == 'o' && lower[|lower| - 8..][6] == 't';
  }

  lemma ExportLineDetected()
    ensures ExportsLine("export const x = 2;")
  {
    var t := "export const x = 2;";
    assert SpacesEnd(t, 0) == 0;
    assert t[..6] == "export";
    assert Lower("export") == "export";
  }

  lemma ExportDiffContents(files: seq<DiffFile>)
    requires |files| == 1
    requires FileLines(files[0]) == [Remove("export const x = 1;", 1), Add("export const x = 2;", 1), Context("", 2, 2)]
    ensures FilesChangedContents(files) == ["export const x = 1;", "export const x = 2;"]
  {
    var lines := FileLines(files[0]);
    assert lines[2..] == [Context("", 2, 2)] && lines[2..][1..] == [];
    assert ChangedContents(lines[2..]) == [];
    assert lines[1..][1..] == lines[2..];
    assert ChangedContents(lines[1..]) == ["export const x = 2;"];
    assert ChangedContents(lines) == ["export const x = 1;"] + ChangedContents(lines[1..]);
    assert files[1..] == [];
  }

  /** A diff that rewrites an exported constant in `src/mcp/tools/x.ts`,
      with the lines its text parses to (the final newline leaves an empty
      context line): the file is in the `src/mcp` zone, the public API changed, and no
      config and no test is touched. */
  lemma McpToolExportScenario(d: ParsedDiff)
    requires |d.files| == 1 && d.files[0].newPath == "src/mcp/tools/x.ts"
    requires FileLines(d.files[0]) == [Remove("export const x = 1;", 1), Add("export const x = 2;", 1), Context("", 2, 2)]
    ensures ChangedFiles(d, None) == ["src/mcp/tools/x.ts"]
    ensures "src/mcp" in Hotspots(ChangedFiles(d, None))
    ensures DetectPublicApiChange(d, ChangedFiles(d, None))
    ensures !IsConfigPath(ChangedFiles(d, None)[0]) && !Classify.IsTestPath(ChangedFiles(d, None)[0])
  {
    var files := ChangedFiles(d, None);
    assert files == ["src/mcp/tools/x.ts"];
    ExportLineDetected();
    ExportDiffContents(d.files);
    McpToolPathIsHot();
    McpToolPathNotConfig();
    McpToolPathNotTest();
    HotspotsSortedSet(files);
    assert ZoneHit("src/mcp", files);
    assert "src/mcp" in HotZoneIds;
  }

  /** One changed file with one hot zone and an API change, no config and
      no tests: raw risk 4 (eight half-points) and risk 4. */
  lemma McpToolExportRisk()
    ensures RawRisk(1, 1, true, false, false) == 4.0
    ensures RawRiskHalves(1, 1, true, false, false) == 8 && RiskScore(8) == 4
  {
  }
}
