/** The change classifier: a first-match-wins decision list over the new
    paths of a parsed diff and the text of its added lines. Paths are
    compared after ASCII lower-casing. */
module Classify {
  import opened Text
  import opened Seqs
  import opened DiffModel

  datatype ChangeType = Feature | Bugfix | Refactor | Infra | Docs

  const DocExtensions: seq<string> := [".md", ".mdx", ".rst", ".txt"]

  predicate IsDocsPath(path: string) {
    var lower := Lower(path);
    StartsWith(lower, "docs/") ||
    lower == "readme.md" || EndsWith(lower, "/readme.md") ||
    exists i | 0 <= i < |DocExtensions| :: EndsWith(lower, DocExtensions[i])
  }

  predicate IsInfraPath(path: string) {
    var lower := Lower(path);
    StartsWith(lower, ".github/") || StartsWith(lower, "scripts/") || StartsWith(lower, "infra/") ||
    lower == "package.json" || lower == "package-lock.json" ||
    lower == "tsconfig.json" || lower == "tsconfig.test.json" ||
    lower == "dockerfile" || StartsWith(lower, "docker/") ||
    EndsWith(lower, ".yml") || EndsWith(lower, ".yaml")
  }

  predicate IsTestPath(path: string) {
    var lower := Lower(path);
    StartsWith(lower, "tests/") || Contains(lower, "/__tests__/") ||
    EndsWith(lower, ".test.ts") || EndsWith(lower, ".spec.ts") ||
    EndsWith(lower, ".test.js") || EndsWith(lower, ".spec.js")
  }

  /** Contents of the added lines of all files, in order. */
  function FilesAddedContents(files: seq<DiffFile>): seq<string> {
    if files == [] then [] else AddedContents(FileLines(files[0])) + FilesAddedContents(files[1..])
  }

  /** The added lines joined with '\n'. */
  function AddedText(d: ParsedDiff): string {
    Join(FilesAddedContents(d.files), "\n")
  }

  const BugfixKeywords: seq<string> := ["fix", "bug", "error", "null", "undefined", "regression", "crash", "leak"]

  /** `w` occurs at `k` in `s` with a word boundary (`\b`) on both sides. */
  predicate WholeWordAt(s: string, w: string, k: int) {
    OccursAt(s, w, k) &&
    (k == 0 || !IsWordChar(s[k - 1])) &&
    (k + |w| == |s| || !IsWordChar(s[k + |w|]))
  }

  /** `/\b(fix|bug|...|leak)\b/i`: one of the keywords, in any ASCII case, as a whole word. */
  predicate LooksLikeBugfix(text: string) {
    var s := Lower(text);
    exists k, i | 0 <= k <= |s| && 0 <= i < |BugfixKeywords| :: WholeWordAt(s, BugfixKeywords[i], k)
  }

  /** `Math.ceil(n / 2)` for a natural `n`. */
  function HalfUp(n: nat): nat {
    (n + 1) / 2
  }

  function Min(a: int, b: int): int { if a <= b then a else b }

  function Max(a: int, b: int): int { if a >= b then a else b }

  /** `min(a, r) / max(1, max(a, r)) >= 0.6`, compared exactly. */
  predicate BalancedChurn(added: nat, removed: nat) {
    5 * Min(added, removed) >= 3 * Max(1, Max(added, removed))
  }

  /** `classifyChange`. */
  function ClassifyChange(d: ParsedDiff): ChangeType {
    var paths := NewPaths(d.files);
    if |paths| == 0 then Refactor
    else if |Filter(paths, IsDocsPath)| == |paths| then Docs
    else
      var infraCount := |Filter(paths, IsInfraPath)|;
      if infraCount > 0 && infraCount >= HalfUp(|paths|) then Infra
      else LaterRules(d)
  }

  /** The rules after the docs and infra rules: a new non-docs file, a bugfix
      keyword, test-only paths, then balanced churn. */
  function LaterRules(d: ParsedDiff): ChangeType {
    var paths := NewPaths(d.files);
    if exists i | 0 <= i < |d.files| :: d.files[i].isNew && !IsDocsPath(d.files[i].newPath) then Feature
    else if LooksLikeBugfix(AddedText(d)) then Bugfix
    else if forall i | 0 <= i < |paths| :: IsTestPath(paths[i]) then Refactor
    else if d.linesAdded + d.linesRemoved >= 20 && BalancedChurn(d.linesAdded, d.linesRemoved) then Refactor
    else Feature
  }

  /** At least half of the paths (rounded up) are infrastructure paths. */
  predicate InfraMajority(files: seq<DiffFile>) {
    var infra := |Filter(NewPaths(files), IsInfraPath)|;
    infra > 0 && 2 * infra >= |files|
  }

  predicate AllDocs(files: seq<DiffFile>) {
    forall i :: 0 <= i < |files| ==> IsDocsPath(files[i].newPath)
  }

  /** The first two rules stated over the files: every path a docs path, and
      infra paths at least half of them. */
  function ClassifySpec(d: ParsedDiff): ChangeType {
    if d.files == [] then Refactor
    else if AllDocs(d.files) then Docs
    else if InfraMajority(d.files) then Infra
    else LaterRules(d)
  }

  lemma HalfUpBound(c: nat, n: nat)
    ensures c >= HalfUp(n) <==> 2 * c >= n
  {
  }

  /** The classifier follows the decision list: the docs count equals the
      path count exactly when every path is a docs path, and the infra count
      reaches `ceil(n/2)` exactly when it is at least half of `n`. */
  lemma ClassifyChangeMatchesSpec(d: ParsedDiff)
    ensures ClassifyChange(d) == ClassifySpec(d)
  {
    var paths := NewPaths(d.files);
    assert |Filter(paths, IsDocsPath)| == |paths| <==> AllDocs(d.files) by {
      FilterLengthAll(paths, IsDocsPath);
    }
    HalfUpBound(|Filter(paths, IsInfraPath)|, |paths|);
  }

  /** The outcome is `docs` exactly when there is a file and every new path is a docs path. */
  lemma DocsIff(d: ParsedDiff)
    ensures ClassifyChange(d) == Docs <==> |d.files| > 0 && AllDocs(d.files)
  {
    ClassifyChangeMatchesSpec(d);
  }

  /** The outcome is `infra` exactly when not all paths are docs and the
      infra paths are a non-empty half or more. */
  lemma InfraIff(d: ParsedDiff)
    ensures ClassifyChange(d) == Infra <==> |d.files| > 0 && !AllDocs(d.files) && InfraMajority(d.files)
  {
    ClassifyChangeMatchesSpec(d);
  }

  /** A bugfix keyword in the added text decides `bugfix` unless an earlier rule applies. */
  lemma BugfixWhenKeyword(d: ParsedDiff)
    requires |d.files| > 0 && !AllDocs(d.files) && !InfraMajority(d.files)
    requires forall i :: 0 <= i < |d.files| ==> !d.files[i].isNew || IsDocsPath(d.files[i].newPath)
    ensures ClassifyChange(d) == Bugfix <==> LooksLikeBugfix(AddedText(d))
  {
    ClassifyChangeMatchesSpec(d);
  }

  lemma MulPositive(a: real, b: real)
    requires a >= 0.0 && b > 0.0
    ensures a * b >= 0.0
    ensures a > 0.0 ==> a * b > 0.0
  {
  }

  /** For a positive divisor, `x / m >= c` is `x >= c * m`. */
  lemma DivAtLeast(x: real, m: real, c: real)
    requires m > 0.0
    ensures x / m >= c <==> x >= c * m
  {
    var q := x / m;
    assert q * m == x;
    if q >= c {
      MulPositive(q - c, m);
      assert (q - c) * m == q * m - c * m;
    } else {
      MulPositive(c - q, m);
      assert (c - q) * m == c * m - q * m;
    }
  }

  /** The churn rule compares the real ratio `min / max(1, max)` with 0.6. */
  lemma BalancedChurnIsRatio(added: nat, removed: nat)
    ensures BalancedChurn(added, removed) <==>
      (Min(added, removed) as real) / (Max(1, Max(added, removed)) as real) >= 0.6
  {
    DivAtLeast(Min(added, removed) as real, Max(1, Max(added, removed)) as real, 0.6);
  }

  /** A change to README.md alone is documentation. */
  lemma ReadmeOnlyIsDocs(hunks: seq<DiffHunk>, changed: set<nat>, added: nat, removed: nat)
    ensures ClassifyChange(ParsedDiff([DiffFile("README.md", "README.md", false, false, false, hunks, changed)], added, removed)) == Docs
  {
    assert Lower("README.md") == "readme.md";
    var paths := NewPaths([DiffFile("README.md", "README.md", false, false, false, hunks, changed)]);
    assert paths == ["README.md"];
    assert IsDocsPath("README.md");
    assert Filter(paths, IsDocsPath) == ["README.md"];
  }

  lemma PackageJsonIsInfra()
    ensures IsInfraPath("package.json") && !IsDocsPath("package.json")
  {
    var lower := Lower("package.json");
    assert lower == "package.json";
    assert lower[..5][0] == 'p' && lower[2..][0] == 'c';
    forall i | 0 <= i < |DocExtensions| ensures !EndsWith(lower, DocExtensions[i]) {
      assert lower[|lower| - 1] == 'n';
    }
  }

  lemma WorkflowIsInfra()
    ensures IsInfraPath(".github/workflows/test.yml")
  {
    assert Lower(".github/workflows/test.yml")[..8] == ".github/";
  }

  /** A package.json edit with a workflow file is infrastructure. */
  lemma PackageAndWorkflowIsInfra(f1: DiffFile, f2: DiffFile, added: nat, removed: nat)
    requires f1.newPath == "package.json" && f2.newPath == ".github/workflows/test.yml"
    ensures ClassifyChange(ParsedDiff([f1, f2], added, removed)) == Infra
  {
    PackageJsonIsInfra();
    WorkflowIsInfra();
    InfraIff(ParsedDiff([f1, f2], added, removed));
    var paths := NewPaths([f1, f2]);
    FilterAll(paths, IsInfraPath);
  }

  /** "fix crash" contains a bugfix keyword. */
  lemma FixCrashLooksLikeBugfix()
    ensures LooksLikeBugfix("  return \"fix crash\";")
  {
    var s := Lower("  return \"fix crash\";");
    assert s[10..13] == "fix";
    assert WholeWordAt(s, BugfixKeywords[0], 10);
  }
  /** A new file outside the documentation paths decides `feature` once the
      docs and infra rules do not apply. */
  lemma NewNonDocsFileIsFeature(d: ParsedDiff, k: nat)
    requires |d.files| > 0 && !AllDocs(d.files) && !InfraMajority(d.files)
    requires k < |d.files| && d.files[k].isNew && !IsDocsPath(d.files[k].newPath)
    ensures ClassifyChange(d) == Feature
  {
    ClassifyChangeMatchesSpec(d);
  }

  /** With no earlier rule applying, test-only paths decide `refactor`. */
  lemma TestsOnlyIsRefactor(d: ParsedDiff)
    requires |d.files| > 0 && !AllDocs(d.files) && !InfraMajority(d.files)
    requires forall i :: 0 <= i < |d.files| ==> !d.files[i].isNew || IsDocsPath(d.files[i].newPath)
    requires !LooksLikeBugfix(AddedText(d))
    requires forall i :: 0 <= i < |d.files| ==> IsTestPath(d.files[i].newPath)
    ensures ClassifyChange(d) == Refactor
  {
    ClassifyChangeMatchesSpec(d);
    var paths := NewPaths(d.files);
    assert forall i | 0 <= i < |paths| :: IsTestPath(paths[i]) by {
      forall i | 0 <= i < |paths| ensures IsTestPath(paths[i]) {
        assert paths[i] == d.files[i].newPath;
      }
    }
  }

  /** The last two rules: when not every path is a test path and no earlier
      rule applies, the result is `refactor` exactly for a churn of at least
      20 lines with `min / max(1, max) >= 0.6`, and `feature` otherwise. */
  lemma ChurnDecides(d: ParsedDiff, k: nat)
    requires |d.files| > 0 && !AllDocs(d.files) && !InfraMajority(d.files)
    requires forall i :: 0 <= i < |d.files| ==> !d.files[i].isNew || IsDocsPath(d.files[i].newPath)
    requires !LooksLikeBugfix(AddedText(d))
    requires k < |d.files| && !IsTestPath(d.files[k].newPath)
    ensures ClassifyChange(d) == Refactor <==>
      d.linesAdded + d.linesRemoved >= 20 &&
      (Min(d.linesAdded, d.linesRemoved) as real) / (Max(1, Max(d.linesAdded, d.linesRemoved)) as real) >= 0.6
    ensures ClassifyChange(d) == Refactor || ClassifyChange(d) == Feature
  {
    ClassifyChangeMatchesSpec(d);
    BalancedChurnIsRatio(d.linesAdded, d.linesRemoved);
    var paths := NewPaths(d.files);
    assert paths[k] == d.files[k].newPath;
  }

  /** `src/newFeature.ts` is neither a docs, an infra nor a test path. */
  lemma NewFeaturePathKind()
    ensures !IsDocsPath("src/newFeature.ts") && !IsInfraPath("src/newFeature.ts")
  {
    var lower := Lower("src/newFeature.ts");
    assert lower == "src/newfeature.ts";
    assert lower[0] == 's' && lower[3] == '/';
    assert lower[|lower| - 1] == 's' && lower[|lower| - 2] == 't' && lower[|lower| - 3] == '.';
    forall i | 0 <= i < |DocExtensions| ensures !EndsWith(lower, DocExtensions[i]) {
      assert lower[|lower| - 1] == 's';
    }
  }

  /** A brand-new `src/newFeature.ts` alone is a `feature`. */
  lemma NewSrcFileIsFeature(f: DiffFile, added: nat, removed: nat)
    requires f.newPath == "src/newFeature.ts" && f.isNew
    ensures ClassifyChange(ParsedDiff([f], added, removed)) == Feature
  {
    var d := ParsedDiff([f], added, removed);
    NewFeaturePathKind();
    assert !IsDocsPath(d.files[0].newPath);
    assert NewPaths(d.files) == ["src/newFeature.ts"];
    assert Filter(NewPaths(d.files), IsInfraPath) == [];
    NewNonDocsFileIsFeature(d, 0);
  }

  /** `src/a.ts` is neither a docs nor an infra path. */
  lemma SrcAPathKind()
    ensures !IsDocsPath("src/a.ts") && !IsInfraPath("src/a.ts")
  {
    var lower := Lower("src/a.ts");
    assert lower == "src/a.ts";
    assert lower[0] == 's' && lower[3] == '/';
    forall i | 0 <= i < |DocExtensions| ensures !EndsWith(lower, DocExtensions[i]) {
      assert lower[|lower| - 1] == 's';
    }
  }

  /** The edit of `src/a.ts` whose one added line is `  return "fix crash";`
      is a `bugfix`: the lines are those its text parses to, ending with the
      empty context line the final newline leaves. */
  lemma FixCrashIsBugfix(f: DiffFile, added: nat, removed: nat)
    requires f.newPath == "src/a.ts" && !f.isNew
    requires FileLines(f) == [
      Context("export function a() {", 1, 1),
      Remove("  return \"ok\";", 2),
      Add("  return \"fix crash\";", 2),
      Context("}", 3, 3),
      Context("", 4, 4)]
    ensures ClassifyChange(ParsedDiff([f], added, removed)) == Bugfix
  {
    var d := ParsedDiff([f], added, removed);
    SrcAPathKind();
    assert !IsDocsPath(d.files[0].newPath);
    assert NewPaths(d.files) == ["src/a.ts"];
    assert Filter(NewPaths(d.files), IsInfraPath) == [];
    var lines := FileLines(f);
    assert AddedContents(lines[4..]) == [] by {
      assert lines[4..][1..] == [];
    }
    assert AddedContents(lines[3..]) == [] by {
      assert lines[3..][1..] == lines[4..];
    }
    assert AddedContents(lines[2..]) == ["  return \"fix crash\";"] by {
      assert lines[2..][1..] == lines[3..];
    }
    assert AddedContents(lines[1..]) == AddedContents(lines[2..]) by {
      assert lines[1..][1..] == lines[2..];
    }
    assert AddedContents(lines) == AddedContents(lines[1..]);
    assert FilesAddedContents(d.files) == ["  return \"fix crash\";"] by {
      assert d.files[1..] == [];
    }
    assert AddedText(d) == "  return \"fix crash\";";
    FixCrashLooksLikeBugfix();
    BugfixWhenKeyword(d);
  }
}
