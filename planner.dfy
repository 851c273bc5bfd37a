/** The context planner (`createContextPlan`): a priority in 1..10 per
    non-binary file, a stable sort by priority, a cut to `maxFiles`, a token
    budget split in proportion to priority with a floor of 200, and one
    rescale pass when the floors push the total over the budget. All
    arithmetic is on integers; `Math.floor` of a non-negative quotient is
    integer division. */
module Planner {
  import opened Wrappers
  import opened Text
  import opened Seqs
  import opened DiffModel
  import opened Preflight
  import opened Numbers

  datatype Strategy = Focused | Broad

  /** A file with its priority and reason, before it gets a budget. */
  datatype Ranked = Ranked(file: string, priority: int, reason: string)

  datatype Allocation = Allocation(file: string, priority: int, tokenBudget: int, reason: string)

  datatype ContextPlan = ContextPlan(budget: int, strategy: Strategy, allocations: seq<Allocation>)

  /** Lines of a hunk body that are not context lines. */
  function NonContext(lines: seq<DiffLine>): nat {
    if lines == [] then 0 else (if lines[0].Context? then 0 else 1) + NonContext(lines[1..])
  }

  /** `estimateLinesChanged`: the non-context lines over all hunks. */
  function EstimateLinesChanged(hunks: seq<DiffHunk>): nat {
    if hunks == [] then 0 else NonContext(hunks[0].lines) + EstimateLinesChanged(hunks[1..])
  }

  lemma {:induction false} NonContextIsAddsAndRemoves(lines: seq<DiffLine>)
    ensures NonContext(lines) == CountAdds(lines) + CountRemoves(lines)
  {
    if lines != [] {
      NonContextIsAddsAndRemoves(lines[1..]);
    }
  }

  /** The estimate counts exactly the added and the removed lines of the file. */
  lemma {:induction false} EstimateIsAddsAndRemoves(hunks: seq<DiffHunk>)
    ensures EstimateLinesChanged(hunks) == HunksAdds(hunks) + HunksRemoves(hunks)
  {
    if hunks != [] {
      NonContextIsAddsAndRemoves(hunks[0].lines);
      EstimateIsAddsAndRemoves(hunks[1..]);
    }
  }

  /** The hotspot ids that have a path prefix; `auth` and `security` have none. */
  const PrefixZones: seq<string> := ["src/mcp", "src/reactive", "src/internal", "src/http"]

  /** `isHotzone`: some hotspot id with a prefix is, followed by `/`, a
      case-insensitive prefix of the path. */
  predicate IsHotzone(path: string, hotspots: seq<string>) {
    exists i | 0 <= i < |hotspots| :: hotspots[i] in PrefixZones && StartsWithIgnoreCase(path, hotspots[i] + "/")
  }

  predicate LargeChange(f: DiffFile) {
    EstimateLinesChanged(f.hunks) > 50
  }

  /** The reasons `calculatePriority` records, in the order it checks them. */
  function Bonuses(f: DiffFile, pre: PreflightResult): seq<string> {
    (if LargeChange(f) then ["large diff chunk"] else []) +
    (if f.isNew then ["new file"] else []) +
    (if f.isDeleted then ["deleted file"] else []) +
    (if IsHotzone(f.newPath, pre.hotspots) then ["hotzone"] else []) +
    (if pre.publicApiChanged then ["possible public API change"] else [])
  }

  /** The priority before clamping: 5, +1 for a large change, +2 for a new
      file, -1 for a deleted file, +2 in a hotzone, +1 when the API changed. */
  function RawPriority(f: DiffFile, pre: PreflightResult): int {
    5 + (if LargeChange(f) then 1 else 0) + (if f.isNew then 2 else 0) - (if f.isDeleted then 1 else 0) +
    (if IsHotzone(f.newPath, pre.hotspots) then 2 else 0) + (if pre.publicApiChanged then 1 else 0)
  }

  function ReasonText(bonuses: seq<string>): string {
    if bonuses == [] then "changed file" else Join(bonuses, ", ")
  }

  /** `calculatePriority`: start at 5 and adjust once per rule that applies,
      recording a reason each time. */
  method CalculatePriority(f: DiffFile, pre: PreflightResult) returns (priority: int, reason: string)
    ensures priority == Clamp(RawPriority(f, pre), 1, 10) && 1 <= priority <= 10
    ensures reason == ReasonText(Bonuses(f, pre))
  {
    var p := 5;
    var reasons: seq<string> := [];
    ghost var hot := IsHotzone(f.newPath, pre.hotspots);
    if EstimateLinesChanged(f.hunks) > 50 {
      p := p + 1;
      reasons := reasons + ["large diff chunk"];
    }
    if f.isNew {
      p := p + 2;
      reasons := reasons + ["new file"];
    }
    if f.isDeleted {
      p := p - 1;
      reasons := reasons + ["deleted file"];
    }
    assert reasons == (if LargeChange(f) then ["large diff chunk"] else []) +
      (if f.isNew then ["new file"] else []) + (if f.isDeleted then ["deleted file"] else []);
    if IsHotzone(f.newPath, pre.hotspots) {
      p := p + 2;
      reasons := reasons + ["hotzone"];
    }
    if pre.publicApiChanged {
      p := p + 1;
      reasons := reasons + ["possible public API change"];
    }
    assert reasons == Bonuses(f, pre);
    priority := Clamp(p, 1, 10);
    reason := if |reasons| > 0 then Join(reasons, ", ") else "changed file";
  }

  lemma JoinHead(parts: seq<string>, sep: string)
    requires |parts| > 0 && |parts[0]| > 0
    ensures |Join(parts, sep)| > 0 && Join(parts, sep)[0] == parts[0][0]
  {
  }

  /** The reason is `changed file` exactly when no rule applies, and then the
      priority is the base 5. */
  lemma ChangedFileIff(f: DiffFile, pre: PreflightResult)
    ensures ReasonText(Bonuses(f, pre)) == "changed file" <==>
      !LargeChange(f) && !f.isNew && !f.isDeleted && !IsHotzone(f.newPath, pre.hotspots) && !pre.publicApiChanged
    ensures ReasonText(Bonuses(f, pre)) == "changed file" ==> Clamp(RawPriority(f, pre), 1, 10) == 5
  {
    var b := Bonuses(f, pre);
    if b != [] {
      assert b[0] in ["large diff chunk", "new file", "deleted file", "hotzone", "possible public API change"];
      JoinHead(b, ", ");
      assert Join(b, ", ")[0] != "changed file"[0];
    }
  }

  /** Before clamping the priority lies in 4..11, so the clamp to 1..10
      binds only at the top. */
  lemma RawPriorityRange(f: DiffFile, pre: PreflightResult)
    ensures 4 <= RawPriority(f, pre) <= 11
    ensures Clamp(RawPriority(f, pre), 1, 10) == Min(RawPriority(f, pre), 10)
  {
  }

  function RankedOf(f: DiffFile, pre: PreflightResult): Ranked {
    Ranked(f.newPath, Clamp(RawPriority(f, pre), 1, 10), ReasonText(Bonuses(f, pre)))
  }

  /** The non-binary files, ranked, in diff order. */
  function RankAll(files: seq<DiffFile>, pre: PreflightResult): seq<Ranked> {
    if files == [] then []
    else
      var last := files[|files| - 1];
      RankAll(files[..|files| - 1], pre) + (if last.isBinary then [] else [RankedOf(last, pre)])
  }

  /** The filter-and-map step: one pass over the diff's files. */
  method RankFiles(files: seq<DiffFile>, pre: PreflightResult) returns (ranked: seq<Ranked>)
    ensures ranked == RankAll(files, pre)
  {
    ranked := [];
    for i := 0 to |files|
      invariant ranked == RankAll(files[..i], pre)
    {
      assert files[..i + 1][..i] == files[..i];
      if !files[i].isBinary {
        var priority, reason := CalculatePriority(files[i], pre);
        ranked := ranked + [Ranked(files[i].newPath, priority, reason)];
      }
    }
    assert files[..|files|] == files;
  }

  function NegPriority(r: Ranked): int {
    -r.priority
  }

  /** The sort by priority, highest first and stable among ties, cut to `maxFiles`. */
  function Selected(files: seq<DiffFile>, pre: PreflightResult, maxFiles: int): seq<Ranked> {
    var sorted := SortBy(RankAll(files, pre), NegPriority);
    sorted[..Min(Max(maxFiles, 0), |sorted|)]
  }

  function SumPriority(xs: seq<Ranked>): int {
    if xs == [] then 0 else SumPriority(xs[..|xs| - 1]) + xs[|xs| - 1].priority
  }

  function SumBudgets(xs: seq<Allocation>): int {
    if xs == [] then 0 else SumBudgets(xs[..|xs| - 1]) + xs[|xs| - 1].tokenBudget
  }

  /** `Math.max(200, Math.floor(budget * priority / totalPriority))`. */
  function Share(budget: int, priority: int, total: int): int
    requires total != 0
  {
    Max(200, (budget * priority) / total)
  }

  /** `totalPriority`: the sum of the priorities, or 1 when that is 0. */
  function TotalOf(xs: seq<Ranked>): (t: int)
    ensures t != 0
  {
    if SumPriority(xs) == 0 then 1 else SumPriority(xs)
  }

  function AllocationOf(x: Ranked, budget: int, total: int): Allocation
    requires total != 0
  {
    Allocation(x.file, x.priority, Share(budget, x.priority, total), x.reason)
  }

  function InitialWith(xs: seq<Ranked>, budget: int, total: int): (r: seq<Allocation>)
    requires total != 0
    ensures |r| == |xs|
    ensures forall i :: 0 <= i < |xs| ==> r[i] == AllocationOf(xs[i], budget, total)
  {
    if xs == [] then [] else InitialWith(xs[..|xs| - 1], budget, total) + [AllocationOf(xs[|xs| - 1], budget, total)]
  }

  /** The proportional split of the budget over the selected files. */
  function Initial(xs: seq<Ranked>, budget: int): (r: seq<Allocation>)
    ensures |r| == |xs|
  {
    InitialWith(xs, budget, TotalOf(xs))
  }

  /** The rescaled budget: `Math.max(200, Math.floor(tokenBudget * (budget / totalTokens)))`. */
  function RescaledOf(a: Allocation, budget: int, totalTokens: int): Allocation
    requires totalTokens != 0
  {
    a.(tokenBudget := Max(200, (a.tokenBudget * budget) / totalTokens))
  }

  /** The rescale pass over every allocation. */
  function Rescaled(xs: seq<Allocation>, budget: int, totalTokens: int): (r: seq<Allocation>)
    requires totalTokens != 0
    ensures |r| == |xs|
    ensures forall i :: 0 <= i < |xs| ==> r[i] == RescaledOf(xs[i], budget, totalTokens)
  {
    if xs == [] then [] else Rescaled(xs[..|xs| - 1], budget, totalTokens) + [RescaledOf(xs[|xs| - 1], budget, totalTokens)]
  }

  function PlanBudget(tokenBudget: Option<int>): int {
    Clamp(tokenBudget.GetOr(8000), 1000, 50000)
  }

  function PlanMaxFiles(maxFiles: Option<int>): int {
    Clamp(maxFiles.GetOr(5), 1, 20)
  }

  function StrategyOf(d: ParsedDiff): Strategy {
    if |d.files| <= 3 && d.linesAdded + d.linesRemoved <= 200 then Broad else Focused
  }

  /** The allocations after the split and, when the floors overshoot, the rescale. */
  function Budgeted(xs: seq<Ranked>, budget: int): seq<Allocation> {
    var planned := Initial(xs, budget);
    if SumBudgets(planned) > budget && budget > 0 then Rescaled(planned, budget, SumBudgets(planned)) else planned
  }

  /** What `createContextPlan` returns. */
  function Plan(d: ParsedDiff, pre: PreflightResult, tokenBudget: Option<int>, maxFiles: Option<int>): ContextPlan {
    var budget := PlanBudget(tokenBudget);
    ContextPlan(budget, StrategyOf(d), Budgeted(Selected(d.files, pre, PlanMaxFiles(maxFiles)), budget))
  }

  /** The split step: the total priority, then each file's share. */
  method SplitBudget(xs: seq<Ranked>, budget: int) returns (planned: seq<Allocation>)
    ensures planned == Initial(xs, budget)
  {
    var sum := 0;
    for i := 0 to |xs|
      invariant sum == SumPriority(xs[..i])
    {
      assert xs[..i + 1][..i] == xs[..i];
      sum := sum + xs[i].priority;
    }
    assert xs[..|xs|] == xs;
    var total := if sum == 0 then 1 else sum;
    planned := [];
    for i := 0 to |xs|
      invariant |planned| == i
      invariant forall j :: 0 <= j < i ==> planned[j] == AllocationOf(xs[j], budget, total)
    {
      planned := planned + [Allocation(xs[i].file, xs[i].priority, Max(200, (budget * xs[i].priority) / total), xs[i].reason)];
    }
  }

  /** The total of the budgets, then the in-place rescale when it exceeds the budget. */
  method Rescale(planned: seq<Allocation>, budget: int) returns (out: seq<Allocation>)
    requires budget > 0
    ensures out == if SumBudgets(planned) > budget then Rescaled(planned, budget, SumBudgets(planned)) else planned
  {
    var totalTokens := 0;
    for i := 0 to |planned|
      invariant totalTokens == SumBudgets(planned[..i])
    {
      assert planned[..i + 1][..i] == planned[..i];
      totalTokens := totalTokens + planned[i].tokenBudget;
    }
    assert planned[..|planned|] == planned;
    out := planned;
    if totalTokens > budget {
      for i := 0 to |out|
        invariant |out| == |planned|
        invariant forall j :: 0 <= j < i ==> out[j] == RescaledOf(planned[j], budget, totalTokens)
        invariant forall j :: i <= j < |out| ==> out[j] == planned[j]
      {
        out := out[i := out[i].(tokenBudget := Max(200, (out[i].tokenBudget * budget) / totalTokens))];
      }
    }
  }

  /** `createContextPlan`. */
  method CreateContextPlan(d: ParsedDiff, pre: PreflightResult, tokenBudget: Option<int>, maxFiles: Option<int>)
    returns (plan: ContextPlan)
    ensures plan == Plan(d, pre, tokenBudget, maxFiles)
  {
    var budget := Clamp(tokenBudget.GetOr(8000), 1000, 50000);
    var limit := Clamp(maxFiles.GetOr(5), 1, 20);
    var strategy := if |d.files| <= 3 && d.linesAdded + d.linesRemoved <= 200 then Broad else Focused;
    var ranked := RankFiles(d.files, pre);
    var sorted := SortBy(ranked, NegPriority);
    var allocations := sorted[..Min(limit, |sorted|)];
    var planned := SplitBudget(allocations, budget);
    planned := Rescale(planned, budget);
    plan := ContextPlan(budget, strategy, planned);
  }

  // ---------------------------------------------------------------------
  // Properties

  /** The budget is clamped to 1000..50000 and the file cap to 1..20. */
  lemma PlanLimits(tokenBudget: Option<int>, maxFiles: Option<int>)
    ensures 1000 <= PlanBudget(tokenBudget) <= 50000 && 1 <= PlanMaxFiles(maxFiles) <= 20
    ensures tokenBudget.None? ==> PlanBudget(tokenBudget) == 8000
    ensures maxFiles.None? ==> PlanMaxFiles(maxFiles) == 5
  {
  }

  /** `broad` exactly for at most three files and at most 200 changed lines. */
  lemma BroadIff(d: ParsedDiff, pre: PreflightResult, tokenBudget: Option<int>, maxFiles: Option<int>)
    ensures Plan(d, pre, tokenBudget, maxFiles).strategy == Broad <==>
      |d.files| <= 3 && d.linesAdded + d.linesRemoved <= 200
  {
  }

  lemma {:induction false} RankAllFromFiles(files: seq<DiffFile>, pre: PreflightResult)
    ensures |RankAll(files, pre)| <= |files|
    ensures forall r :: r in RankAll(files, pre) ==>
      (exists i :: 0 <= i < |files| && !files[i].isBinary && r == RankedOf(files[i], pre))
  {
    if files != [] {
      var init := files[..|files| - 1];
      RankAllFromFiles(init, pre);
      forall r | r in RankAll(files, pre)
        ensures exists i :: 0 <= i < |files| && !files[i].isBinary && r == RankedOf(files[i], pre)
      {
        if r in RankAll(init, pre) {
          var i :| 0 <= i < |init| && !init[i].isBinary && r == RankedOf(init[i], pre);
          assert files[i] == init[i];
        } else {
          assert r == RankedOf(files[|files| - 1], pre);
        }
      }
    }
  }

  lemma BudgetedShape(xs: seq<Ranked>, budget: int)
    ensures |Budgeted(xs, budget)| == |xs|
    ensures forall i :: 0 <= i < |xs| ==>
      Budgeted(xs, budget)[i].file == xs[i].file && Budgeted(xs, budget)[i].priority == xs[i].priority &&
      Budgeted(xs, budget)[i].reason == xs[i].reason && Budgeted(xs, budget)[i].tokenBudget >= 200
  {
  }

  /** Every selected file is a ranked non-binary file of the diff. */
  lemma SelectedFromFiles(files: seq<DiffFile>, pre: PreflightResult, maxFiles: int)
    ensures forall r :: r in Selected(files, pre, maxFiles) ==>
      exists k :: 0 <= k < |files| && !files[k].isBinary && r == RankedOf(files[k], pre)
  {
    var ranked := RankAll(files, pre);
    var sorted := SortBy(ranked, NegPriority);
    SortByMembers(ranked, NegPriority);
    RankAllFromFiles(files, pre);
    forall r | r in Selected(files, pre, maxFiles)
      ensures exists k :: 0 <= k < |files| && !files[k].isBinary && r == RankedOf(files[k], pre)
    {
      assert r in sorted;
    }
  }

  /** Every allocation of the plan is for a non-binary file of the diff,
      with a priority in 1..10 and a budget of at least 200. */
  lemma PlanEntries(d: ParsedDiff, pre: PreflightResult, tokenBudget: Option<int>, maxFiles: Option<int>)
    ensures var a := Plan(d, pre, tokenBudget, maxFiles).allocations;
      (forall i :: 0 <= i < |a| ==> 1 <= a[i].priority <= 10 && a[i].tokenBudget >= 200) &&
      (forall i :: 0 <= i < |a| ==>
        exists k :: 0 <= k < |d.files| && !d.files[k].isBinary && a[i].file == d.files[k].newPath)
  {
    var sel := Selected(d.files, pre, PlanMaxFiles(maxFiles));
    var a := Plan(d, pre, tokenBudget, maxFiles).allocations;
    assert a == Budgeted(sel, PlanBudget(tokenBudget));
    SelectedFromFiles(d.files, pre, PlanMaxFiles(maxFiles));
    BudgetedShape(sel, PlanBudget(tokenBudget));
    forall i | 0 <= i < |a|
      ensures 1 <= a[i].priority <= 10
      ensures exists k :: 0 <= k < |d.files| && !d.files[k].isBinary && a[i].file == d.files[k].newPath
    {
      assert sel[i] in sel;
      var k :| 0 <= k < |d.files| && !d.files[k].isBinary && sel[i] == RankedOf(d.files[k], pre);
    }
  }

  /** The plan holds at most `maxFiles` allocations, ordered by priority
      from highest to lowest. */
  lemma PlanOrder(d: ParsedDiff, pre: PreflightResult, tokenBudget: Option<int>, maxFiles: Option<int>)
    ensures var a := Plan(d, pre, tokenBudget, maxFiles).allocations;
      |a| <= PlanMaxFiles(maxFiles) &&
      (forall i, j :: 0 <= i < j < |a| ==> a[i].priority >= a[j].priority)
  {
    var sorted := SortBy(RankAll(d.files, pre), NegPriority);
    var sel := Selected(d.files, pre, PlanMaxFiles(maxFiles));
    var a := Plan(d, pre, tokenBudget, maxFiles).allocations;
    SortByCorrect(RankAll(d.files, pre), NegPriority);
    BudgetedShape(sel, PlanBudget(tokenBudget));
    forall i, j | 0 <= i < j < |a| ensures a[i].priority >= a[j].priority {
      assert sel[i] == sorted[i] && sel[j] == sorted[j];
      assert NegPriority(sorted[i]) <= NegPriority(sorted[j]);
    }
  }

  /** Among files of equal priority the plan keeps diff order: the sorted
      list holds, per priority, the ranked files of that priority in order. */
  lemma PlanStable(d: ParsedDiff, pre: PreflightResult, v: int)
    ensures WithKey(SortBy(RankAll(d.files, pre), NegPriority), NegPriority, -v) ==
      WithKey(RankAll(d.files, pre), NegPriority, -v)
  {
    SortByCorrect(RankAll(d.files, pre), NegPriority);
  }

  lemma MulMono(u: int, v: int, t: int)
    requires u <= v && t >= 0
    ensures u * t <= v * t
  {
    assert v * t - u * t == (v - u) * t;
  }

  /** A multiple of `t` below `a` gives a lower bound on `a / t`. */
  lemma DivLower(a: int, q: int, t: int)
    requires t > 0 && q * t <= a
    ensures q <= a / t
  {
    if a / t < q {
      MulMono(a / t, q - 1, t);
    }
  }

  lemma MulDiv(b: int, t: int)
    requires t > 0
    ensures (b * t) / t == b
  {
    DivLower(b * t, b, t);
    if (b * t) / t > b {
      MulMono(b + 1, (b * t) / t, t);
    }
  }

  lemma MulNonneg(a: int, b: int)
    requires a >= 0 && b >= 0
    ensures a * b >= 0
  {
  }

  lemma Distrib(a: int, b: int, c: int)
    ensures a * b + a * c == a * (b + c)
  {
  }

  lemma DivAdd(x: int, y: int, t: int)
    requires x >= 0 && y >= 0 && t > 0
    ensures x / t + y / t <= (x + y) / t
  {
    var qx, qy := x / t, y / t;
    assert x == qx * t + x % t;
    assert y == qy * t + y % t;
    assert (qx + qy) * t == qx * t + qy * t;
    DivLower(x + y, qx + qy, t);
  }

  /** Without floors, the shares of a prefix sum to at most its part of the budget. */
  lemma {:induction false} SharesBound(xs: seq<Ranked>, budget: int, total: int)
    requires budget >= 0 && total > 0
    requires forall x :: x in xs ==> x.priority >= 0
    ensures SumShares(xs, budget, total) <= (budget * SumPriority(xs)) / total
    ensures SumPriority(xs) >= 0
  {
    if xs != [] {
      var init := xs[..|xs| - 1];
      var p := xs[|xs| - 1].priority;
      assert forall x :: x in init ==> x in xs;
      SharesBound(init, budget, total);
      assert p >= 0 by {
        assert xs[|xs| - 1] in xs;
      }
      var sp := SumPriority(init);
      ShareStep(SumShares(init, budget, total), sp, p, budget, total);
      assert SumPriority(xs) == sp + p;
    }
  }

  /** One step of `SharesBound`: adding a share keeps the sum of shares below the share of the sum. */
  lemma ShareStep(prev: int, sp: int, p: int, budget: int, total: int)
    requires budget >= 0 && total > 0 && sp >= 0 && p >= 0
    requires prev <= (budget * sp) / total
    ensures prev + (budget * p) / total <= (budget * (sp + p)) / total
  {
    MulNonneg(budget, sp);
    MulNonneg(budget, p);
    DivAdd(budget * sp, budget * p, total);
    Distrib(budget, sp, p);
  }

  function SumShares(xs: seq<Ranked>, budget: int, total: int): int
    requires total > 0
  {
    if xs == [] then 0 else SumShares(xs[..|xs| - 1], budget, total) + (budget * xs[|xs| - 1].priority) / total
  }

  /** With no floor hit, the budgets are the plain shares. */
  lemma {:induction false} SumInitialWith(xs: seq<Ranked>, budget: int, total: int)
    requires total > 0
    requires forall x :: x in xs ==> (budget * x.priority) / total >= 200
    ensures SumBudgets(InitialWith(xs, budget, total)) == SumShares(xs, budget, total)
  {
    if xs != [] {
      var init := xs[..|xs| - 1];
      assert forall x :: x in init ==> x in xs;
      SumInitialWith(init, budget, total);
      var r := InitialWith(xs, budget, total);
      assert r[..|r| - 1] == InitialWith(init, budget, total);
      assert xs[|xs| - 1] in xs;
    }
  }

  /** When no share falls below the floor of 200, the shares add up to at
      most the budget and no rescale happens. */
  lemma NoFloorNoRescale(xs: seq<Ranked>, budget: int, total: int)
    requires budget >= 0 && total > 0 && total == SumPriority(xs)
    requires forall x :: x in xs ==> x.priority >= 0 && (budget * x.priority) / total >= 200
    ensures SumBudgets(Initial(xs, budget)) <= budget
    ensures Budgeted(xs, budget) == Initial(xs, budget)
  {
    SumInitialWith(xs, budget, total);
    SharesBound(xs, budget, total);
    MulDiv(budget, total);
  }

  lemma FixtureHotzones(pre: PreflightResult)
    requires pre.hotspots == ["src/mcp"]
    ensures IsHotzone("src/mcp/tools/a.ts", pre.hotspots)
    ensures !IsHotzone("src/other/b.ts", pre.hotspots)
  {
    var a := "src/mcp/tools/a.ts";
    assert pre.hotspots[0] + "/" == "src/mcp/";
    assert Lower(a[..8]) == "src/mcp/";
    assert StartsWithIgnoreCase(a, pre.hotspots[0] + "/");
    var b := "src/other/b.ts";
    assert Lower(b[..8])[4] == 'o';
  }

  /** Priorities 8 and 6 over a 1000-token budget get 571 and 428 tokens. */
  lemma SharesOfEightAndSix(r0: Ranked, r1: Ranked)
    requires r0.priority == 8 && r1.priority == 6
    ensures var init := Initial([r0, r1], 1000);
      |init| == 2 && init[0].file == r0.file && init[1].file == r1.file &&
      init[0].tokenBudget == 571 && init[1].tokenBudget == 428 && SumBudgets(init) == 999
  {
    var xs := [r0, r1];
    assert xs[..1] == [r0] && [r0][..0] == [];
    assert SumPriority([r0]) == 8;
    assert TotalOf(xs) == 14;
    var init := Initial(xs, 1000);
    assert init[0] == AllocationOf(r0, 1000, 14);
    assert init[1] == AllocationOf(r1, 1000, 14);
    assert init[0].tokenBudget == 571 && init[1].tokenBudget == 428;
    assert init[..1] == [init[0]] && [init[0]][..0] == [];
    assert SumBudgets([init[0]]) == 571;
  }

  /** Two ranked files of priorities 8 and 6 with a 1000-token budget: the
      order is kept, the shares are 571 and 428 and they fit the budget. */
  lemma TwoRankedPlan(d: ParsedDiff, pre: PreflightResult, r0: Ranked, r1: Ranked)
    requires RankAll(d.files, pre) == [r0, r1] && r0.priority == 8 && r1.priority == 6
    ensures var plan := Plan(d, pre, Some(1000), Some(2));
      plan.budget == 1000 && |plan.allocations| == 2 &&
      plan.allocations[0].file == r0.file && plan.allocations[1].file == r1.file &&
      plan.allocations[0].tokenBudget == 571 && plan.allocations[1].tokenBudget == 428 &&
      SumBudgets(plan.allocations) <= 1000
  {
    var sorted := SortBy([r0, r1], NegPriority);
    assert [r0, r1][1..] == [r1] && [r1][1..] == [];
    assert SortBy([r1], NegPriority) == InsertBy(r1, [], NegPriority) == [r1];
    assert NegPriority(r0) <= NegPriority(r1);
    assert sorted == InsertBy(r0, [r1], NegPriority) == [r0, r1];
    assert Min(Max(2, 0), |sorted|) == 2 && sorted[..2] == sorted;
    assert Selected(d.files, pre, 2) == [r0, r1];
    SharesOfEightAndSix(r0, r1);
  }

  /** The planner fixture: a hotspot tool file and an ordinary file, each
      with one added line, a 1000-token budget and two files. The hotspot
      file comes first (priority 8 against 6), the budgets are 571 and 428,
      and their sum stays within 1000. */
  lemma TwoFileFixture(d: ParsedDiff, pre: PreflightResult)
    requires |d.files| == 2
    requires d.files[0].newPath == "src/mcp/tools/a.ts" && d.files[1].newPath == "src/other/b.ts"
    requires forall i :: 0 <= i < 2 ==>
      !d.files[i].isBinary && !d.files[i].isNew && !d.files[i].isDeleted && !LargeChange(d.files[i])
    requires pre.hotspots == ["src/mcp"] && pre.publicApiChanged
    ensures var plan := Plan(d, pre, Some(1000), Some(2));
      plan.budget == 1000 && |plan.allocations| == 2 &&
      plan.allocations[0].file == "src/mcp/tools/a.ts" && plan.allocations[1].file == "src/other/b.ts" &&
      plan.allocations[0].tokenBudget == 571 && plan.allocations[1].tokenBudget == 428 &&
      SumBudgets(plan.allocations) <= 1000
  {
    var f0, f1 := d.files[0], d.files[1];
    FixtureHotzones(pre);
    var r0 := RankedOf(f0, pre);
    var r1 := RankedOf(f1, pre);
    assert r0.priority == 8 && r1.priority == 6;
    assert d.files[..1] == [f0] && d.files[..2] == d.files;
    assert RankAll([f0], pre) == [r0];
    assert RankAll(d.files, pre) == [r0, r1];
    TwoRankedPlan(d, pre, r0, r1);
  }
}
