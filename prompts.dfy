/** The two review prompts (`buildStructuralPrompt`, `buildDetailedPrompt`):
    fixed instructions, an optional custom-instructions block, then the
    labelled sections, ending with the findings schema. */
module Prompts {
  import opened Wrappers
  import opened Text

  const FindingsSchema: string :=
    "{\n" +
    "  \"findings\": [\n" +
    "    {\n" +
    "      \"id\": \"F001\",\n" +
    "      \"severity\": \"CRITICAL|HIGH|MEDIUM|LOW|INFO\",\n" +
    "      \"category\": \"correctness|security|performance|maintainability|style|documentation|reliability|architecture|infra\",\n" +
    "      \"confidence\": 0.0,\n" +
    "      \"title\": \"short title\",\n" +
    "      \"location\": { \"file\": \"path\", \"startLine\": 1, \"endLine\": 1 },\n" +
    "      \"evidence\": [\"short snippet(s)\"],\n" +
    "      \"impact\": \"why it matters\",\n" +
    "      \"recommendation\": \"what to change\",\n" +
    "      \"suggested_patch\": \"optional unified diff string\"\n" +
    "    }\n" +
    "  ]\n" +
    "}"

  const StructuralIntro: string :=
    "You are an expert code reviewer.\n\n" +
    "Focus on: architecture, API compatibility, error handling patterns, test gaps.\n" +
    "Do NOT return prose. Return only JSON matching the schema.\n\n"

  const DetailedIntro: string :=
    "You are an expert code reviewer.\n\n" +
    "Focus on: correctness bugs, edge cases, security issues, performance regressions.\n" +
    "Use structural findings as guidance; add new findings only.\n" +
    "Do NOT return prose. Return only JSON matching the schema.\n\n"

  const CustomHead := "CUSTOM INSTRUCTIONS:\n"
  const StructuralHead := "STRUCTURAL FINDINGS (JSON):\n"
  const DiffHead := "DIFF:\n"
  const ContextHead := "\n\nCONTEXT (diff-first excerpts):\n"
  const InvariantsHead := "\n\nINVARIANTS (project policies):\n"
  const SchemaHead := "\n\nSCHEMA:\n"

  /** The custom-instructions block: present exactly when the instructions
      are a non-empty string, and then headed `CUSTOM INSTRUCTIONS:`. */
  function CustomBlock(customInstructions: Option<string>): (r: string)
    ensures r != "" <==> customInstructions.Some? && customInstructions.value != ""
    ensures r != "" ==> StartsWith(r, CustomHead) && r[|CustomHead|..] == customInstructions.value + "\n\n"
  {
    if customInstructions.Some? && customInstructions.value != "" then
      CustomHead + customInstructions.value + "\n\n"
    else ""
  }

  /** The sections both prompts end with: diff, context, invariants, schema. */
  function Sections(diff: string, context: string, invariants: string): string {
    DiffHead + diff + ContextHead + context + InvariantsHead + invariants + SchemaHead + (FindingsSchema + "\n")
  }

  /** `buildStructuralPrompt`. */
  function BuildStructuralPrompt(diff: string, context: string, invariants: string,
                                 customInstructions: Option<string>): string
  {
    StructuralIntro + CustomBlock(customInstructions) + Sections(diff, context, invariants)
  }

  /** `buildDetailedPrompt`: the structural findings come before the diff. */
  function BuildDetailedPrompt(diff: string, context: string, invariants: string,
                               structuralFindingsJson: string, customInstructions: Option<string>): string
  {
    DetailedIntro + CustomBlock(customInstructions) +
    (StructuralHead + structuralFindingsJson + "\n\n" + Sections(diff, context, invariants))
  }

  /** Four headed parts laid end to end can be read back at their offsets. */
  lemma Layout(h1: string, a: string, h2: string, b: string, h3: string, c: string, h4: string, tail: string)
    ensures var s := h1 + a + h2 + b + h3 + c + h4 + tail;
      var p := |h1| + |a|;
      var q := p + |h2| + |b|;
      var r := q + |h3| + |c|;
      OccursAt(s, h1, 0) && s[|h1|..p] == a &&
      OccursAt(s, h2, p) && s[p + |h2|..q] == b &&
      OccursAt(s, h3, q) && s[q + |h3|..r] == c &&
      OccursAt(s, h4, r) && s[r + |h4|..] == tail
  {
    var s := h1 + a + h2 + b + h3 + c + h4 + tail;
    var p := |h1| + |a|;
    var q := p + |h2| + |b|;
    var r := q + |h3| + |c|;
    assert s[..p] == h1 + a;
    assert s[p..q] == h2 + b;
    assert s[q..r] == h3 + c;
    assert s[r..] == h4 + tail;
  }

  /** The diff, context, invariants and schema headings sit in that order,
      each right before its text, and the sections end with the schema and
      a newline. */
  lemma SectionsLayout(diff: string, context: string, invariants: string)
    ensures var s := Sections(diff, context, invariants);
      var c := |DiffHead| + |diff|;
      var i := c + |ContextHead| + |context|;
      var k := i + |InvariantsHead| + |invariants|;
      OccursAt(s, DiffHead, 0) && s[|DiffHead|..c] == diff &&
      OccursAt(s, ContextHead, c) && s[c + |ContextHead|..i] == context &&
      OccursAt(s, InvariantsHead, i) && s[i + |InvariantsHead|..k] == invariants &&
      OccursAt(s, SchemaHead, k) && s[k + |SchemaHead|..] == FindingsSchema + "\n"
  {
    Layout(DiffHead, diff, ContextHead, context, InvariantsHead, invariants, SchemaHead, FindingsSchema + "\n");
  }

  lemma Split3(a: string, b: string, c: string)
    ensures (a + b + c)[..|a|] == a && (a + b + c)[|a|..|a| + |b|] == b && (a + b + c)[|a| + |b|..] == c
  {
    assert (a + b + c)[..|a|] == a;
  }

  /** The structural prompt is the fixed introduction, the custom block and
      the sections, in that order. */
  lemma StructuralLayout(diff: string, context: string, invariants: string, customInstructions: Option<string>)
    ensures var p := BuildStructuralPrompt(diff, context, invariants, customInstructions);
      var h := |StructuralIntro| + |CustomBlock(customInstructions)|;
      p[..|StructuralIntro|] == StructuralIntro &&
      p[|StructuralIntro|..h] == CustomBlock(customInstructions) &&
      p[h..] == Sections(diff, context, invariants)
  {
    Split3(StructuralIntro, CustomBlock(customInstructions), Sections(diff, context, invariants));
  }

  lemma Split6(a: string, b: string, h: string, j: string, m: string, c: string)
    ensures var s := a + b + (h + j + m + c);
      var x := |a| + |b|;
      var y := x + |h| + |j|;
      s[..|a|] == a && s[|a|..x] == b && OccursAt(s, h, x) && s[x + |h|..y] == j &&
      s[y + |m|..] == c
  {
    var s := a + b + (h + j + m + c);
    var x := |a| + |b|;
    assert s[..x] == a + b;
    assert s[x..] == h + j + m + c;
  }

  /** The detailed prompt is the fixed introduction, the custom block, the
      structural findings heading and JSON, then the same sections. */
  lemma DetailedLayout(diff: string, context: string, invariants: string, json: string,
                       customInstructions: Option<string>)
    ensures var p := BuildDetailedPrompt(diff, context, invariants, json, customInstructions);
      var h := |DetailedIntro| + |CustomBlock(customInstructions)|;
      var j := h + |StructuralHead| + |json|;
      p[..|DetailedIntro|] == DetailedIntro &&
      p[|DetailedIntro|..h] == CustomBlock(customInstructions) &&
      OccursAt(p, StructuralHead, h) && p[h + |StructuralHead|..j] == json &&
      p[j + 2..] == Sections(diff, context, invariants)
  {
    Split6(DetailedIntro, CustomBlock(customInstructions), StructuralHead, json, "\n\n",
           Sections(diff, context, invariants));
  }
}
