/** The `enhance_prompt` tool: the instruction sent to the model, the
    extraction of the `<enhanced-prompt>` answer from its reply, the
    fallback when the reply has no usable answer, and the validation of the
    caller's prompt. The model call `searchAndAsk(query, prompt)` is a
    function parameter. */
module Enhance {
  import opened Wrappers
  import opened Text

  const OPEN_TAG: string := "<enhanced-prompt>"
  const CLOSE_TAG: string := "</enhanced-prompt>"

  // ---------------------------------------------------------------------
  // buildAIEnhancementPrompt

  /** The fixed instruction that precedes the caller's prompt. */
  const INSTRUCTION: string :=
    "Here is an instruction that I'd like to give you, but it needs to be improved. " +
    "Rewrite and enhance this instruction to make it clearer, more specific, " +
    "less ambiguous, and correct any mistakes. " +
    "If there is code in triple backticks (```) consider whether it is a code sample and should remain unchanged. " +
    "Reply with the following format:\n\n" +
    "### BEGIN RESPONSE ###\n" +
    "Here is an enhanced version of the original instruction that is more specific and clear:\n" +
    OPEN_TAG + "enhanced prompt goes here" + CLOSE_TAG + "\n\n" +
    "### END RESPONSE ###\n\n" +
    "Here is my original instruction:\n\n"

  function BuildAIEnhancementPrompt(originalPrompt: string): string {
    INSTRUCTION + originalPrompt
  }

  /** The caller's prompt, read back from an instruction. */
  function OriginalOf(instruction: string): string
    requires |INSTRUCTION| <= |instruction|
  {
    instruction[|INSTRUCTION|..]
  }

  /** The instruction starts with the fixed text and ends with the
      original prompt verbatim, so the prompt can be read back. */
  lemma BuildAIEnhancementPromptEnds(originalPrompt: string)
    ensures var r := BuildAIEnhancementPrompt(originalPrompt);
      StartsWith(r, INSTRUCTION) && EndsWith(r, originalPrompt) &&
      OriginalOf(r) == originalPrompt
  {
    var r := BuildAIEnhancementPrompt(originalPrompt);
    assert r[..|INSTRUCTION|] == INSTRUCTION;
    assert r[|r| - |originalPrompt|..] == originalPrompt;
  }

  /** Distinct prompts give distinct instructions. */
  lemma BuildAIEnhancementPromptInjective(p: string, q: string)
    requires BuildAIEnhancementPrompt(p) == BuildAIEnhancementPrompt(q)
    ensures p == q
  {
    BuildAIEnhancementPromptEnds(p);
    BuildAIEnhancementPromptEnds(q);
  }

  // ---------------------------------------------------------------------
  // parseEnhancedPrompt

  /** An opening tag at `i` and a closing tag at `j`, after it. */
  predicate IsTagPair(s: string, i: int, j: int) {
    OccursAt(s, OPEN_TAG, i) && i + |OPEN_TAG| <= j && OccursAt(s, CLOSE_TAG, j)
  }

  /** Where `/<enhanced-prompt>([\s\S]*?)<\/enhanced-prompt>/` matches: the
      first opening tag, and the first closing tag after it. */
  function TagPair(s: string): (r: Option<(nat, nat)>)
    ensures r.Some? ==> IsTagPair(s, r.value.0, r.value.1)
  {
    match IndexOfFrom(s, OPEN_TAG, 0)
    case None => None
    case Some(i) =>
      match IndexOfFrom(s, CLOSE_TAG, i + |OPEN_TAG|)
      case None => None
      case Some(j) => Some((i, j))
  }

  /** The match is the leftmost one, its capture is the shortest one, and
      there is a match exactly when some tag pair occurs. */
  lemma TagPairMeaning(s: string)
    ensures TagPair(s).None? <==> forall i, j :: !IsTagPair(s, i, j)
    ensures TagPair(s).Some? ==> var (i, j) := TagPair(s).value;
      (forall i', j' :: IsTagPair(s, i', j') ==> i <= i') &&
      (forall k :: i + |OPEN_TAG| <= k < j ==> !OccursAt(s, CLOSE_TAG, k))
  {
    var first := IndexOfFrom(s, OPEN_TAG, 0);
    if first.Some? {
      var i := first.value;
      forall i', j' | IsTagPair(s, i', j')
        ensures i <= i' && IndexOfFrom(s, CLOSE_TAG, i + |OPEN_TAG|).Some?
      {
      }
    }
  }

  /** The trimmed capture, or nothing when there is no match or the
      capture is empty. */
  function ParseEnhancedPrompt(response: string): Option<string> {
    match TagPair(response)
    case None => None
    case Some((i, j)) =>
      var captured := response[i + |OPEN_TAG|..j];
      if captured == [] then None else Some(Trim(captured))
  }

  /** The answer is trimmed text that occurs in the reply. */
  lemma ParseEnhancedPromptTrimmed(response: string)
    requires ParseEnhancedPrompt(response).Some?
    ensures var r := ParseEnhancedPrompt(response).value;
      Trim(r) == r && Contains(response, r)
  {
    var (i, j) := TagPair(response).value;
    var captured := response[i + |OPEN_TAG|..j];
    TrimTwice(captured);
    TrimOccurs(response, i + |OPEN_TAG|, j);
  }

  /** The trim of a slice occurs in the whole text. */
  lemma TrimOccurs(s: string, a: nat, b: nat)
    requires a <= b <= |s|
    ensures OccursAt(s, Trim(s[a..b]), a + SpacesEnd(s[a..b], 0))
  {
    var t := s[a..b];
    var r := Trim(t);
    var k := SpacesEnd(t, 0);
    assert r == t[k..k + |r|];
    assert s[a + k..a + k + |r|] == t[k..k + |r|];
  }

  /** Both tags begin with `<` and hold no other `<`. */
  lemma TagsOpenOnce()
    ensures OPEN_TAG[0] == '<' && forall m :: 1 <= m < |OPEN_TAG| ==> OPEN_TAG[m] != '<'
    ensures CLOSE_TAG[0] == '<' && forall m :: 1 <= m < |CLOSE_TAG| ==> CLOSE_TAG[m] != '<'
  {
  }

  /** A tag cannot start before a `<` at `pos` and run over it. */
  lemma NoStraddle(s: string, tag: string, pos: nat, k: int)
    requires |tag| >= 1 && forall m :: 1 <= m < |tag| ==> tag[m] != '<'
    requires pos < |s| && s[pos] == '<'
    requires k < pos < k + |tag|
    ensures !OccursAt(s, tag, k)
  {
    if 0 <= k && k + |tag| <= |s| {
      assert s[k..k + |tag|][pos - k] == s[pos] != tag[pos - k];
    }
  }

  /** No occurrence of `tag` starts in `[from, from + |t|)` when `tag` does
      not occur in `t` and the text after `t` starts with `<`. */
  lemma NoTagIn(s: string, tag: string, from: nat, t: string)
    requires |tag| >= 1 && forall m :: 1 <= m < |tag| ==> tag[m] != '<'
    requires !Contains(t, tag)
    requires from + |t| < |s| && s[from..from + |t|] == t && s[from + |t|] == '<'
    ensures forall k :: from <= k < from + |t| ==> !OccursAt(s, tag, k)
  {
    forall k | from <= k < from + |t|
      ensures !OccursAt(s, tag, k)
    {
      if k + |tag| <= from + |t| {
        OccursAtShift(s, t, from, tag, k - from);
      } else {
        NoStraddle(s, tag, from + |t|, k);
      }
    }
  }

  /** Inside a copy of `t` at `from`, `tag` occurs where it occurs in `t`. */
  lemma OccursAtShift(s: string, t: string, from: nat, tag: string, x: nat)
    requires from + |t| <= |s| && s[from..from + |t|] == t
    requires x + |tag| <= |t|
    ensures OccursAt(s, tag, from + x) <==> OccursAt(t, tag, x)
  {
    var u, v := s[from + x..from + x + |tag|], t[x..x + |tag|];
    forall m | 0 <= m < |tag|
      ensures u[m] == v[m]
    {
      assert s[from + x + m] == s[from..from + |t|][x + m];
    }
    assert u == v;
  }

  /** How `p + o + t + c + q` splits around `o` and around `c`. */
  lemma ConcatShape<T>(p: seq<T>, o: seq<T>, t: seq<T>, c: seq<T>, q: seq<T>)
    ensures var s := p + o + t + c + q;
      s[0..] == p + o + (t + c + q) &&
      s[|p| + |o|..] == t + c + (q) &&
      s[|p| + |o|..|p| + |o| + |t|] == t
  {
  }

  /** A reply holding `<enhanced-prompt>t</enhanced-prompt>` after text
      with no opening tag, where `t` holds no closing tag, yields the
      trimmed `t`, or nothing when `t` is empty. */
  lemma ParseEnhancedPromptOfTagged(pre: string, t: string, post: string)
    requires !Contains(pre, OPEN_TAG) && !Contains(t, CLOSE_TAG)
    ensures ParseEnhancedPrompt(pre + OPEN_TAG + t + CLOSE_TAG + post) ==
      if t == [] then None else Some(Trim(t))
  {
    var s := pre + OPEN_TAG + t + CLOSE_TAG + post;
    var i := |pre|;
    var a := i + |OPEN_TAG|;
    var j := a + |t|;
    TagsOpenOnce();
    ConcatShape(pre, OPEN_TAG, t, CLOSE_TAG, post);
    FirstTagAfter(s, OPEN_TAG, 0, pre, t + CLOSE_TAG + post, i);
    FirstTagAfter(s, CLOSE_TAG, a, t, post, j);
    ParseAt(s, i, j, t);
  }

  lemma ParseAt(s: string, i: nat, j: nat, t: string)
    requires IndexOfFrom(s, OPEN_TAG, 0) == Some(i)
    requires IndexOfFrom(s, CLOSE_TAG, i + |OPEN_TAG|) == Some(j)
    requires s[i + |OPEN_TAG|..j] == t
    ensures ParseEnhancedPrompt(s) == if t == [] then None else Some(Trim(t))
  {
    assert TagPair(s) == Some((i, j));
  }

  /** In `s`, which holds `t` then `tag` from `from` on, the first `tag` at
      or after `from` is the one right after `t`, when `t` holds none and
      `tag` holds its leading `<` only once. */
  lemma FirstTagAfter(s: string, tag: string, from: nat, t: string, rest: string, c: nat)
    requires |tag| >= 1 && tag[0] == '<' && forall m :: 1 <= m < |tag| ==> tag[m] != '<'
    requires !Contains(t, tag)
    requires from <= |s| && s[from..] == t + tag + rest && c == from + |t|
    ensures IndexOfFrom(s, tag, from) == Some(c)
  {
    assert s[from..][..|t|] == t;
    assert s[from..from + |t|] == t;
    assert s[from..][|t|..|t| + |tag|] == tag;
    assert s[c..c + |tag|] == tag;
    NoTagIn(s, tag, from, t);
    IndexOfFromAt(s, tag, from, c);
  }

  /** A capture of spaces only yields an empty answer rather than none. */
  lemma ParseEnhancedPromptBlank()
    ensures ParseEnhancedPrompt(OPEN_TAG + " " + CLOSE_TAG) == Some("")
  {
    assert !Contains("", OPEN_TAG);
    assert !Contains(" ", CLOSE_TAG);
    ParseEnhancedPromptOfTagged("", " ", "");
    assert "" + OPEN_TAG + " " + CLOSE_TAG + "" == OPEN_TAG + " " + CLOSE_TAG;
    assert SpacesEnd(" ", 0) == 1;
  }

  // ---------------------------------------------------------------------
  // handleAIEnhance

  const FORMAT_NOTE: string := "\n\n---\n_Note: AI enhancement completed but response format was unexpected._"
  const EMPTY_RESPONSE: string := "AI enhancement returned empty response"
  const AUTH_REQUIRED: string :=
    "AI enhancement requires authentication. Please run \"auggie login\" or set AUGMENT_API_TOKEN environment variable."

  /** What a reply becomes: its answer, or the whole reply with a note when
      it has no non-empty answer, or an error when it is empty. */
  function FromResponse(response: string): Result<string, string> {
    var enhanced := ParseEnhancedPrompt(response);
    if enhanced.Some? && enhanced.value != [] then Ok(enhanced.value)
    else if |response| > 0 then Ok(response + FORMAT_NOTE)
    else Err(EMPTY_RESPONSE)
  }

  /** The message of an error leaving the `catch`: authentication problems
      are replaced by the login advice, others pass unchanged. */
  function CaughtMessage(message: string): string {
    if Contains(message, "API key") || Contains(message, "authentication") || Contains(message, "Login")
    then AUTH_REQUIRED
    else message
  }

  /** The model is asked with the prompt as search query and the built
      instruction. */
  function HandleAIEnhance(prompt: string, searchAndAsk: (string, string) -> Result<string, string>): Result<string, string> {
    match searchAndAsk(prompt, BuildAIEnhancementPrompt(prompt))
    case Err(message) => Err(CaughtMessage(message))
    case Ok(response) =>
      match FromResponse(response)
      case Ok(text) => Ok(text)
      case Err(message) => Err(CaughtMessage(message))
  }

  /** A character absent from `s` keeps any text holding it out of `s`. */
  lemma AbsentChar(s: string, p: string, m: nat)
    requires m < |p| && p[m] !in s
    ensures !Contains(s, p)
  {
    forall k | 0 <= k <= |s| - |p|
      ensures !OccursAt(s, p, k)
    {
      assert s[k..k + |p|][m] == s[k + m];
    }
  }

  lemma EmptyResponseLetters()
    ensures 'P' !in EMPTY_RESPONSE && 'i' !in EMPTY_RESPONSE && 'L' !in EMPTY_RESPONSE
  {
    forall k | 0 <= k < |EMPTY_RESPONSE|
      ensures EMPTY_RESPONSE[k] != 'P' && EMPTY_RESPONSE[k] != 'i' && EMPTY_RESPONSE[k] != 'L'
    {
    }
  }

  /** The empty-reply error names none of the authentication words, so it
      leaves the `catch` unchanged. */
  lemma EmptyResponseUncaught()
    ensures CaughtMessage(EMPTY_RESPONSE) == EMPTY_RESPONSE
  {
    EmptyResponseLetters();
    assert "API key"[1] == 'P';
    AbsentChar(EMPTY_RESPONSE, "API key", 1);
    assert "authentication"[7] == 'i';
    AbsentChar(EMPTY_RESPONSE, "authentication", 7);
    assert "Login"[0] == 'L';
    AbsentChar(EMPTY_RESPONSE, "Login", 0);
  }

  /** The enhancement succeeds exactly when the model answers with a
      non-empty reply, and then its text is never empty: the trimmed answer
      when there is one, else the reply with the note. An empty reply fails
      with the empty-reply error; a failed call fails with its message or,
      for authentication problems, the login advice. */
  lemma HandleAIEnhanceOutcome(prompt: string, searchAndAsk: (string, string) -> Result<string, string>)
    ensures var answer := searchAndAsk(prompt, BuildAIEnhancementPrompt(prompt));
      var r := HandleAIEnhance(prompt, searchAndAsk);
      (r.Ok? <==> answer.Ok? && answer.value != []) &&
      (r.Ok? ==>
        r.value != [] &&
        (r.value == answer.value + FORMAT_NOTE ||
         (ParseEnhancedPrompt(answer.value) == Some(r.value) && Trim(r.value) == r.value))) &&
      (answer == Ok([]) ==> r == Err(EMPTY_RESPONSE)) &&
      (answer.Err? ==> r == Err(CaughtMessage(answer.error)))
  {
    var answer := searchAndAsk(prompt, BuildAIEnhancementPrompt(prompt));
    if answer.Ok? {
      var response := answer.value;
      if ParseEnhancedPrompt(response).Some? {
        ParseEnhancedPromptTrimmed(response);
      }
      if response == [] {
        assert TagPair(response).None?;
        EmptyResponseUncaught();
      }
    }
  }

  /** A reply whose answer is only spaces is handed back whole, with the
      note. */
  lemma HandleAIEnhanceBlank(prompt: string, searchAndAsk: (string, string) -> Result<string, string>)
    requires searchAndAsk(prompt, BuildAIEnhancementPrompt(prompt)) == Ok(OPEN_TAG + " " + CLOSE_TAG)
    ensures HandleAIEnhance(prompt, searchAndAsk) == Ok(OPEN_TAG + " " + CLOSE_TAG + FORMAT_NOTE)
  {
    ParseEnhancedPromptBlank();
  }

  // ---------------------------------------------------------------------
  // handleEnhancePrompt

  const MAX_PROMPT_LENGTH: nat := 10000
  const INVALID_PROMPT: string := "Invalid prompt parameter: must be a non-empty string"
  const PROMPT_TOO_LONG: string := "Prompt too long: maximum 10000 characters"

  function HandleEnhancePrompt(prompt: string, searchAndAsk: (string, string) -> Result<string, string>): Result<string, string> {
    if prompt == [] then Err(INVALID_PROMPT)
    else if |prompt| > MAX_PROMPT_LENGTH then Err(PROMPT_TOO_LONG)
    else HandleAIEnhance(prompt, searchAndAsk)
  }

  /** Only prompts of 1 to 10000 characters reach the model; the others
      fail with the matching message whatever the model would answer. */
  lemma HandleEnhancePromptValidates(prompt: string, searchAndAsk: (string, string) -> Result<string, string>)
    ensures var r := HandleEnhancePrompt(prompt, searchAndAsk);
      (prompt == [] ==> r == Err(INVALID_PROMPT)) &&
      (|prompt| > MAX_PROMPT_LENGTH ==> r == Err(PROMPT_TOO_LONG)) &&
      (1 <= |prompt| <= MAX_PROMPT_LENGTH ==> r == HandleAIEnhance(prompt, searchAndAsk)) &&
      (r.Ok? ==> 1 <= |prompt| <= MAX_PROMPT_LENGTH && r.value != [])
  {
    if 1 <= |prompt| <= MAX_PROMPT_LENGTH {
      HandleAIEnhanceOutcome(prompt, searchAndAsk);
    }
  }
}
