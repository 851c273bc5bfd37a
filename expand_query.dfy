/** Query expansion for retrieval: the original query plus a few rephrasings
    built from its non-stopword tokens and a small synonym table. */
module ExpandQuery {
  import opened Wrappers
  import opened Text
  import opened Seqs
  import opened Numbers
  import opened Tokens

  const STOPWORDS: set<string> := {
    "a", "an", "the", "and", "or", "to", "for", "of", "in", "on", "with", "by",
    "is", "are", "be", "from", "at", "as", "it", "this", "that", "these", "those",
    "how", "what", "where", "when", "why"
  }

  /** The synonym table, entry by entry in declaration order. */
  const SYNONYMS: seq<(string, seq<string>)> := [
    ("auth", ["authentication", "authorization"]),
    ("login", ["sign-in", "signin"]),
    ("log", ["logging"]),
    ("config", ["configuration"]),
    ("cfg", ["configuration"]),
    ("db", ["database"]),
    ("repo", ["repository"]),
    ("svc", ["service"]),
    ("util", ["utility"]),
    ("api", ["endpoint"]),
    ("err", ["error"]),
    ("msg", ["message"])
  ]

  /** The replacements the table lists for `t` at entry `k` or later. */
  function EntryFrom(t: string, k: nat): Option<seq<string>>
    decreases |SYNONYMS| - k
  {
    if k >= |SYNONYMS| then None
    else if SYNONYMS[k].0 == t then Some(SYNONYMS[k].1)
    else EntryFrom(t, k + 1)
  }

  /** The table's own entry for `t`, if any. */
  function SynonymEntry(t: string): Option<seq<string>> {
    EntryFrom(t, 0)
  }

  // ---------------------------------------------------------------------
  // Tokenizing
  // ---------------------------------------------------------------------

  /** A character the token pattern `[a-z0-9_]` accepts. */
  predicate IsTokenChar(c: char) {
    'a' <= c <= 'z' || '0' <= c <= '9' || c == '_'
  }

  predicate IsToken(t: string) {
    IsRun(t, IsTokenChar)
  }

  /** `tokenize`: lower-case, split on `/[^a-z0-9_]+/`, drop empty tokens. */
  function Tokenize(input: string): seq<string> {
    Runs(Lower(input), [], IsTokenChar)
  }

  /** Every token is a non-empty run of `[a-z0-9_]`, and together the tokens
      hold exactly the token characters of the lower-cased input, in order. */
  lemma TokenizeMeaning(input: string)
    ensures forall t :: t in Tokenize(input) ==> IsToken(t)
    ensures Concat(Tokenize(input)) == Filter(Lower(input), IsTokenChar)
  {
    RunsMeaning(Lower(input), IsTokenChar);
  }

  lemma LowerToken(t: string)
    requires IsToken(t)
    ensures Lower(t) == t
  {
    assert forall k :: 0 <= k < |t| ==> Lower(t)[k] == t[k];
  }

  lemma {:induction false} LowerJoin(ts: seq<string>)
    requires forall t :: t in ts ==> IsToken(t)
    ensures Lower(Join(ts, " ")) == Join(ts, " ")
    decreases |ts|
  {
    if |ts| >= 1 {
      assert ts[0] in ts;
      LowerToken(ts[0]);
    }
    if |ts| > 1 {
      var rest := Join(ts[1..], " ");
      assert forall t :: t in ts[1..] ==> t in ts;
      LowerJoin(ts[1..]);
      LowerAppend(ts[0] + " ", rest);
      LowerAppend(ts[0], " ");
      assert Lower(" ") == " ";
    }
  }

  /** Tokens joined by single spaces tokenize back to themselves: the
      rephrasings built from the core tokens carry exactly those tokens. */
  lemma TokenizeJoin(ts: seq<string>)
    requires forall t :: t in ts ==> IsToken(t)
    ensures Tokenize(Join(ts, " ")) == ts
  {
    LowerJoin(ts);
    RunsJoin(ts, " ", IsTokenChar);
  }

  // ---------------------------------------------------------------------
  // The variants
  // ---------------------------------------------------------------------

  datatype Source = Original | Expanded

  datatype ExpandedQuery = ExpandedQuery(query: string, source: Source, weight: real, index: nat)

  /** A text offered to `addVariant`, with its source and weight. */
  datatype Candidate = Candidate(text: string, source: Source, weight: real)

  /** Some variant already has the lower-case key `k`. */
  predicate HasKey(vs: seq<ExpandedQuery>, k: string) {
    exists i :: 0 <= i < |vs| && Lower(vs[i].query) == k
  }

  /** `addVariant`: trim the text; skip it when blank or when its lower-case
      key is taken; otherwise append it with the next index. */
  function Add(vs: seq<ExpandedQuery>, c: Candidate): seq<ExpandedQuery> {
    var normalized := Trim(c.text);
    if normalized == [] || HasKey(vs, Lower(normalized)) then vs
    else vs + [ExpandedQuery(normalized, c.source, c.weight, |vs|)]
  }

  /** Offers the candidates to `addVariant` in order. */
  function AddAll(vs: seq<ExpandedQuery>, cs: seq<Candidate>): seq<ExpandedQuery> {
    if cs == [] then vs else Add(AddAll(vs, cs[..|cs| - 1]), cs[|cs| - 1])
  }

  /** Each variant's `index` is its position, and no two share a lower-case key. */
  predicate WellKeyed(vs: seq<ExpandedQuery>) {
    (forall i :: 0 <= i < |vs| ==> vs[i].index == i) &&
    (forall i, j :: 0 <= i < j < |vs| ==> Lower(vs[i].query) != Lower(vs[j].query))
  }

  /** Adding keeps the variants well keyed, only ever appends one trimmed
      variant, and skips exactly the blank texts and the taken keys. */
  lemma AddCorrect(vs: seq<ExpandedQuery>, c: Candidate)
    requires WellKeyed(vs)
    ensures WellKeyed(Add(vs, c))
    ensures vs <= Add(vs, c)
    ensures Add(vs, c) == vs <==> Trim(c.text) == [] || HasKey(vs, Lower(Trim(c.text)))
    ensures Add(vs, c) != vs ==> Add(vs, c) == vs + [ExpandedQuery(Trim(c.text), c.source, c.weight, |vs|)]
  {
  }

  lemma {:induction false} AddAllCorrect(vs: seq<ExpandedQuery>, cs: seq<Candidate>)
    requires WellKeyed(vs)
    ensures WellKeyed(AddAll(vs, cs))
    ensures vs <= AddAll(vs, cs)
    decreases |cs|
  {
    if cs != [] {
      AddAllCorrect(vs, cs[..|cs| - 1]);
      AddCorrect(AddAll(vs, cs[..|cs| - 1]), cs[|cs| - 1]);
    }
  }

  lemma {:induction false} AddAllAppend(vs: seq<ExpandedQuery>, a: seq<Candidate>, b: seq<Candidate>)
    ensures AddAll(vs, a + b) == AddAll(AddAll(vs, a), b)
    decreases |b|
  {
    if b == [] {
      assert a + b == a;
    } else {
      assert (a + b)[..|a + b| - 1] == a + b[..|b| - 1];
      AddAllAppend(vs, a, b[..|b| - 1]);
    }
  }

  /** Offering more candidates only appends to the variants. */
  lemma AddAllMono(vs: seq<ExpandedQuery>, a: seq<Candidate>, b: seq<Candidate>)
    requires WellKeyed(vs)
    requires a <= b
    ensures AddAll(vs, a) <= AddAll(vs, b)
  {
    assert b == a + b[|a|..];
    AddAllAppend(vs, a, b[|a|..]);
    AddAllCorrect(vs, a);
    AddAllCorrect(AddAll(vs, a), b[|a|..]);
  }

  /** Every variant that adding contributes comes from one of the candidates. */
  lemma {:induction false} AddAllFrom(vs: seq<ExpandedQuery>, cs: seq<Candidate>)
    ensures forall v :: v in AddAll(vs, cs) ==>
      (v in vs || exists c :: c in cs && v == ExpandedQuery(Trim(c.text), c.source, c.weight, v.index))
    decreases |cs|
  {
    if cs != [] {
      var init := cs[..|cs| - 1];
      AddAllFrom(vs, init);
      forall v | v in AddAll(vs, cs)
        ensures v in vs || exists c :: c in cs && v == ExpandedQuery(Trim(c.text), c.source, c.weight, v.index)
      {
        if v in AddAll(vs, init) {
          if v !in vs {
            var c :| c in init && v == ExpandedQuery(Trim(c.text), c.source, c.weight, v.index);
            assert c in cs;
          }
        } else {
          assert cs[|cs| - 1] in cs;
        }
      }
    }
  }

  // ---------------------------------------------------------------------
  // The rephrasings
  // ---------------------------------------------------------------------

  predicate Keep(t: string) {
    t !in STOPWORDS
  }

  function Synonyms(t: string): seq<string> {
    SynonymEntry(t).GetOr([])
  }

  /** The token list with position `i` replaced, joined by spaces, as a 0.6 variant. */
  function Swap(core: seq<string>, i: nat, replacement: string): Candidate
    requires i < |core|
  {
    Candidate(Join(core[i := replacement], " "), Expanded, 0.6)
  }

  /** One swap per replacement, in order. */
  function SwapsWith(core: seq<string>, i: nat, reps: seq<string>): seq<Candidate>
    requires i < |core|
  {
    if reps == [] then [] else SwapsWith(core, i, reps[..|reps| - 1]) + [Swap(core, i, reps[|reps| - 1])]
  }

  /** The synonym swaps at position `i`, in table order. */
  function SwapsAt(core: seq<string>, i: nat): seq<Candidate>
    requires i < |core|
  {
    SwapsWith(core, i, Synonyms(core[i]))
  }

  /** The synonym swaps at the positions before `n`. */
  function Swaps(core: seq<string>, n: nat): seq<Candidate>
    requires n <= |core|
  {
    if n == 0 then [] else Swaps(core, n - 1) + SwapsAt(core, n - 1)
  }

  lemma {:induction false} SwapsPrefix(core: seq<string>, m: nat, n: nat)
    requires m <= n <= |core|
    ensures Swaps(core, m) <= Swaps(core, n)
    decreases n - m
  {
    if m < n {
      SwapsPrefix(core, m, n - 1);
    }
  }

  function WhereHandled(core: seq<string>): Candidate {
    Candidate("where " + Join(core, " ") + " is handled", Expanded, 0.7)
  }

  function ImplementationOf(core: seq<string>): Candidate {
    Candidate("implementation of " + Join(core, " "), Expanded, 0.7)
  }

  /** Everything offered after the original, in the order it is offered. */
  function Candidates(core: seq<string>): seq<Candidate> {
    [WhereHandled(core), ImplementationOf(core)] + Swaps(core, |core|)
  }

  /** The non-stopword tokens of a trimmed query that qualifies for
      rephrasing; `None` when only the original is kept. */
  function ExpandableCore(trimmed: string, maxVariants: int): Option<seq<string>> {
    if maxVariants <= 1 || '`' in trimmed || |trimmed| > 200 then None
    else
      var tokens := Tokenize(trimmed);
      if |tokens| < 2 then None
      else
        var core := Filter(tokens, Keep);
        if |core| < 2 then None else Some(core)
  }

  /** The variants `expandQuery(query, maxVariants)` returns. */
  function Expansion(query: string, maxVariants: int): seq<ExpandedQuery> {
    var trimmed := Trim(query);
    if trimmed == [] then []
    else
      var original := Add([], Candidate(trimmed, Original, 1.0));
      match ExpandableCore(trimmed, maxVariants)
      case None => original
      case Some(core) => Rephrased(original, core, maxVariants)
  }

  /** The variants after offering every rephrasing, cut to `maxVariants`. */
  function Rephrased(original: seq<ExpandedQuery>, core: seq<string>, maxVariants: int): seq<ExpandedQuery>
    requires maxVariants >= 0
  {
    var all := AddAll(original, Candidates(core));
    all[..Min(maxVariants, |all|)]
  }

  /** `expandQuery`: offers the original, the two phrasings and then every
      synonym swap, returning as soon as `maxVariants` variants exist. */
  method ExpandVariants(query: string, maxVariants: int) returns (r: seq<ExpandedQuery>)
    ensures r == Expansion(query, maxVariants)
  {
    var trimmed := Trim(query);
    if trimmed == [] {
      return [];
    }
    var variants := Add([], Candidate(trimmed, Original, 1.0));
    if maxVariants <= 1 {
      return variants;
    }
    if '`' in trimmed || |trimmed| > 200 {
      return variants;
    }
    var tokens := Tokenize(trimmed);
    if |tokens| < 2 {
      return variants;
    }
    var core := Filter(tokens, Keep);
    if |core| < 2 {
      return variants;
    }
    AddCorrect([], Candidate(trimmed, Original, 1.0));
    r := Rephrase(variants, core, maxVariants);
  }

  /** The rest of `expandQuery` once the query qualifies: the two phrasings,
      then the synonym swaps position by position. */
  method Rephrase(original: seq<ExpandedQuery>, core: seq<string>, maxVariants: int) returns (r: seq<ExpandedQuery>)
    requires WellKeyed(original)
    requires maxVariants >= 2
    ensures r == Rephrased(original, core, maxVariants)
  {
    var variants := AddPhrasings(original, core);
    ghost var base := variants;
    for i := 0 to |core|
      invariant variants == AddAll(base, Swaps(core, i))
    {
      var entry := SynonymEntry(core[i]);
      if entry.Some? {
        var stop;
        ghost var taken;
        variants, stop, taken := OfferSwaps(variants, core, i, entry.value, maxVariants);
        AddAllAppend(base, Swaps(core, i), SwapsWith(core, i, Synonyms(core[i])[..taken]));
        if stop {
          EarlyStop(original, base, core, i, taken, maxVariants);
          return variants[..maxVariants];
        }
        SwapsComplete(core, i, taken);
      } else {
        SwapsNone(core, i);
      }
    }
    assert variants == AddAll(original, Candidates(core));
    return variants[..Min(maxVariants, |variants|)];
  }

  /** Offers the `where ... is handled` and `implementation of ...` phrasings. */
  method AddPhrasings(original: seq<ExpandedQuery>, core: seq<string>) returns (vs: seq<ExpandedQuery>)
    requires WellKeyed(original)
    ensures WellKeyed(vs)
    ensures AddAll(original, Candidates(core)) == AddAll(vs, Swaps(core, |core|))
  {
    vs := Add(original, WhereHandled(core));
    vs := Add(vs, ImplementationOf(core));
    PhrasingsFirst(original, core);
    AddCorrect(original, WhereHandled(core));
    AddCorrect(Add(original, WhereHandled(core)), ImplementationOf(core));
  }

  /** The inner loop of `expandQuery`: offers the swaps of position `i` one
      by one and stops as soon as `maxVariants` variants exist; `taken`
      counts the replacements offered. */
  method OfferSwaps(vs0: seq<ExpandedQuery>, core: seq<string>, i: nat, reps: seq<string>, maxVariants: int)
      returns (vs: seq<ExpandedQuery>, stop: bool, ghost taken: nat)
    requires i < |core|
    ensures taken <= |reps|
    ensures vs == AddAll(vs0, SwapsWith(core, i, reps[..taken]))
    ensures stop ==> |vs| >= maxVariants
    ensures !stop ==> taken == |reps|
  {
    vs, stop, taken := vs0, false, 0;
    for j := 0 to |reps|
      invariant vs == AddAll(vs0, SwapsWith(core, i, reps[..j]))
    {
      var clone := core[i := reps[j]];
      assert reps[..j + 1][..j] == reps[..j];
      vs := Add(vs, Candidate(Join(clone, " "), Expanded, 0.6));
      if |vs| >= maxVariants {
        return vs, true, j + 1;
      }
    }
    taken := |reps|;
  }

  lemma {:induction false} SwapsWithPrefix(core: seq<string>, i: nat, reps: seq<string>, k: nat)
    requires i < |core| && k <= |reps|
    ensures SwapsWith(core, i, reps[..k]) <= SwapsWith(core, i, reps)
    decreases |reps|
  {
    if k < |reps| {
      assert reps[..|reps| - 1][..k] == reps[..k];
      SwapsWithPrefix(core, i, reps[..|reps| - 1], k);
    } else {
      assert reps[..k] == reps;
    }
  }

  /** After the original come the two phrasings, then the swaps. */
  lemma PhrasingsFirst(original: seq<ExpandedQuery>, core: seq<string>)
    ensures AddAll(original, Candidates(core)) ==
      AddAll(Add(Add(original, WhereHandled(core)), ImplementationOf(core)), Swaps(core, |core|))
  {
    var two := [WhereHandled(core), ImplementationOf(core)];
    assert two[..1] == [WhereHandled(core)] && [WhereHandled(core)][..0] == [];
    assert AddAll(original, [WhereHandled(core)]) == Add(original, WhereHandled(core));
    AddAllAppend(original, two, Swaps(core, |core|));
  }

  lemma SwapsComplete(core: seq<string>, i: nat, taken: nat)
    requires i < |core| && taken == |Synonyms(core[i])|
    ensures Swaps(core, i) + SwapsWith(core, i, Synonyms(core[i])[..taken]) == Swaps(core, i + 1)
  {
    assert Synonyms(core[i])[..taken] == Synonyms(core[i]);
  }

  lemma SwapsNone(core: seq<string>, i: nat)
    requires i < |core| && SynonymEntry(core[i]).None?
    ensures Swaps(core, i + 1) == Swaps(core, i)
  {
    assert Swaps(core, i) + [] == Swaps(core, i);
  }

  /** Stopping inside the swaps of position `i` with at least `maxVariants`
      variants gives what offering every swap and cutting would give. */
  lemma EarlyStop(original: seq<ExpandedQuery>, base: seq<ExpandedQuery>, core: seq<string>, i: nat, k: nat, maxVariants: int)
    requires WellKeyed(base)
    requires AddAll(original, Candidates(core)) == AddAll(base, Swaps(core, |core|))
    requires i < |core| && k <= |Synonyms(core[i])| && maxVariants >= 0
    requires |AddAll(base, Swaps(core, i) + SwapsWith(core, i, Synonyms(core[i])[..k]))| >= maxVariants
    ensures AddAll(base, Swaps(core, i) + SwapsWith(core, i, Synonyms(core[i])[..k]))[..maxVariants] ==
      Rephrased(original, core, maxVariants)
  {
    var part := Swaps(core, i) + SwapsWith(core, i, Synonyms(core[i])[..k]);
    PartialSwaps(core, i, k);
    AddAllMono(base, part, Swaps(core, |core|));
    CutPrefix(AddAll(base, part), AddAll(base, Swaps(core, |core|)), maxVariants);
  }

  lemma PartialSwaps(core: seq<string>, i: nat, k: nat)
    requires i < |core| && k <= |Synonyms(core[i])|
    ensures Swaps(core, i) + SwapsWith(core, i, Synonyms(core[i])[..k]) <= Swaps(core, |core|)
  {
    SwapsWithPrefix(core, i, Synonyms(core[i]), k);
    SwapsPrefix(core, i + 1, |core|);
  }

  lemma CutPrefix<T>(a: seq<T>, b: seq<T>, n: nat)
    requires a <= b && n <= |a|
    ensures a[..n] == b[..Min(n, |b|)]
  {
  }

  // ---------------------------------------------------------------------
  // What the expansion promises
  // ---------------------------------------------------------------------

  /** A blank query gives no variants; any other query gives its trimmed
      text first, as the original with weight 1 and index 0. */
  lemma ExpansionHead(query: string, maxVariants: int)
    ensures Expansion(query, maxVariants) == [] <==> Trim(query) == []
    ensures Trim(query) != [] ==>
      Expansion(query, maxVariants)[0] == ExpandedQuery(Trim(query), Original, 1.0, 0)
  {
    var trimmed := Trim(query);
    if trimmed != [] {
      TrimTwice(query);
      var original := Add([], Candidate(trimmed, Original, 1.0));
      assert original == [ExpandedQuery(trimmed, Original, 1.0, 0)];
      match ExpandableCore(trimmed, maxVariants)
      case None =>
      case Some(core) =>
        AddAllCorrect(original, Candidates(core));
    }
  }

  /** No two variants share a lower-case key, each `index` is the
      variant's position in the result, and there are at most
      `max(1, maxVariants)` of them. */
  lemma ExpansionWellKeyed(query: string, maxVariants: int)
    ensures WellKeyed(Expansion(query, maxVariants))
    ensures |Expansion(query, maxVariants)| <= Max(1, maxVariants)
  {
    var trimmed := Trim(query);
    if trimmed != [] {
      var original := Add([], Candidate(trimmed, Original, 1.0));
      AddCorrect([], Candidate(trimmed, Original, 1.0));
      match ExpandableCore(trimmed, maxVariants)
      case None =>
      case Some(core) =>
        AddAllCorrect(original, Candidates(core));
    }
  }

  /** Only the original is kept when `maxVariants` is at most 1, the query
      holds a backtick or is longer than 200 characters, or it has fewer than
      two tokens or fewer than two non-stopword tokens. */
  lemma ExpansionOnlyOriginal(query: string, maxVariants: int)
    requires Trim(query) != []
    requires var trimmed := Trim(query);
      maxVariants <= 1 || '`' in trimmed || |trimmed| > 200 ||
      |Tokenize(trimmed)| < 2 || |Filter(Tokenize(trimmed), Keep)| < 2
    ensures Expansion(query, maxVariants) == [ExpandedQuery(Trim(query), Original, 1.0, 0)]
  {
    TrimTwice(query);
  }

  /** Every variant after the first is a trimmed rephrasing: the `where ... is
      handled` or `implementation of ...` phrasing of the non-stopword tokens
      with weight 0.7, or one synonym swap of them with weight 0.6. */
  lemma ExpansionSources(query: string, maxVariants: int, k: nat)
    requires 1 <= k < |Expansion(query, maxVariants)|
    ensures var v := Expansion(query, maxVariants)[k];
      var core := ExpandableCore(Trim(query), maxVariants);
      core.Some? && v.source == Expanded &&
      exists c :: c in Candidates(core.value) && v.query == Trim(c.text) && v.weight == c.weight
  {
    var trimmed := Trim(query);
    var original := Add([], Candidate(trimmed, Original, 1.0));
    AddCorrect([], Candidate(trimmed, Original, 1.0));
    var core := ExpandableCore(trimmed, maxVariants).value;
    var all := AddAll(original, Candidates(core));
    AddAllCorrect(original, Candidates(core));
    AddAllFrom(original, Candidates(core));
    var v := all[k];
    assert v in all;
    assert v !in original;
    var c :| c in Candidates(core) && v == ExpandedQuery(Trim(c.text), c.source, c.weight, v.index);
    assert c == WhereHandled(core) || c == ImplementationOf(core) || c in Swaps(core, |core|);
    SwapsExpanded(core, |core|);
  }

  lemma {:induction false} SwapsExpanded(core: seq<string>, n: nat)
    requires n <= |core|
    ensures forall c :: c in Swaps(core, n) ==> c.source == Expanded && c.weight == 0.6
    decreases n
  {
    if n > 0 {
      SwapsExpanded(core, n - 1);
      SwapsWithExpanded(core, n - 1, Synonyms(core[n - 1]));
    }
  }

  lemma {:induction false} SwapsWithExpanded(core: seq<string>, i: nat, reps: seq<string>)
    requires i < |core|
    ensures forall c :: c in SwapsWith(core, i, reps) ==> c.source == Expanded && c.weight == 0.6
    decreases |reps|
  {
    if reps != [] {
      SwapsWithExpanded(core, i, reps[..|reps| - 1]);
    }
  }

  /** Tokens without an entry of their own in the table contribute no swaps:
      such a query gets only the two phrasings after its original. */
  lemma {:induction false} NoOwnEntryNoSwaps(core: seq<string>, n: nat)
    requires n <= |core|
    requires forall t :: t in core ==> SynonymEntry(t).None?
    ensures Swaps(core, n) == []
    decreases n
  {
    if n > 0 {
      NoOwnEntryNoSwaps(core, n - 1);
      assert core[n - 1] in core;
      assert Synonyms(core[n - 1]) == [];
    }
  }

  // ---------------------------------------------------------------------
  // The table lookup as the source performs it
  // ---------------------------------------------------------------------

  /** The lower-case token names under which a plain object answers with a
      value inherited from `Object.prototype` (the `Object` constructor and
      the prototype itself), neither of which `for...of` can iterate. */
  const PROTOTYPE_KEYS: set<string> := {"constructor", "__proto__"}

  /** `SYNONYMS[token]` on the object literal: its own entry, nothing, or an
      inherited non-iterable value. */
  datatype Lookup = Own(reps: seq<string>) | Absent | Inherited

  function LookupAsWritten(t: string): Lookup {
    match SynonymEntry(t)
    case Some(reps) => Own(reps)
    case None => if t in PROTOTYPE_KEYS then Inherited else Absent
  }

  /** A step of the swap loop: offer a candidate, or throw a `TypeError`
      from iterating a non-iterable replacement list. */
  datatype Step = Offer(c: Candidate) | Throw

  function OffersWith(core: seq<string>, i: nat, reps: seq<string>): seq<Step>
    requires i < |core|
  {
    if reps == [] then [] else OffersWith(core, i, reps[..|reps| - 1]) + [Offer(Swap(core, i, reps[|reps| - 1]))]
  }

  function StepsAt(core: seq<string>, i: nat): seq<Step>
    requires i < |core|
  {
    match LookupAsWritten(core[i])
    case Own(reps) => OffersWith(core, i, reps)
    case Absent => []
    case Inherited => [Throw]
  }

  function StepsAsWritten(core: seq<string>, n: nat): seq<Step>
    requires n <= |core|
  {
    if n == 0 then [] else StepsAsWritten(core, n - 1) + StepsAt(core, n - 1)
  }

  function LoopAsWritten(vs: seq<ExpandedQuery>, steps: seq<Step>, maxVariants: nat): Result<seq<ExpandedQuery>, string>
    decreases |steps|
  {
    if steps == [] then Ok(vs[..Min(maxVariants, |vs|)])
    else match steps[0]
      case Throw => Err("TypeError: replacements is not iterable")
      case Offer(c) =>
        var next := Add(vs, c);
        if |next| >= maxVariants then Ok(next[..maxVariants])
        else LoopAsWritten(next, steps[1..], maxVariants)
  }

  /** `expandQuery` with the plain-object lookup of the source. */
  function ExpansionAsWritten(query: string, maxVariants: int): Result<seq<ExpandedQuery>, string> {
    var trimmed := Trim(query);
    if trimmed == [] then Ok([])
    else
      var original := Add([], Candidate(trimmed, Original, 1.0));
      match ExpandableCore(trimmed, maxVariants)
      case None => Ok(original)
      case Some(core) =>
        var base := AddAll(original, [WhereHandled(core), ImplementationOf(core)]);
        LoopAsWritten(base, StepsAsWritten(core, |core|), maxVariants)
  }

  lemma {:induction false} StepsFirst(core: seq<string>, n: nat)
    requires 1 <= n <= |core|
    ensures StepsAt(core, 0) <= StepsAsWritten(core, n)
    decreases n
  {
    if n > 1 {
      StepsFirst(core, n - 1);
    } else {
      assert StepsAsWritten(core, 0) == [];
    }
  }

  lemma {:induction false} JoinTokenChars(ts: seq<string>)
    requires forall t :: t in ts ==> IsToken(t)
    ensures forall k :: 0 <= k < |Join(ts, " ")| ==> IsTokenChar(Join(ts, " ")[k]) || Join(ts, " ")[k] == ' '
    decreases |ts|
  {
    if |ts| >= 1 {
      assert ts[0] in ts;
    }
    if |ts| > 1 {
      assert forall t :: t in ts[1..] ==> t in ts;
      JoinTokenChars(ts[1..]);
      assert Join(ts, " ") == ts[0] + " " + Join(ts[1..], " ");
    }
  }

  /** Two or more non-stopword tokens joined by spaces (at most 200
      characters) form a query that qualifies for rephrasing, with exactly
      those tokens as its core. */
  lemma JoinedTokensQualify(core: seq<string>, maxVariants: int)
    requires forall t :: t in core ==> IsToken(t) && Keep(t)
    requires |core| >= 2 && maxVariants >= 2 && |Join(core, " ")| <= 200
    ensures Trim(Join(core, " ")) == Join(core, " ")
    ensures ExpandableCore(Join(core, " "), maxVariants) == Some(core)
  {
    var q := Join(core, " ");
    JoinedTokensUnpadded(core);
    TrimUnpadded(q);
    JoinTokenChars(core);
    assert '`' !in q;
    TokenizeJoin(core);
    FilterAll(core, Keep);
  }

  lemma JoinedTokensUnpadded(core: seq<string>)
    requires forall t :: t in core ==> IsToken(t)
    requires |core| >= 2
    ensures var q := Join(core, " "); q != [] && !IsJsSpace(q[0]) && !IsJsSpace(q[|q| - 1])
  {
    var q := Join(core, " ");
    var last := core[|core| - 1];
    assert core[0] in core && last in core;
    assert core == core[..|core| - 1] + [last];
    JoinAppendOne(core[..|core| - 1], last, " ");
    assert q[|q| - 1] == last[|last| - 1];
    assert q[0] == core[0][0];
  }

  /** When the first non-stopword token of a qualifying query names a value
      inherited from `Object.prototype`, the loop as written throws before
      offering any swap, whatever `maxVariants` is. */
  lemma PrototypeTokenThrows(query: string, maxVariants: int, core: seq<string>)
    requires Trim(query) != []
    requires ExpandableCore(Trim(query), maxVariants) == Some(core)
    requires LookupAsWritten(core[0]) == Inherited
    ensures ExpansionAsWritten(query, maxVariants).Err?
  {
    assert StepsAt(core, 0) == [Throw];
    StepsFirst(core, |core|);
  }

  lemma ConstructorUsageTokens()
    ensures var core := ["constructor", "usage"];
      Join(core, " ") == "constructor usage" &&
      forall t :: t in core ==> IsToken(t) && Keep(t)
  {
    assert ["constructor", "usage"][1..] == ["usage"];
  }

  /** As written, the query `constructor usage` throws instead of returning
      its variants; with own-entry lookup its original comes first. */
  lemma ConstructorQueryThrows(maxVariants: int)
    requires maxVariants >= 2
    ensures ExpansionAsWritten("constructor usage", maxVariants).Err?
    ensures var r := Expansion("constructor usage", maxVariants);
      r != [] && r[0] == ExpandedQuery("constructor usage", Original, 1.0, 0)
  {
    var core := ["constructor", "usage"];
    ConstructorUsageTokens();
    JoinedTokensQualify(core, maxVariants);
    assert LookupAsWritten("constructor") == Inherited;
    PrototypeTokenThrows("constructor usage", maxVariants, core);
    ExpansionHead("constructor usage", maxVariants);
  }
  // ---------------------------------------------------------------------
  // Away from the prototype keys, the source and the model agree
  // ---------------------------------------------------------------------

  /** Offering each candidate in turn, as loop steps. */
  function Offers(cs: seq<Candidate>): (r: seq<Step>)
    ensures |r| == |cs| && forall i :: 0 <= i < |cs| ==> r[i] == Offer(cs[i])
  {
    seq(|cs|, i requires 0 <= i < |cs| => Offer(cs[i]))
  }

  lemma {:induction false} OffersWithSwaps(core: seq<string>, i: nat, reps: seq<string>)
    requires i < |core|
    ensures OffersWith(core, i, reps) == Offers(SwapsWith(core, i, reps))
    decreases |reps|
  {
    if reps != [] {
      OffersWithSwaps(core, i, reps[..|reps| - 1]);
    }
  }

  /** With no token named after a prototype member, the loop's steps are
      exactly offers of the swaps. */
  lemma {:induction false} StepsAreOffers(core: seq<string>, n: nat)
    requires n <= |core|
    requires forall t :: t in core ==> t !in PROTOTYPE_KEYS
    ensures StepsAsWritten(core, n) == Offers(Swaps(core, n))
    decreases n
  {
    if n > 0 {
      StepsAreOffers(core, n - 1);
      assert core[n - 1] in core;
      match SynonymEntry(core[n - 1])
      case Some(reps) =>
        OffersWithSwaps(core, n - 1, reps);
      case None =>
        assert Synonyms(core[n - 1]) == [];
    }
  }

  lemma LoopUnfold(vs: seq<ExpandedQuery>, c: Candidate, steps: seq<Step>, maxVariants: nat)
    requires steps != [] && steps[0] == Offer(c)
    ensures LoopAsWritten(vs, steps, maxVariants) ==
      if |Add(vs, c)| >= maxVariants then Ok(Add(vs, c)[..maxVariants])
      else LoopAsWritten(Add(vs, c), steps[1..], maxVariants)
  {
  }

  lemma AddAllFirst(vs: seq<ExpandedQuery>, cs: seq<Candidate>)
    requires cs != []
    ensures AddAll(vs, cs) == AddAll(Add(vs, cs[0]), cs[1..])
  {
    assert cs == [cs[0]] + cs[1..];
    AddAllAppend(vs, [cs[0]], cs[1..]);
    assert AddAll(vs, [cs[0]]) == Add(vs, cs[0]) by {
      assert [cs[0]][..0] == [];
    }
  }

  lemma PrefixCut(next: seq<ExpandedQuery>, all: seq<ExpandedQuery>, m: nat)
    requires next <= all && m <= |next|
    ensures all[..Min(m, |all|)] == next[..m]
  {
  }

  /** The loop with early return, over offers, is the cut of offering all. */
  lemma {:induction false} LoopOffers(vs: seq<ExpandedQuery>, cs: seq<Candidate>, maxVariants: nat)
    requires WellKeyed(vs)
    ensures var all := AddAll(vs, cs);
      LoopAsWritten(vs, Offers(cs), maxVariants) == Ok(all[..Min(maxVariants, |all|)])
    decreases |cs|
  {
    if cs != [] {
      var next := Add(vs, cs[0]);
      AddCorrect(vs, cs[0]);
      assert Offers(cs)[1..] == Offers(cs[1..]);
      LoopUnfold(vs, cs[0], Offers(cs), maxVariants);
      AddAllFirst(vs, cs);
      if |next| < maxVariants {
        LoopOffers(next, cs[1..], maxVariants);
      } else {
        AddAllCorrect(next, cs[1..]);
        PrefixCut(next, AddAll(next, cs[1..]), maxVariants);
      }
    }
  }

  /** When no non-stopword token is `constructor` or `__proto__`, the source
      as written returns exactly the model's variants: the finding is the
      only place where the two differ. */
  lemma AsWrittenAgrees(query: string, maxVariants: int)
    requires forall t :: t in Tokenize(Trim(query)) && Keep(t) ==> t !in PROTOTYPE_KEYS
    ensures ExpansionAsWritten(query, maxVariants) == Ok(Expansion(query, maxVariants))
  {
    var trimmed := Trim(query);
    if trimmed != [] {
      var original := Add([], Candidate(trimmed, Original, 1.0));
      match ExpandableCore(trimmed, maxVariants)
      case None =>
      case Some(core) =>
        assert core == Filter(Tokenize(trimmed), Keep);
        FilterMembers(Tokenize(trimmed), Keep);
        StepsAreOffers(core, |core|);
        AddCorrect([], Candidate(trimmed, Original, 1.0));
        var base := AddAll(original, [WhereHandled(core), ImplementationOf(core)]);
        AddAllCorrect(original, [WhereHandled(core), ImplementationOf(core)]);
        LoopOffers(base, Swaps(core, |core|), maxVariants);
        AddAllAppend(original, [WhereHandled(core), ImplementationOf(core)], Swaps(core, |core|));
    }
  }
}
