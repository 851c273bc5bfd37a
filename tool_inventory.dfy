/** The text-scanning core of the tool-inventory script: cutting the
    `tools: [ ... ]` array out of a source file by bracket counting, reading
    the listed identifiers or quoted tool names out of it, and rendering the
    inventory as a markdown table. Reading and writing files is left to the
    caller. */
module ToolInventory {
  import opened Wrappers
  import opened Text
  import opened Seqs
  import opened Tokens

  const TOOLS_MARKER: string := "tools: ["

  // ---------------------------------------------------------------------
  // extractArrayBlock

  function Delta(c: char): int {
    if c == '[' then 1 else if c == ']' then -1 else 0
  }

  /** Opening minus closing brackets in `u`. */
  function Depth(u: string): int
    decreases |u|
  {
    if u == [] then 0 else Depth(u[..|u| - 1]) + Delta(u[|u| - 1])
  }

  lemma DepthSnoc(u: string, k: nat)
    requires k < |u|
    ensures Depth(u[..k + 1]) == Depth(u[..k]) + Delta(u[k])
  {
    assert u[..k + 1][..k] == u[..k];
  }

  /** No prefix of `u` closes more brackets than it opens. */
  predicate NeverNegative(u: string) {
    forall k :: 0 <= k <= |u| ==> Depth(u[..k]) >= 0
  }

  /** Every bracket of `u` is matched within `u`. */
  predicate Balanced(u: string) {
    Depth(u) == 0 && NeverNegative(u)
  }

  /** Searching `u` (the text after an opening bracket) from `k`: the first
      index at which a closing bracket leaves the opening one matched. */
  function Close(u: string, k: nat): (r: Option<nat>)
    requires k <= |u|
    decreases |u| - k
    ensures r.Some? ==> k <= r.value < |u|
  {
    if k == |u| then None
    else if Depth(u[..k + 1]) == -1 then Some(k)
    else Close(u, k + 1)
  }

  /** `extractArrayBlock(content, marker)`: the text strictly between the
      first `[` at or after the first occurrence of `marker` and the bracket
      that matches it. */
  function ArrayBlock(content: string, marker: string): Option<string> {
    match IndexOfFrom(content, marker, 0)
    case None => None
    case Some(index) =>
      match IndexOfFrom(content, "[", index)
      case None => None
      case Some(start) =>
        var u := content[start + 1..];
        match Close(u, 0)
        case None => None
        case Some(close) => Some(u[..close])
  }

  /** The bracket-counting scan of the script, proved to compute
      `ArrayBlock`. */
  method ExtractArrayBlock(content: string, marker: string) returns (block: Option<string>)
    ensures block == ArrayBlock(content, marker)
  {
    var index := IndexOfFrom(content, marker, 0);
    if index.None? {
      return None;
    }
    var open := IndexOfFrom(content, "[", index.value);
    if open.None? {
      return None;
    }
    var start := open.value;
    assert content[start..start + 1] == "[";
    ghost var u := content[start + 1..];
    var depth := 0;
    for i := start to |content|
      invariant i == start ==> depth == 0
      invariant i > start ==> depth == 1 + Depth(u[..i - start - 1]) && depth >= 1
      invariant i > start ==> Close(u, 0) == Close(u, i - start - 1)
    {
      var ch := content[i];
      if i > start {
        assert u[i - start - 1] == ch;
        DepthSnoc(u, i - start - 1);
      }
      if ch == '[' {
        depth := depth + 1;
      }
      if ch == ']' {
        depth := depth - 1;
        if depth == 0 {
          assert Close(u, i - start - 1) == Some(i - start - 1);
          assert u[..i - start - 1] == content[start + 1..i];
          return Some(content[start + 1..i]);
        }
      }
    }
    return None;
  }

  lemma NeverNegativeSnoc(u: string, k: nat)
    requires k < |u|
    requires NeverNegative(u[..k])
    requires Depth(u[..k + 1]) >= 0
    ensures NeverNegative(u[..k + 1])
  {
    var w := u[..k + 1];
    forall j | 0 <= j <= k + 1
      ensures Depth(w[..j]) >= 0
    {
      if j <= k {
        assert w[..j] == u[..k][..j];
      } else {
        assert w[..j] == w;
      }
    }
  }

  /** The scan stops at the first point where the depth drops below the
      opening bracket, and only there. */
  lemma {:induction false} CloseMeaning(u: string, k: nat)
    requires k <= |u|
    requires NeverNegative(u[..k])
    ensures Close(u, k).None? <==> NeverNegative(u)
    ensures Close(u, k).Some? ==>
      var c := Close(u, k).value;
      NeverNegative(u[..c]) && Depth(u[..c]) == 0 && u[c] == ']'
    decreases |u| - k
  {
    if k == |u| {
      assert u[..k] == u;
    } else {
      DepthSnoc(u, k);
      assert u[..k][..k] == u[..k];
      if Depth(u[..k + 1]) == -1 {
        assert !NeverNegative(u) by {
          assert u[..k + 1] == u[..k + 1];
        }
      } else {
        NeverNegativeSnoc(u, k);
        CloseMeaning(u, k + 1);
      }
    }
  }

  /** Once the opening bracket is found, the block is missing exactly when
      the brackets after it never close it, and otherwise it is balanced
      and followed by the closing bracket. */
  lemma ArrayBlockFromOpen(content: string, marker: string, start: nat)
    requires IndexOfFrom(content, marker, 0).Some?
    requires IndexOfFrom(content, "[", IndexOfFrom(content, marker, 0).value) == Some(start)
    ensures start < |content| && content[start] == '['
    ensures ArrayBlock(content, marker).None? <==> NeverNegative(content[start + 1..])
    ensures ArrayBlock(content, marker).Some? ==>
      var b := ArrayBlock(content, marker).value;
      var u := content[start + 1..];
      |b| < |u| && u[..|b|] == b && u[|b|] == ']' && Balanced(b)
  {
    assert content[start..start + 1] == "[";
    var u := content[start + 1..];
    assert u[..0] == [];
    CloseMeaning(u, 0);
  }

  /** Without the marker, or without an opening bracket, there is no block. */
  lemma ArrayBlockMissing(content: string, marker: string)
    ensures !Contains(content, marker) ==> ArrayBlock(content, marker).None?
    ensures (forall j :: 0 <= j < |content| ==> content[j] != '[') ==> ArrayBlock(content, marker).None?
  {
    ContainsIffIndexOf(content, marker);
    var index := IndexOfFrom(content, marker, 0);
    if index.Some? {
      var open := IndexOfFrom(content, "[", index.value);
      if open.Some? {
        assert content[open.value..open.value + 1] == "[";
        assert content[open.value..open.value + 1][0] == content[open.value];
      }
    }
  }

  // ---------------------------------------------------------------------
  // parseListToolsSymbols

  predicate NoLineTerminator(s: string) {
    forall i :: 0 <= i < |s| ==> !IsLineTerminator(s[i])
  }

  /** Where `/\/\/.*$/` matches in `line`, trying positions from `k`: a `//`
      after which no line terminator remains (`.` stops at one, and `$`
      without the `m` flag is only the end of the text). */
  function CommentFrom(line: string, k: nat): (r: Option<nat>)
    decreases |line| - k
    ensures r.Some? ==> k <= r.value && r.value + 2 <= |line|
  {
    if k + 2 > |line| then None
    else if line[k..k + 2] == "//" && NoLineTerminator(line[k + 2..]) then Some(k)
    else CommentFrom(line, k + 1)
  }

  /** `line.replace(/\/\/.*$/, '')`. */
  function StripComment(line: string): string {
    match CommentFrom(line, 0)
    case None => line
    case Some(k) => line[..k]
  }

  lemma {:induction false} CommentFromPlain(line: string, k: nat)
    requires NoLineTerminator(line)
    ensures CommentFrom(line, k) == IndexOfFrom(line, "//", k)
    decreases |line| - k
  {
    if k + 2 <= |line| {
      assert NoLineTerminator(line[k + 2..]);
      CommentFromPlain(line, k + 1);
    }
  }

  /** On a line with no line terminator, the comment starts at the first
      `//` and runs to the end of the line. */
  lemma StripCommentPlain(line: string)
    requires NoLineTerminator(line)
    ensures StripComment(line) ==
      match IndexOfFrom(line, "//", 0)
      case None => line
      case Some(k) => line[..k]
  {
    CommentFromPlain(line, 0);
  }

  /** A line that ends in a carriage return (a line of a CRLF file) keeps
      its comment, since `.` does not match the carriage return. */
  lemma StripCommentCarriageReturn(line: string)
    requires line != [] && line[|line| - 1] == '\r'
    ensures StripComment(line) == line
  {
    CommentNoneBeforeCarriageReturn(line, 0);
  }

  lemma {:induction false} CommentNoneBeforeCarriageReturn(line: string, k: nat)
    requires line != [] && line[|line| - 1] == '\r'
    ensures CommentFrom(line, k).None?
    decreases |line| - k
  {
    if k + 2 <= |line| {
      if k + 2 < |line| {
        assert line[k + 2..][|line| - k - 3] == '\r';
      } else {
        assert line[k..k + 2][1] == '\r';
      }
      CommentNoneBeforeCarriageReturn(line, k + 1);
    }
  }

  /** One line of the block with its comment removed and trimmed. */
  function CleanLine(line: string): string {
    Trim(StripComment(line))
  }

  /** The block's lines, cleaned, joined by single spaces. */
  function CleanBlock(block: string): string {
    Join(Map(Split(block, '\n'), CleanLine), " ")
  }

  /** `parseListToolsSymbols(content)`: the identifier tokens of the
      cleaned `tools: [ ... ]` block, or none. */
  function ListToolsSymbols(content: string): seq<string> {
    match ArrayBlock(content, TOOLS_MARKER)
    case None => []
    case Some(block) => if block == [] then [] else Runs(CleanBlock(block), [], IsWordChar)
  }

  /** Each symbol is a non-empty run of `[A-Za-z0-9_]`, and together they
      are exactly the identifier characters of the cleaned block, in order. */
  lemma ListToolsSymbolsMeaning(content: string)
    ensures ArrayBlock(content, TOOLS_MARKER).None? ==> ListToolsSymbols(content) == []
    ensures forall t :: t in ListToolsSymbols(content) ==> IsRun(t, IsWordChar)
    ensures ArrayBlock(content, TOOLS_MARKER).Some? ==>
      Concat(ListToolsSymbols(content)) == Filter(CleanBlock(ArrayBlock(content, TOOLS_MARKER).value), IsWordChar)
  {
    match ArrayBlock(content, TOOLS_MARKER)
    case None =>
    case Some(block) =>
      RunsMeaning(CleanBlock(block), IsWordChar);
      if block == [] {
        assert Split(block, '\n') == [""];
        assert CleanLine("") == "";
        assert Filter(CleanBlock(block), IsWordChar) == [];
      }
  }

  // ---------------------------------------------------------------------
  // The `tools: [ ... ]` array found in a file built around it

  predicate NoBrackets(s: string) {
    forall i :: 0 <= i < |s| ==> s[i] != '[' && s[i] != ']'
  }

  lemma {:induction false} DepthNoBrackets(s: string)
    requires NoBrackets(s)
    ensures Depth(s) == 0
    decreases |s|
  {
    if s != [] {
      DepthNoBrackets(s[..|s| - 1]);
    }
  }

  /** A file that starts with `tools: [`, then bracket-free text, then `]`,
      yields that text as the block, whatever follows. */
  lemma ArrayBlockOfList(body: string, post: string)
    requires NoBrackets(body)
    ensures ArrayBlock(TOOLS_MARKER + body + "]" + post, TOOLS_MARKER) == Some(body)
  {
    var content := TOOLS_MARKER + body + "]" + post;
    assert content[0..8] == TOOLS_MARKER;
    assert IndexOfFrom(content, TOOLS_MARKER, 0) == Some(0);
    assert content[..7] == "tools: ";
    forall j | 0 <= j < 7
      ensures !OccursAt(content, "[", j)
    {
      assert content[j] == content[..7][j];
      assert content[j..j + 1] == [content[j]];
    }
    assert content[7..8] == "[";
    assert OccursAt(content, "[", 7);
    assert IndexOfFrom(content, "[", 0) == Some(7);
    var u := content[8..];
    assert u == body + "]" + post;
    assert u[..|body|] == body;
    ArrayBlockFromOpen(content, TOOLS_MARKER, 7);
    CloseAfter(u, |body|);
    assert ArrayBlock(content, TOOLS_MARKER).Some?;
    FirstClose(u, |body|, |ArrayBlock(content, TOOLS_MARKER).value|);
  }

  lemma CloseAfter(u: string, n: nat)
    requires n < |u| && NoBrackets(u[..n]) && u[n] == ']'
    ensures !NeverNegative(u)
  {
    DepthNoBrackets(u[..n]);
    DepthSnoc(u, n);
    assert u[..|u|][..n + 1] == u[..n + 1];
  }

  /** The first closing bracket after bracket-free text is the one the
      scan stops at. */
  lemma FirstClose(u: string, n: nat, c: nat)
    requires n < |u| && NoBrackets(u[..n]) && u[n] == ']'
    requires c < |u| && NeverNegative(u[..c]) && u[c] == ']'
    ensures c == n
  {
    DepthNoBrackets(u[..n]);
    DepthSnoc(u, n);
    forall k | 0 <= k < n
      ensures u[k] != ']'
    {
      assert u[..n][k] == u[k];
    }
    forall k | n < k <= |u|
      ensures u[..k][..n + 1] == u[..n + 1]
    {
    }
  }

  predicate AllChars(s: string, q: char -> bool) {
    forall i :: 0 <= i < |s| ==> q(s[i])
  }

  lemma {:induction false} JoinChars(ts: seq<string>, sep: string, q: char -> bool)
    requires AllChars(sep, q)
    requires forall t :: t in ts ==> AllChars(t, q)
    ensures AllChars(Join(ts, sep), q)
    decreases |ts|
  {
    if |ts| >= 1 {
      assert ts[0] in ts;
    }
    if |ts| > 1 {
      assert forall t :: t in ts[1..] ==> t in ts;
      JoinChars(ts[1..], sep, q);
      var rest := Join(ts[1..], sep);
      assert Join(ts, sep) == ts[0] + sep + rest;
    }
  }

  lemma {:induction false} JoinEnds(ts: seq<string>, sep: string)
    requires ts != [] && ts[0] != [] && ts[|ts| - 1] != []
    ensures var s := Join(ts, sep);
      s != [] && s[0] == ts[0][0] && s[|s| - 1] == ts[|ts| - 1][|ts[|ts| - 1]| - 1]
    decreases |ts|
  {
    if |ts| > 1 {
      var rest := ts[1..];
      assert rest[|rest| - 1] == ts[|ts| - 1];
      if |rest| > 1 {
        assert rest[0] == ts[1];
        JoinEndsLast(rest, sep);
      }
    }
  }

  lemma {:induction false} JoinEndsLast(ts: seq<string>, sep: string)
    requires ts != [] && ts[|ts| - 1] != []
    ensures var s := Join(ts, sep);
      s != [] && s[|s| - 1] == ts[|ts| - 1][|ts[|ts| - 1]| - 1]
    decreases |ts|
  {
    if |ts| > 1 {
      var rest := ts[1..];
      assert rest[|rest| - 1] == ts[|ts| - 1];
      JoinEndsLast(rest, sep);
    }
  }

  predicate ListChar(c: char) {
    IsWordChar(c) || c == ',' || c == ' '
  }

  predicate Unpadded(s: string) {
    s == [] || (!IsJsSpace(s[0]) && !IsJsSpace(s[|s| - 1]))
  }

  /** A single line of identifiers, commas and inner spaces is its own
      cleaned block. */
  lemma CleanBlockOfList(body: string)
    requires AllChars(body, ListChar)
    requires Unpadded(body)
    ensures CleanBlock(body) == body
  {
    forall k | 0 <= k < |body|
      ensures body[k] != '\n'
    {
      assert ListChar(body[k]);
    }
    assert Split(body, '\n') == [body];
    assert Map([body], CleanLine) == [CleanLine(body)];
    NoCommentInList(body);
    TrimUnpadded(body);
  }

  lemma NoCommentInList(body: string)
    requires AllChars(body, ListChar)
    ensures StripComment(body) == body
  {
    StripCommentPlain(body);
    forall j | 0 <= j
      ensures !OccursAt(body, "//", j)
    {
      if j + 2 <= |body| {
        assert body[j..j + 2][0] == body[j];
        assert ListChar(body[j]);
      }
    }
    assert IndexOfFrom(body, "//", 0).None?;
  }

  /** Identifiers listed as `tools: [a, b, c]` are read back exactly. */
  lemma ListToolsSymbolsOfList(names: seq<string>, post: string)
    requires forall t :: t in names ==> IsRun(t, IsWordChar)
    ensures ListToolsSymbols(TOOLS_MARKER + Join(names, ", ") + "]" + post) == names
  {
    var body := Join(names, ", ");
    ListBody(names);
    assert NoBrackets(body) by {
      forall k | 0 <= k < |body|
        ensures body[k] != '[' && body[k] != ']'
      {
        assert ListChar(body[k]);
      }
    }
    ArrayBlockOfList(body, post);
    if names != [] {
      CleanBlockOfList(body);
      SeparatorNotWord(", ");
      RunsJoin(names, ", ", IsWordChar);
    }
  }

  /** A list of identifiers joined by `, ` holds only list characters and,
      when non-empty, starts and ends on an identifier character. */
  lemma ListBody(names: seq<string>)
    requires forall t :: t in names ==> IsRun(t, IsWordChar)
    ensures AllChars(Join(names, ", "), ListChar)
    ensures names != [] ==> Unpadded(Join(names, ", "))
  {
    forall t | t in names
      ensures AllChars(t, ListChar)
    {
    }
    JoinChars(names, ", ", ListChar);
    if names != [] {
      assert names[0] in names && names[|names| - 1] in names;
      JoinEnds(names, ", ");
    }
  }

  lemma SeparatorNotWord(sep: string)
    requires sep == ", "
    ensures forall k :: 0 <= k < |sep| ==> !IsWordChar(sep[k])
  {
    assert sep[0] == ',' && sep[1] == ' ';
  }

  // ---------------------------------------------------------------------
  // parseManifestToolNames

  /** The first quote at or after `i`. */
  function QuoteFrom(s: string, i: nat): (r: Option<nat>)
    decreases |s| - i
    ensures r.Some? ==> i <= r.value < |s| && s[r.value] == '\''
    ensures r.Some? ==> forall k :: i <= k < r.value ==> s[k] != '\''
  {
    if i >= |s| then None
    else if s[i] == '\'' then Some(i)
    else QuoteFrom(s, i + 1)
  }

  /** `/'([^']+)'/g.exec` from `lastIndex = pos`: the opening and closing
      quote of the first quoted, non-empty run of non-quotes at or after
      `pos`. */
  function NextQuoted(s: string, pos: nat): (r: Option<(nat, nat)>)
    decreases |s| - pos
    ensures r.Some? ==> pos <= r.value.0 && r.value.0 + 1 < r.value.1 < |s|
  {
    if pos >= |s| then None
    else if s[pos] == '\'' && QuoteFrom(s, pos + 1).Some? && QuoteFrom(s, pos + 1).value > pos + 1 then
      Some((pos, QuoteFrom(s, pos + 1).value))
    else NextQuoted(s, pos + 1)
  }

  /** The captures of every match found from `lastIndex = pos` on. */
  function QuotedFrom(s: string, pos: nat): seq<string>
    decreases |s| - pos
  {
    match NextQuoted(s, pos)
    case None => []
    case Some(m) => [s[m.0 + 1..m.1]] + QuotedFrom(s, m.1 + 1)
  }

  /** `parseManifestToolNames(content)`: the single-quoted names in the
      `tools: [ ... ]` block, in order, or none. */
  function ManifestToolNames(content: string): seq<string> {
    match ArrayBlock(content, TOOLS_MARKER)
    case None => []
    case Some(block) => if block == [] then [] else QuotedFrom(block, 0)
  }

  /** The script's `parseManifestToolNames`, proved to compute
      `ManifestToolNames`. */
  method ParseManifestToolNames(content: string) returns (names: seq<string>)
    ensures names == ManifestToolNames(content)
  {
    var block := ExtractArrayBlock(content, TOOLS_MARKER);
    if block.None? || block.value == [] {
      return [];
    }
    names := ScanQuoted(block.value);
  }

  /** The `exec` loop over the block, advancing `lastIndex` past each
      match. */
  method ScanQuoted(b: string) returns (names: seq<string>)
    ensures names == QuotedFrom(b, 0)
  {
    names := [];
    var lastIndex := 0;
    while true
      invariant lastIndex <= |b|
      invariant QuotedFrom(b, 0) == names + QuotedFrom(b, lastIndex)
      decreases |b| - lastIndex
    {
      var m := NextQuoted(b, lastIndex);
      if m.None? {
        QuotedFromEnd(b, lastIndex, names);
        break;
      }
      var (i, j) := m.value;
      QuotedFromNext(b, lastIndex, i, j, names);
      names := names + [b[i + 1..j]];
      lastIndex := j + 1;
    }
  }

  /** One `exec` step keeps the scan's invariant. */
  lemma QuotedFromNext(s: string, pos: nat, i: nat, j: nat, names: seq<string>)
    requires NextQuoted(s, pos) == Some((i, j))
    requires QuotedFrom(s, 0) == names + QuotedFrom(s, pos)
    ensures i < j < |s| && QuotedFrom(s, 0) == (names + [s[i + 1..j]]) + QuotedFrom(s, j + 1)
  {
    QuotedFromUnfold(s, pos);
    AppendAssoc(names, [s[i + 1..j]], QuotedFrom(s, j + 1));
  }

  lemma QuotedFromEnd(s: string, pos: nat, names: seq<string>)
    requires NextQuoted(s, pos).None?
    ensures names + QuotedFrom(s, pos) == names
  {
    assert QuotedFrom(s, pos) == [];
  }

  lemma QuotedFromUnfold(s: string, pos: nat)
    requires NextQuoted(s, pos).Some?
    ensures var m := NextQuoted(s, pos).value;
      m.0 < m.1 < |s| && QuotedFrom(s, pos) == [s[m.0 + 1..m.1]] + QuotedFrom(s, m.1 + 1)
  {
  }

  lemma AppendAssoc<T>(a: seq<T>, b: seq<T>, c: seq<T>)
    ensures a + (b + c) == (a + b) + c
  {
  }

  /** Every name is non-empty and holds no quote. */
  lemma {:induction false} QuotedFromShape(s: string, pos: nat)
    ensures forall t :: t in QuotedFrom(s, pos) ==> t != [] && '\'' !in t
    decreases |s| - pos
  {
    match NextQuoted(s, pos)
    case None =>
    case Some(m) =>
      QuotedFromShape(s, m.1 + 1);
      NextQuotedQuotes(s, pos);
  }

  lemma {:induction false} NextQuotedQuotes(s: string, pos: nat)
    requires NextQuoted(s, pos).Some?
    ensures var m := NextQuoted(s, pos).value;
      forall k :: m.0 < k < m.1 ==> s[k] != '\''
    decreases |s| - pos
  {
    if !(s[pos] == '\'' && QuoteFrom(s, pos + 1).Some? && QuoteFrom(s, pos + 1).value > pos + 1) {
      NextQuotedQuotes(s, pos + 1);
    }
  }

  lemma ManifestToolNamesShape(content: string)
    ensures forall t :: t in ManifestToolNames(content) ==> t != [] && '\'' !in t
  {
    if ArrayBlock(content, TOOLS_MARKER).Some? {
      QuotedFromShape(ArrayBlock(content, TOOLS_MARKER).value, 0);
    }
  }

  function Quote(name: string): string {
    "'" + name + "'"
  }

  function QuoteAll(names: seq<string>): (r: seq<string>)
    ensures |r| == |names|
    ensures forall i :: 0 <= i < |names| ==> r[i] == Quote(names[i])
  {
    if names == [] then [] else [Quote(names[0])] + QuoteAll(names[1..])
  }

  predicate PlainName(t: string) {
    t != [] && '\'' !in t
  }

  predicate AllPlain(names: seq<string>) {
    forall i :: 0 <= i < |names| ==> PlainName(names[i])
  }

  lemma {:induction false} QuoteFromSkip(s: string, i: nat, j: nat)
    requires i <= j <= |s|
    requires forall k :: i <= k < j ==> s[k] != '\''
    ensures QuoteFrom(s, i) == QuoteFrom(s, j)
    decreases j - i
  {
    if i < j {
      QuoteFromSkip(s, i + 1, j);
    }
  }

  lemma {:induction false} NextQuotedSkip(s: string, i: nat, j: nat)
    requires i <= j <= |s|
    requires forall k :: i <= k < j ==> s[k] != '\''
    ensures NextQuoted(s, i) == NextQuoted(s, j)
    decreases j - i
  {
    if i < j {
      NextQuotedSkip(s, i + 1, j);
    }
  }

  /** The quoted name at `pos` is found by one `exec`. */
  lemma QuotedNameAt(s: string, pos: nat, n: string)
    requires PlainName(n)
    requires pos + |n| + 2 <= |s| && s[pos..pos + |n| + 2] == Quote(n)
    ensures QuotedFrom(s, pos) == [n] + QuotedFrom(s, pos + |n| + 2)
  {
    var q := s[pos..pos + |n| + 2];
    assert s[pos] == q[0];
    assert s[pos + |n| + 1] == q[|n| + 1];
    forall k | 0 <= k < |n|
      ensures s[pos + 1 + k] == n[k]
    {
      assert s[pos + 1 + k] == q[k + 1];
    }
    assert s[pos + 1..pos + 1 + |n|] == n;
    QuoteFromSkip(s, pos + 1, pos + 1 + |n|);
    assert NextQuoted(s, pos) == Some((pos, pos + 1 + |n|));
  }

  /** A last quoted name ends the list. */
  lemma QuotedFromLast(s: string, pos: nat, n: string)
    requires PlainName(n)
    requires pos <= |s| && s[pos..] == Quote(n)
    ensures QuotedFrom(s, pos) == [n]
  {
    var after := pos + |n| + 2;
    assert s[pos..after] == Quote(n);
    QuotedNameAt(s, pos, n);
    assert after == |s|;
    assert NextQuoted(s, after).None?;
  }

  /** A quoted name followed by `, ` hands the scan on to what follows. */
  lemma QuotedFromStep(s: string, pos: nat, n: string, rest: string)
    requires PlainName(n)
    requires pos <= |s| && s[pos..] == Quote(n) + ", " + rest
    ensures pos + |n| + 4 <= |s| && s[pos + |n| + 4..] == rest
    ensures QuotedFrom(s, pos) == [n] + QuotedFrom(s, pos + |n| + 4)
  {
    var after := pos + |n| + 2;
    assert s[pos..after] == Quote(n);
    QuotedNameAt(s, pos, n);
    assert s[after] == ',' && s[after + 1] == ' ';
    QuotedFromSkip(s, after, after + 2);
    assert s[after + 2..] == rest;
  }

  lemma QuotedFromSkip(s: string, i: nat, j: nat)
    requires i <= j <= |s|
    requires forall k :: i <= k < j ==> s[k] != '\''
    ensures QuotedFrom(s, i) == QuotedFrom(s, j)
  {
    NextQuotedSkip(s, i, j);
  }

  /** Names written as `'a', 'b'` from `pos` on are read back exactly. */
  lemma {:induction false} QuotedFromList(s: string, pos: nat, names: seq<string>)
    requires pos <= |s| && s[pos..] == Join(QuoteAll(names), ", ")
    requires AllPlain(names)
    ensures QuotedFrom(s, pos) == names
    decreases |names|
  {
    if names == [] {
      assert NextQuoted(s, pos).None?;
    } else if |names| == 1 {
      assert PlainName(names[0]);
      QuotedFromLast(s, pos, names[0]);
    } else {
      var n, tail := names[0], names[1..];
      assert PlainName(n);
      assert names == [n] + tail;
      assert QuoteAll(names)[1..] == QuoteAll(tail);
      QuotedFromStep(s, pos, n, Join(QuoteAll(tail), ", "));
      QuotedFromList(s, pos + |n| + 4, tail);
    }
  }

  predicate NameChar(c: char) {
    c != '[' && c != ']'
  }

  /** Names written as `tools: ['a', 'b']` are read back exactly. */
  lemma ManifestToolNamesOfList(names: seq<string>, post: string)
    requires forall t :: t in names ==> PlainName(t) && NoBrackets(t)
    ensures ManifestToolNames(TOOLS_MARKER + Join(QuoteAll(names), ", ") + "]" + post) == names
  {
    var body := Join(QuoteAll(names), ", ");
    forall t | t in QuoteAll(names)
      ensures AllChars(t, NameChar)
    {
      var i :| 0 <= i < |names| && QuoteAll(names)[i] == t;
      assert names[i] in names;
    }
    JoinChars(QuoteAll(names), ", ", NameChar);
    ArrayBlockOfList(body, post);
    assert body[0..] == body;
    assert AllPlain(names) by {
      forall i | 0 <= i < |names|
        ensures PlainName(names[i])
      {
        assert names[i] in names;
      }
    }
    QuotedFromList(body, 0, names);
    if names != [] {
      assert body[0] == '\'' by {
        assert names[0] in names;
        assert QuoteAll(names)[|names| - 1] == Quote(names[|names| - 1]);
        JoinEnds(QuoteAll(names), ", ");
      }
    } else {
      assert body == [];
    }
  }

  // ---------------------------------------------------------------------
  // renderMarkdown

  datatype InputSchema = Inline | NoSchema | Unknown

  function SchemaName(s: InputSchema): string {
    match s
    case Inline => "inline"
    case NoSchema => "none"
    case Unknown => "unknown"
  }

  datatype ToolRecord = ToolRecord(
    toolName: string,
    toolSymbol: Option<string>,
    toolFile: Option<string>,
    handlerSymbol: Option<string>,
    handlerFile: Option<string>,
    inListTools: bool,
    inManifest: bool,
    inputSchema: Option<InputSchema>)

  function ForwardSlash(c: char): char {
    if c == '\\' then '/' else c
  }

  /** `formatPath(filePath)`: empty for a missing or empty path, otherwise
      the path relative to the working directory (`relative`) with every
      backslash turned into a slash. */
  function FormatPath(filePath: Option<string>, relative: string -> string): (r: string)
    ensures '\\' !in r
    ensures (filePath.None? || filePath.value == []) ==> r == []
  {
    if filePath.None? || filePath.value == [] then "" else Map(relative(filePath.value), ForwardSlash)
  }

  function YesNo(b: bool): string {
    if b then "yes" else "no"
  }

  /** The eight cells of a record's row, in column order. */
  function Cells(r: ToolRecord, relative: string -> string): seq<string> {
    [r.toolName, r.toolSymbol.GetOr(""), r.handlerSymbol.GetOr(""),
     FormatPath(r.toolFile, relative), FormatPath(r.handlerFile, relative),
     YesNo(r.inListTools), YesNo(r.inManifest),
     if r.inputSchema.Some? then SchemaName(r.inputSchema.value) else ""]
  }

  function Pad(cell: string): string {
    " " + cell + " "
  }

  /** `| a | b | ... |`. */
  function Row(cells: seq<string>): string {
    "|" + Join(Map(cells, Pad), "|") + "|"
  }

  function RecordRow(r: ToolRecord, relative: string -> string): string {
    Row(Cells(r, relative))
  }

  function Rows(records: seq<ToolRecord>, relative: string -> string): (rows: seq<string>)
    ensures |rows| == |records|
    ensures forall i :: 0 <= i < |records| ==> rows[i] == RecordRow(records[i], relative)
    decreases |records|
  {
    if records == [] then []
    else Rows(records[..|records| - 1], relative) + [RecordRow(records[|records| - 1], relative)]
  }

  const TITLE: string := "# Phase 2 Tool Inventory"
  const TABLE_HEADER: string := "| Tool Name | Tool Symbol | Handler | Tool File | Handler File | In ListTools | In Manifest | Input Schema |"
  const TABLE_RULE: string := "|---|---|---|---|---|---|---|---|"
  const NOTE_PARSED: string := "- Tool symbols and handlers are parsed from source and may require manual verification for edge cases."
  const NOTE_PLANS: string := "- `planManagementTools` is expanded heuristically based on tool name patterns."

  function Head(count: nat, generatedAt: string): seq<string> {
    [TITLE, "", "Generated: " + generatedAt, "", "Total tools discovered: " + NatToString(count), "",
     TABLE_HEADER, TABLE_RULE]
  }

  function Notes(): seq<string> {
    ["", "Notes:", NOTE_PARSED, NOTE_PLANS, ""]
  }

  /** The lines of the inventory document. */
  function MarkdownLines(records: seq<ToolRecord>, generatedAt: string, relative: string -> string): seq<string> {
    Head(|records|, generatedAt) + Rows(records, relative) + Notes()
  }

  /** `renderMarkdown(records)`, with the ISO time stamp `generatedAt`
      supplied by the caller. */
  method RenderMarkdown(records: seq<ToolRecord>, generatedAt: string, relative: string -> string)
    returns (markdown: string)
    ensures markdown == Join(MarkdownLines(records, generatedAt, relative), "\n")
  {
    var lines: seq<string> := [TITLE, "", "Generated: " + generatedAt, "",
      "Total tools discovered: " + NatToString(|records|), "", TABLE_HEADER, TABLE_RULE];
    for i := 0 to |records|
      invariant lines == Head(|records|, generatedAt) + Rows(records[..i], relative)
    {
      assert records[..i + 1][..i] == records[..i];
      lines := lines + [RecordRow(records[i], relative)];
    }
    assert records[..|records|] == records;
    lines := lines + ["", "Notes:", NOTE_PARSED, NOTE_PLANS, ""];
    markdown := Join(lines, "\n");
  }

  /** The document is the eight head lines (title, time stamp, record
      count, table head), then one row per record in order, then the notes. */
  lemma MarkdownShape(records: seq<ToolRecord>, generatedAt: string, relative: string -> string)
    ensures var lines := MarkdownLines(records, generatedAt, relative);
      |lines| == |records| + 13 &&
      lines[..8] == Head(|records|, generatedAt) &&
      lines[8..8 + |records|] == Rows(records, relative) &&
      lines[8 + |records|..] == Notes()
  {
    var head := Head(|records|, generatedAt);
    var rows := Rows(records, relative);
    assert |head| == 8;
    var lines := head + rows + Notes();
    assert lines[..8] == head;
    assert lines[8..8 + |records|] == rows;
    assert lines[8 + |records|..] == Notes();
  }

  /** The third line carries the time stamp and the fifth the number of
      records, written in decimal. */
  lemma MarkdownCount(records: seq<ToolRecord>, generatedAt: string, relative: string -> string)
    ensures MarkdownLines(records, generatedAt, relative)[2] == "Generated: " + generatedAt
    ensures var line := MarkdownLines(records, generatedAt, relative)[4];
      line == "Total tools discovered: " + NatToString(|records|) &&
      |line| > 24 && AllDigits(line[24..]) && DigitsValue(line[24..]) == |records|
  {
    var line := MarkdownLines(records, generatedAt, relative)[4];
    assert line[24..] == NatToString(|records|);
    DigitsValueOfNatToString(|records|);
  }

  /** A row splits on `|` into its padded cells, between two empty ends,
      when no cell holds a `|`. */
  lemma RowSplit(cells: seq<string>)
    requires cells != []
    requires forall i :: 0 <= i < |cells| ==> '|' !in cells[i]
    ensures Split(Row(cells), '|') == [""] + Map(cells, Pad) + [""]
  {
    var p := Map(cells, Pad);
    var parts := [""] + p + [""];
    assert ([""] + p)[1..] == p;
    assert Join([""] + p, "|") == "" + "|" + Join(p, "|");
    JoinAppendOne([""] + p, "", "|");
    assert Join(parts, "|") == Row(cells);
    forall i | 0 <= i < |parts|
      ensures '|' !in parts[i]
    {
      if 0 < i < |parts| - 1 {
        assert parts[i] == Pad(cells[i - 1]);
      }
    }
    SplitJoin(parts, '|');
  }

  lemma TrimPad(cell: string)
    requires Unpadded(cell)
    ensures Trim(Pad(cell)) == cell
  {
    var s := Pad(cell);
    if cell == [] {
      assert SpacesEnd(s, 0) == 2;
    } else {
      assert s[1] == cell[0];
      assert SpacesEnd(s, 1) == 1;
      assert SpacesEnd(s, 0) == 1;
      assert s[|s| - 2] == cell[|cell| - 1];
      assert SpacesStart(s, 1, |s| - 1) == |s| - 1;
      assert SpacesStart(s, 1, |s|) == |s| - 1;
      assert s[1..|s| - 1] == cell;
    }
  }

  /** A record's row read back by splitting on `|` and trimming gives its
      cells, when no cell holds a `|` or starts or ends with a space. */
  lemma RecordRowCells(r: ToolRecord, relative: string -> string)
    requires forall i :: 0 <= i < 8 ==> '|' !in Cells(r, relative)[i] && Unpadded(Cells(r, relative)[i])
    ensures var parts := Split(RecordRow(r, relative), '|');
      |parts| == 10 && parts[0] == "" && parts[9] == "" &&
      forall i :: 0 <= i < 8 ==> Trim(parts[i + 1]) == Cells(r, relative)[i]
  {
    var cells := Cells(r, relative);
    assert |cells| == 8;
    RowSplit(cells);
    var parts := Split(RecordRow(r, relative), '|');
    assert parts == [""] + Map(cells, Pad) + [""];
    assert |parts| == 10;
    forall i | 0 <= i < 8
      ensures Trim(Split(RecordRow(r, relative), '|')[i + 1]) == cells[i]
    {
      TrimPad(cells[i]);
    }
  }
}
