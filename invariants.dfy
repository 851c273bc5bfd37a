/** Project invariants: the `ReviewInvariant` record, the validation filter
    that turns parsed policy records into invariants (`normalizeInvariant`)
    and the section loop of `loadInvariantsConfig`. The YAML text is
    already parsed: policy records arrive as a `Json` value. */
module Invariants {
  import opened Wrappers
  import opened Seqs

  /** A parsed YAML/JSON value. A mapping keeps its entries in document
      order; YAML rejects duplicate keys, so a key is looked up by its
      first entry. */
  datatype Json =
    | JNull
    | JBool(b: bool)
    | JNum(n: real)
    | JStr(s: string)
    | JArr(items: seq<Json>)
    | JObj(fields: seq<(string, Json)>)

  type Fields = seq<(string, Json)>

  /** `isObject`: a non-null, non-array object. */
  predicate IsObject(v: Json) {
    v.JObj?
  }

  /** The value of `key`, or `None` when the mapping has no such key. */
  function Get(fields: Fields, key: string): Option<Json> {
    if fields == [] then None
    else if fields[0].0 == key then Some(fields[0].1)
    else Get(fields[1..], key)
  }

  /** `typeof raw[key] === 'string' ? raw[key] : undefined`. */
  function StrField(fields: Fields, key: string): Option<string> {
    match Get(fields, key)
    case Some(JStr(s)) => Some(s)
    case _ => None
  }

  /** `isObject(raw[key]) ? raw[key] : undefined`. */
  function ObjField(fields: Fields, key: string): Option<Fields> {
    match Get(fields, key)
    case Some(JObj(fs)) => Some(fs)
    case _ => None
  }

  /** The string elements of an array, in order (`filter(p => typeof p === 'string')`). */
  function Strings(items: seq<Json>): (r: seq<string>)
    ensures |r| <= |items|
  {
    if items == [] then []
    else (if items[0].JStr? then [items[0].s] else []) + Strings(items[1..])
  }

  /** The action names the evaluator knows. */
  const Actions: seq<string> := ["deny", "require", "when_require"]

  /** A policy record that passed validation. `action` is kept whatever its
      text; `when`, `require` and `deny` are the mappings given for them. */
  datatype ReviewInvariant = ReviewInvariant(
    id: string,
    rule: string,
    paths: seq<string>,
    severity: string,
    category: string,
    action: Option<string>,
    when: Option<Fields>,
    require: Option<Fields>,
    deny: Option<Fields>)

  /** What validation guarantees: the four text fields are non-empty and
      there is at least one path pattern. */
  predicate WellFormed(inv: ReviewInvariant) {
    inv.id != "" && inv.rule != "" && |inv.paths| > 0 && inv.severity != "" && inv.category != ""
  }

  /** The non-empty string stored under `key`. */
  function NonEmptyStr(fields: Fields, key: string): Option<string> {
    var v := StrField(fields, key);
    if v.Some? && v.value != "" then v else None
  }

  /** The string elements of the `paths` array, or `None` when `paths` is not an array. */
  function PathStrings(fields: Fields): Option<seq<string>> {
    match Get(fields, "paths")
    case Some(JArr(items)) => Some(Strings(items))
    case _ => None
  }

  /** `normalizeInvariant`: `None` unless the record is a mapping whose id,
      rule, severity and category are non-empty strings and whose `paths`
      array holds at least one string. */
  function NormalizeInvariant(raw: Json): (r: Option<ReviewInvariant>)
    ensures r.Some? ==> WellFormed(r.value)
  {
    if !raw.JObj? then None
    else
      var f := raw.fields;
      var id := NonEmptyStr(f, "id");
      var rule := NonEmptyStr(f, "rule");
      var paths := PathStrings(f);
      var severity := NonEmptyStr(f, "severity");
      var category := NonEmptyStr(f, "category");
      if id.None? || rule.None? || paths.None? || |paths.value| == 0 || severity.None? || category.None? then None
      else Some(ReviewInvariant(id.value, rule.value, paths.value, severity.value, category.value,
        StrField(f, "action"), ObjField(f, "when"), ObjField(f, "require"), ObjField(f, "deny")))
  }

  /** The string elements of an array are a subsequence of it: non-strings
      are dropped, strings are kept in order. */
  lemma {:induction false} StringsCorrect(items: seq<Json>)
    ensures forall s :: s in Strings(items) <==> JStr(s) in items
    ensures IsSubseq(Map(Strings(items), StrJson), items)
  {
    if items != [] {
      StringsCorrect(items[1..]);
      var rest := Strings(items[1..]);
      if items[0].JStr? {
        assert Map(Strings(items), StrJson) == [items[0]] + Map(rest, StrJson);
        assert Map(Strings(items), StrJson)[1..] == Map(rest, StrJson);
      } else {
        assert Map(Strings(items), StrJson) == Map(rest, StrJson);
        if Map(rest, StrJson) != [] {
          assert Map(rest, StrJson)[0] != items[0];
        }
      }
      assert items == [items[0]] + items[1..];
    } else {
      SubseqEmpty(items);
    }
  }

  function StrJson(s: string): Json {
    JStr(s)
  }

  function OptEntry(key: string, v: Option<Json>): Fields {
    if v.Some? then [(key, v.value)] else []
  }

  function OptObj(o: Option<Fields>): Option<Json> {
    if o.Some? then Some(JObj(o.value)) else None
  }

  function OptStr(o: Option<string>): Option<Json> {
    if o.Some? then Some(JStr(o.value)) else None
  }

  /** The optional entries of an encoded record. */
  function EncodeTail(inv: ReviewInvariant): Fields {
    OptEntry("action", OptStr(inv.action)) + (OptEntry("when", OptObj(inv.when)) +
    (OptEntry("require", OptObj(inv.require)) + (OptEntry("deny", OptObj(inv.deny)) + [])))
  }

  /** The first five entries of an encoded record. */
  function Head(inv: ReviewInvariant, tail: Fields): Fields {
    [("id", JStr(inv.id))] + ([("rule", JStr(inv.rule))] + ([("paths", JArr(Map(inv.paths, StrJson)))] +
    ([("severity", JStr(inv.severity))] + ([("category", JStr(inv.category))] + tail))))
  }

  /** The policy record an invariant is written as: the five required
      entries, then the optional ones that are present. */
  function Encode(inv: ReviewInvariant): Json {
    JObj(Head(inv, EncodeTail(inv)))
  }

  lemma {:induction false} StringsOfStrings(paths: seq<string>)
    ensures Strings(Map(paths, StrJson)) == paths
  {
    if paths != [] {
      assert Map(paths, StrJson)[1..] == Map(paths[1..], StrJson);
      StringsOfStrings(paths[1..]);
      assert paths == [paths[0]] + paths[1..];
    }
  }

  lemma GetCons(k: string, v: Json, rest: Fields, key: string)
    ensures Get([(k, v)] + rest, key) == if k == key then Some(v) else Get(rest, key)
  {
    assert ([(k, v)] + rest)[1..] == rest;
  }

  lemma GetOpt(k: string, v: Option<Json>, rest: Fields, key: string)
    ensures Get(OptEntry(k, v) + rest, key) == if k == key && v.Some? then v else Get(rest, key)
  {
    if v.Some? {
      GetCons(k, v.value, rest, key);
    } else {
      assert OptEntry(k, v) + rest == rest;
    }
  }

  /** Keys that differ in their first character differ. */
  lemma KeysDiffer(a: string, b: string)
    requires |a| > 0 && |b| > 0 && a[0] != b[0]
    ensures a != b
  {
  }

  /** The keys of the optional entries are not required keys. */
  lemma OptionalKeysNotRequired(key: string)
    requires key in ["action", "when", "require", "deny"]
    ensures key !in ["id", "rule", "paths", "severity", "category"]
  {
    assert "require"[1] != "rule"[1];
  }

  /** Each optional entry of an encoded record is found under its key. */
  lemma EncodeTailLookups(inv: ReviewInvariant)
    ensures Get(EncodeTail(inv), "action") == OptStr(inv.action)
    ensures Get(EncodeTail(inv), "when") == OptObj(inv.when)
    ensures Get(EncodeTail(inv), "require") == OptObj(inv.require)
    ensures Get(EncodeTail(inv), "deny") == OptObj(inv.deny)
  {
    var a, w, r, d := OptStr(inv.action), OptObj(inv.when), OptObj(inv.require), OptObj(inv.deny);
    var dt := OptEntry("deny", d) + [];
    var rt := OptEntry("require", r) + dt;
    var wt := OptEntry("when", w) + rt;
    KeysDiffer("action", "when");
    KeysDiffer("action", "require");
    KeysDiffer("action", "deny");
    KeysDiffer("when", "require");
    KeysDiffer("when", "deny");
    KeysDiffer("require", "deny");
    forall key | key in ["action", "when", "require", "deny"]
      ensures Get(EncodeTail(inv), key) == Get(OptEntry("action", a) + wt, key)
    {
    }
    GetOpt("deny", d, [], "deny");
    GetOpt("deny", d, [], "require");
    GetOpt("deny", d, [], "when");
    GetOpt("deny", d, [], "action");
    GetOpt("require", r, dt, "deny");
    GetOpt("require", r, dt, "require");
    GetOpt("require", r, dt, "when");
    GetOpt("require", r, dt, "action");
    GetOpt("when", w, rt, "deny");
    GetOpt("when", w, rt, "require");
    GetOpt("when", w, rt, "when");
    GetOpt("when", w, rt, "action");
    GetOpt("action", a, wt, "deny");
    GetOpt("action", a, wt, "require");
    GetOpt("action", a, wt, "when");
    GetOpt("action", a, wt, "action");
  }

  /** Each required entry of an encoded record is found under its key. */
  lemma EncodeHeadLookups(inv: ReviewInvariant, tail: Fields)
    ensures var f := Head(inv, tail);
      Get(f, "id") == Some(JStr(inv.id)) && Get(f, "rule") == Some(JStr(inv.rule)) &&
      Get(f, "paths") == Some(JArr(Map(inv.paths, StrJson))) &&
      Get(f, "severity") == Some(JStr(inv.severity)) && Get(f, "category") == Some(JStr(inv.category))
  {
    var t5 := [("category", JStr(inv.category))] + tail;
    var t4 := [("severity", JStr(inv.severity))] + t5;
    var t3 := [("paths", JArr(Map(inv.paths, StrJson)))] + t4;
    var t2 := [("rule", JStr(inv.rule))] + t3;
    KeysDiffer("id", "rule");
    KeysDiffer("id", "paths");
    KeysDiffer("id", "severity");
    KeysDiffer("id", "category");
    KeysDiffer("rule", "paths");
    KeysDiffer("rule", "severity");
    KeysDiffer("rule", "category");
    KeysDiffer("paths", "severity");
    KeysDiffer("paths", "category");
    KeysDiffer("severity", "category");
    GetCons("id", JStr(inv.id), t2, "id");
    GetCons("id", JStr(inv.id), t2, "rule");
    GetCons("rule", JStr(inv.rule), t3, "rule");
    GetCons("id", JStr(inv.id), t2, "paths");
    GetCons("rule", JStr(inv.rule), t3, "paths");
    GetCons("paths", JArr(Map(inv.paths, StrJson)), t4, "paths");
    GetCons("id", JStr(inv.id), t2, "severity");
    GetCons("rule", JStr(inv.rule), t3, "severity");
    GetCons("paths", JArr(Map(inv.paths, StrJson)), t4, "severity");
    GetCons("severity", JStr(inv.severity), t5, "severity");
    GetCons("id", JStr(inv.id), t2, "category");
    GetCons("rule", JStr(inv.rule), t3, "category");
    GetCons("paths", JArr(Map(inv.paths, StrJson)), t4, "category");
    GetCons("severity", JStr(inv.severity), t5, "category");
    GetCons("category", JStr(inv.category), tail, "category");
  }

  /** Any other key is looked up past the five required entries. */
  lemma HeadSkipped(inv: ReviewInvariant, tail: Fields, key: string)
    requires key !in ["id", "rule", "paths", "severity", "category"]
    ensures Get(Head(inv, tail), key) == Get(tail, key)
  {
    var t5 := [("category", JStr(inv.category))] + tail;
    var t4 := [("severity", JStr(inv.severity))] + t5;
    var t3 := [("paths", JArr(Map(inv.paths, StrJson)))] + t4;
    var t2 := [("rule", JStr(inv.rule))] + t3;
    GetCons("id", JStr(inv.id), t2, key);
    GetCons("rule", JStr(inv.rule), t3, key);
    GetCons("paths", JArr(Map(inv.paths, StrJson)), t4, key);
    GetCons("severity", JStr(inv.severity), t5, key);
    GetCons("category", JStr(inv.category), tail, key);
  }

  /** What the validation filter reads from an encoded record. */
  lemma EncodeReadBack(inv: ReviewInvariant)
    requires WellFormed(inv)
    ensures var f := Encode(inv).fields;
      NonEmptyStr(f, "id") == Some(inv.id) && NonEmptyStr(f, "rule") == Some(inv.rule) &&
      PathStrings(f) == Some(inv.paths) &&
      NonEmptyStr(f, "severity") == Some(inv.severity) && NonEmptyStr(f, "category") == Some(inv.category) &&
      StrField(f, "action") == inv.action && ObjField(f, "when") == inv.when &&
      ObjField(f, "require") == inv.require && ObjField(f, "deny") == inv.deny
  {
    var tail := EncodeTail(inv);
    var f := Encode(inv).fields;
    assert f == Head(inv, tail);
    assert NonEmptyStr(f, "id") == Some(inv.id) && NonEmptyStr(f, "rule") == Some(inv.rule) &&
      NonEmptyStr(f, "severity") == Some(inv.severity) && NonEmptyStr(f, "category") == Some(inv.category) by {
      EncodeHeadLookups(inv, tail);
    }
    assert PathStrings(f) == Some(inv.paths) by {
      EncodeHeadLookups(inv, tail);
      StringsOfStrings(inv.paths);
    }
    EncodeTailLookups(inv);
    assert StrField(f, "action") == inv.action by { OptionalKeysNotRequired("action"); HeadSkipped(inv, tail, "action"); }
    assert ObjField(f, "when") == inv.when by { OptionalKeysNotRequired("when"); HeadSkipped(inv, tail, "when"); }
    assert ObjField(f, "require") == inv.require by { OptionalKeysNotRequired("require"); HeadSkipped(inv, tail, "require"); }
    assert ObjField(f, "deny") == inv.deny by { OptionalKeysNotRequired("deny"); HeadSkipped(inv, tail, "deny"); }
  }

  /** Normalizing the record of a well-formed invariant gives the invariant back. */
  lemma NormalizeEncode(inv: ReviewInvariant)
    requires WellFormed(inv)
    ensures NormalizeInvariant(Encode(inv)) == Some(inv)
  {
    EncodeReadBack(inv);
  }

  /** Validation is idempotent: a record rebuilt from an accepted invariant
      is accepted as the same invariant. */
  lemma NormalizeIdempotent(raw: Json)
    requires NormalizeInvariant(raw).Some?
    ensures NormalizeInvariant(Encode(NormalizeInvariant(raw).value)) == NormalizeInvariant(raw)
  {
    NormalizeEncode(NormalizeInvariant(raw).value);
  }

  /** When a record is kept, and what a kept invariant holds: the record's own
      strings, its string paths in order, the action only when it is a
      string, and each of when/require/deny only when it is a mapping. */
  lemma NormalizeFields(raw: Json)
    ensures NormalizeInvariant(raw).Some? <==>
      raw.JObj? &&
      StrField(raw.fields, "id").Some? && StrField(raw.fields, "id").value != "" &&
      StrField(raw.fields, "rule").Some? && StrField(raw.fields, "rule").value != "" &&
      StrField(raw.fields, "severity").Some? && StrField(raw.fields, "severity").value != "" &&
      StrField(raw.fields, "category").Some? && StrField(raw.fields, "category").value != "" &&
      exists items :: Get(raw.fields, "paths") == Some(JArr(items)) && exists s :: JStr(s) in items
    ensures NormalizeInvariant(raw).Some? ==>
      var inv := NormalizeInvariant(raw).value;
      Get(raw.fields, "id") == Some(JStr(inv.id)) && Get(raw.fields, "rule") == Some(JStr(inv.rule)) &&
      Get(raw.fields, "severity") == Some(JStr(inv.severity)) && Get(raw.fields, "category") == Some(JStr(inv.category)) &&
      Get(raw.fields, "paths") == Some(JArr(Get(raw.fields, "paths").value.items)) &&
      inv.paths == Strings(Get(raw.fields, "paths").value.items) &&
      (inv.action.Some? <==> exists s :: Get(raw.fields, "action") == Some(JStr(s))) &&
      (inv.when.Some? <==> Get(raw.fields, "when").Some? && IsObject(Get(raw.fields, "when").value)) &&
      (inv.require.Some? <==> Get(raw.fields, "require").Some? && IsObject(Get(raw.fields, "require").value)) &&
      (inv.deny.Some? <==> Get(raw.fields, "deny").Some? && IsObject(Get(raw.fields, "deny").value))
  {
    if raw.JObj? {
      match Get(raw.fields, "paths")
      case Some(JArr(items)) =>
        StringsCorrect(items);
        if |Strings(items)| > 0 {
          assert JStr(Strings(items)[0]) in items;
        }
        if exists s :: JStr(s) in items {
          var s :| JStr(s) in items;
          assert s in Strings(items);
        }
      case _ =>
    }
  }
  /** The invariant an entry validates to, as a list of zero or one. */
  function NormalizeOne(entry: Json): seq<ReviewInvariant> {
    match NormalizeInvariant(entry)
    case Some(inv) => [inv]
    case None => []
  }

  /** The invariants of one section: its valid entries, in order. */
  function NormalizeAll(entries: seq<Json>): (r: seq<ReviewInvariant>)
    ensures forall i :: 0 <= i < |r| ==> WellFormed(r[i])
  {
    if entries == [] then [] else NormalizeOne(entries[0]) + NormalizeAll(entries[1..])
  }

  lemma {:induction false} NormalizeAllAppend(a: seq<Json>, b: seq<Json>)
    ensures NormalizeAll(a + b) == NormalizeAll(a) + NormalizeAll(b)
  {
    if a == [] {
      assert a + b == b;
    } else {
      assert (a + b)[1..] == a[1..] + b;
      NormalizeAllAppend(a[1..], b);
    }
  }

  predicate Valid(entry: Json) {
    NormalizeInvariant(entry).Some?
  }

  function Validated(entry: Json): ReviewInvariant
    requires Valid(entry)
  {
    NormalizeInvariant(entry).value
  }

  function ValidatedOr(entry: Json): ReviewInvariant {
    if Valid(entry) then Validated(entry) else ReviewInvariant("", "", [], "", "", None, None, None, None)
  }

  /** A section's invariants are its valid entries, kept in order and then
      validated: invalid entries are dropped, nothing is reordered. */
  lemma {:induction false} NormalizeAllIsFilterMap(entries: seq<Json>)
    ensures NormalizeAll(entries) == Map(Filter(entries, Valid), ValidatedOr)
  {
    if entries != [] {
      NormalizeAllIsFilterMap(entries[1..]);
      var rest := Filter(entries[1..], Valid);
      if Valid(entries[0]) {
        assert Filter(entries, Valid) == [entries[0]] + rest;
        assert Map([entries[0]] + rest, ValidatedOr) == [ValidatedOr(entries[0])] + Map(rest, ValidatedOr);
      } else {
        assert Filter(entries, Valid) == rest;
      }
    }
  }

  /** Sections in document order, each with its non-empty list of invariants. */
  type Config = seq<(string, seq<ReviewInvariant>)>

  /** The sections a mapping loads to: the array-valued entries with at least
      one valid invariant, in document order. */
  function LoadSections(fields: Fields): Config {
    if fields == [] then []
    else
      var value := fields[0].1;
      (if value.JArr? && NormalizeAll(value.items) != [] then [(fields[0].0, NormalizeAll(value.items))] else []) +
      LoadSections(fields[1..])
  }

  lemma {:induction false} LoadSectionsAppend(a: Fields, b: Fields)
    ensures LoadSections(a + b) == LoadSections(a) + LoadSections(b)
  {
    if a == [] {
      assert a + b == b;
    } else {
      assert (a + b)[1..] == a[1..] + b;
      LoadSectionsAppend(a[1..], b);
    }
  }

  lemma LoadSectionsSnoc(fields: Fields, i: nat)
    requires i < |fields|
    ensures var value := fields[i].1;
      LoadSections(fields[..i + 1]) == LoadSections(fields[..i]) +
        if value.JArr? && NormalizeAll(value.items) != [] then [(fields[i].0, NormalizeAll(value.items))] else []
  {
    LoadSectionsAppend(fields[..i], [fields[i]]);
    PrefixSnoc(fields, i);
  }

  /** The inner loop of `loadInvariantsConfig`: validate each entry of a
      section and keep the ones that pass. */
  method NormalizeSection(entries: seq<Json>) returns (invariants: seq<ReviewInvariant>)
    ensures invariants == NormalizeAll(entries)
  {
    invariants := [];
    for j := 0 to |entries|
      invariant invariants == NormalizeAll(entries[..j])
    {
      NormalizeAllAppend(entries[..j], [entries[j]]);
      PrefixSnoc(entries, j);
      var inv := NormalizeInvariant(entries[j]);
      if inv.Some? {
        invariants := invariants + [inv.value];
      }
    }
    assert entries[..|entries|] == entries;
  }

  /** `loadInvariantsConfig` after parsing: a non-mapping is an error; otherwise
      each array-valued section is validated entry by entry and kept when
      something survives. */
  method LoadInvariantsConfig(parsed: Json) returns (r: Result<Config, string>)
    ensures !IsObject(parsed) ==> r == Err("Invalid invariants config: expected a mapping object")
    ensures IsObject(parsed) ==> r == Ok(LoadSections(parsed.fields))
  {
    if !IsObject(parsed) {
      return Err("Invalid invariants config: expected a mapping object");
    }
    var fields := parsed.fields;
    var config: Config := [];
    for i := 0 to |fields|
      invariant config == LoadSections(fields[..i])
    {
      var section := fields[i].0;
      var value := fields[i].1;
      LoadSectionsSnoc(fields, i);
      if value.JArr? {
        var invariants := NormalizeSection(value.items);
        if |invariants| > 0 {
          config := config + [(section, invariants)];
        }
      }
    }
    assert fields[..|fields|] == fields;
    return Ok(config);
  }

  /** Every loaded section comes from an array-valued entry of the mapping
      and holds exactly that entry's valid invariants, and there is at least one. */
  lemma {:induction false} LoadSectionsSound(fields: Fields, k: nat)
    requires k < |LoadSections(fields)|
    ensures LoadSections(fields)[k].1 != []
    ensures exists i :: (0 <= i < |fields| && fields[i].0 == LoadSections(fields)[k].0 &&
      fields[i].1.JArr? && LoadSections(fields)[k].1 == NormalizeAll(fields[i].1.items))
  {
    var rest := LoadSections(fields[1..]);
    var head := if fields[0].1.JArr? && NormalizeAll(fields[0].1.items) != [] then [(fields[0].0, NormalizeAll(fields[0].1.items))] else [];
    assert LoadSections(fields) == head + rest;
    if k < |head| {
      assert LoadSections(fields)[k] == head[0];
      assert fields[0].0 == LoadSections(fields)[k].0;
    } else {
      assert LoadSections(fields)[k] == rest[k - |head|];
      LoadSectionsSound(fields[1..], k - |head|);
      var i :| 0 <= i < |fields[1..]| && fields[1..][i].0 == rest[k - |head|].0 &&
        fields[1..][i].1.JArr? && rest[k - |head|].1 == NormalizeAll(fields[1..][i].1.items);
      assert fields[i + 1] == fields[1..][i];
    }
  }

  /** Every array-valued entry with a valid invariant is loaded. */
  lemma {:induction false} LoadSectionsComplete(fields: Fields, i: nat)
    requires i < |fields| && fields[i].1.JArr? && NormalizeAll(fields[i].1.items) != []
    ensures (fields[i].0, NormalizeAll(fields[i].1.items)) in LoadSections(fields)
  {
    var rest := LoadSections(fields[1..]);
    var head := if fields[0].1.JArr? && NormalizeAll(fields[0].1.items) != [] then [(fields[0].0, NormalizeAll(fields[0].1.items))] else [];
    assert LoadSections(fields) == head + rest;
    if i > 0 {
      assert fields[1..][i - 1] == fields[i];
      LoadSectionsComplete(fields[1..], i - 1);
    }
  }

  /** Loaded sections keep document order: they are a subsequence of the
      sections every entry would load to. */
  lemma {:induction false} LoadSectionsOrdered(fields: Fields)
    ensures IsSubseq(LoadSections(fields), Map(fields, SectionOf))
  {
    if fields != [] {
      LoadSectionsOrdered(fields[1..]);
      var rest := LoadSections(fields[1..]);
      var head := if fields[0].1.JArr? && NormalizeAll(fields[0].1.items) != [] then [(fields[0].0, NormalizeAll(fields[0].1.items))] else [];
      assert LoadSections(fields) == head + rest;
      var m := Map(fields, SectionOf);
      assert m[1..] == Map(fields[1..], SectionOf);
      if head != [] {
        assert head[0] == m[0];
        assert (head + rest)[1..] == rest;
      } else {
        assert head + rest == rest;
      }
    } else {
      SubseqEmpty(Map(fields, SectionOf));
    }
  }

  /** The section an entry would load to, whether or not it is kept. */
  function SectionOf(entry: (string, Json)): (string, seq<ReviewInvariant>) {
    (entry.0, if entry.1.JArr? then NormalizeAll(entry.1.items) else [])
  }
}
