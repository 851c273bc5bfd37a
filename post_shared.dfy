/** The order-preserving filters of finding post-processing. */
module PostShared {
  import opened Wrappers
  import opened Seqs

  /** The items whose score reaches the threshold. */
  function AtLeast<T>(score: T -> real, threshold: real): T -> bool {
    x => score(x) >= threshold
  }

  /** `filterByThreshold`. */
  function FilterByThreshold<T>(items: seq<T>, score: T -> real, threshold: real): seq<T> {
    Filter(items, AtLeast(score, threshold))
  }

  /** The items whose value is listed. */
  function Listed<T>(value: T -> string, list: seq<string>): T -> bool {
    x => value(x) in list
  }

  /** `filterByAllowedValues`: no filtering without a non-empty allow list. */
  function FilterByAllowedValues<T>(items: seq<T>, value: T -> string, allowed: Option<seq<string>>): seq<T> {
    if allowed.None? || |allowed.value| == 0 then items
    else Filter(items, Listed(value, allowed.value))
  }

  /** The exclusion list without empty ids (`filter(Boolean)`). */
  function NonEmptyIds(ids: Option<seq<string>>): (r: seq<string>)
    ensures forall s :: s in r <==> ids.Some? && s in ids.value && s != ""
  {
    var list := if ids.Some? then ids.value else [];
    FilterMembers(list, s => s != "");
    Filter(list, s => s != "")
  }

  /** The items whose id is not listed. */
  function NotListed<T>(id: T -> string, list: seq<string>): T -> bool {
    x => id(x) !in list
  }

  /** `excludeById`. */
  function ExcludeById<T>(items: seq<T>, id: T -> string, exclude: Option<seq<string>>): seq<T> {
    var list := NonEmptyIds(exclude);
    if |list| == 0 then items else Filter(items, NotListed(id, list))
  }

  /** `limitToMax`: `items.slice(0, Math.max(0, max))`. */
  function LimitToMax<T>(items: seq<T>, max: int): (r: seq<T>)
    ensures |r| == if max <= 0 then 0 else if max < |items| then max else |items|
    ensures r == items[..|r|]
  {
    if max <= 0 then [] else if max < |items| then items[..max] else items
  }

  lemma ThresholdCorrect<T>(items: seq<T>, score: T -> real, threshold: real)
    ensures forall x :: x in FilterByThreshold(items, score, threshold) <==> x in items && score(x) >= threshold
    ensures IsSubseq(FilterByThreshold(items, score, threshold), items)
  {
    FilterMembers(items, AtLeast(score, threshold));
    FilterIsSubseq(items, AtLeast(score, threshold));
  }

  lemma AllowedValuesCorrect<T>(items: seq<T>, value: T -> string, allowed: Option<seq<string>>)
    ensures allowed.None? || allowed.value == [] ==> FilterByAllowedValues(items, value, allowed) == items
    ensures allowed.Some? && allowed.value != [] ==>
      forall x :: x in FilterByAllowedValues(items, value, allowed) <==> x in items && value(x) in allowed.value
    ensures IsSubseq(FilterByAllowedValues(items, value, allowed), items)
  {
    if allowed.Some? && allowed.value != [] {
      FilterMembers(items, Listed(value, allowed.value));
      FilterIsSubseq(items, Listed(value, allowed.value));
    } else {
      SubseqRefl(items);
    }
  }

  lemma ExcludeByIdCorrect<T>(items: seq<T>, id: T -> string, exclude: Option<seq<string>>)
    ensures (forall s :: exclude.Some? && s in exclude.value ==> s == "") ==> ExcludeById(items, id, exclude) == items
    ensures forall x :: x in ExcludeById(items, id, exclude) <==>
      x in items && !(exclude.Some? && id(x) in exclude.value && id(x) != "")
    ensures IsSubseq(ExcludeById(items, id, exclude), items)
  {
    var list := NonEmptyIds(exclude);
    if |list| == 0 {
      SubseqRefl(items);
      forall x | x in items ensures !(exclude.Some? && id(x) in exclude.value && id(x) != "") {
        assert id(x) !in list;
      }
    } else {
      assert list[0] in list;
      FilterMembers(items, NotListed(id, list));
      FilterIsSubseq(items, NotListed(id, list));
    }
  }

  lemma LimitToMaxSubseq<T>(items: seq<T>, max: int)
    ensures IsSubseq(LimitToMax(items, max), items)
  {
    PrefixIsSubseq(items, |LimitToMax(items, max)|);
  }
}
