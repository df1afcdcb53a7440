/** `PivotalFilterHelper`: the `filter=` query parameter of a story search.
    A filter is `filter=<name>:<value>`; the list builders write every
    element followed by a comma. Extending a non-empty base filter gives
    `" <name>:<value>"` and leaves the base text out. */
module PivotalFilterHelper {
  import opened Base
  import opened Text
  import opened Enumerations

  /** `string.IsNullOrEmpty(s)`. */
  predicate IsNullOrEmpty(s: Option<string>)
  {
    s.None? || s.value == ""
  }

  /** `ConstructFilter(baseFilter, filterName, filterValue)`. */
  function ConstructFilter(baseFilter: Option<string>, filterName: string, filterValue: Option<string>)
    : (r: string)
    ensures IsNullOrEmpty(baseFilter) ==> |r| >= 7 && r[..7] == "filter="
    ensures !IsNullOrEmpty(baseFilter) ==> |r| >= 1 && r[0] == ' '
    ensures ':' in r
  {
    var prefix := if IsNullOrEmpty(baseFilter) then "filter=" else " ";
    prefix + filterName + ":" + OrEmpty(filterValue)
  }

  /** The name and value of a filter text `filter=<name>:<value>` whose name
      is the text up to the first colon. */
  function FilterParts(f: string): Option<(string, string)>
  {
    if |f| < 7 || f[..7] != "filter=" then None
    else
      var body := f[7..];
      match FirstIndexOf(body, ':')
      case None => None
      case Some(k) => Some((body[..k], body[k + 1..]))
  }

  function FirstIndexOf(s: string, c: char): (r: Option<nat>)
    ensures r.Some? ==> r.value < |s| && s[r.value] == c && c !in s[..r.value]
    ensures r.None? ==> c !in s
  {
    if s == [] then None
    else if s[0] == c then Some(0)
    else match FirstIndexOf(s[1..], c)
      case Some(k) =>
        assert s[..k + 1] == [s[0]] + s[1..][..k];
        Some(k + 1)
      case None => None
  }

  // ---------------------------------------------------------------------
  // Single-value builders
  // ---------------------------------------------------------------------

  /** `BuildLabelFilter(string label, baseFilter)`. */
  function BuildLabelFilter(labelText: Option<string>, baseFilter: Option<string>): (r: string)
    ensures IsNullOrEmpty(baseFilter) ==> FilterParts(r) == Some(("label", OrEmpty(labelText)))
  {
    FilterPartsOfConstruct(baseFilter, "label", labelText);
    ConstructFilter(baseFilter, "label", labelText)
  }

  /** `BuildStoryTypeFilter(storyType, baseFilter)`: the enum's name as the value. */
  function BuildStoryTypeFilter(storyType: PivotalStoryType, baseFilter: Option<string>): (r: string)
    ensures IsNullOrEmpty(baseFilter) ==> FilterParts(r) == Some(("type", StoryTypeName(storyType)))
  {
    FilterPartsOfConstruct(baseFilter, "type", Some(StoryTypeName(storyType)));
    ConstructFilter(baseFilter, "type", Some(StoryTypeName(storyType)))
  }

  /** `BuildStateFilter(string state, baseFilter)`. */
  function BuildStateFilter(state: Option<string>, baseFilter: Option<string>): (r: string)
    ensures IsNullOrEmpty(baseFilter) ==> FilterParts(r) == Some(("state", OrEmpty(state)))
  {
    FilterPartsOfConstruct(baseFilter, "state", state);
    ConstructFilter(baseFilter, "state", state)
  }

  /** `BuildExternalIdFilter(string id, baseFilter)`. */
  function BuildExternalIdFilter(id: Option<string>, baseFilter: Option<string>): (r: string)
    ensures IsNullOrEmpty(baseFilter) ==> FilterParts(r) == Some(("external_id", OrEmpty(id)))
  {
    FilterPartsOfConstruct(baseFilter, "external_id", id);
    ConstructFilter(baseFilter, "external_id", id)
  }

  // ---------------------------------------------------------------------
  // List builders
  // ---------------------------------------------------------------------

  /** The decimal form of every id, in order. */
  function Decimals(ids: seq<int>): (r: seq<string>)
    ensures |r| == |ids| && forall k :: 0 <= k < |ids| ==> r[k] == IntDecimal(ids[k])
  {
    if ids == [] then [] else [IntDecimal(ids[0])] + Decimals(ids[1..])
  }

  /** `BuildLabelFilter(IList<string> labels, baseFilter)`; a null list
      throws when the loop starts. */
  method BuildLabelListFilter(labels: Option<seq<string>>, baseFilter: Option<string>)
    returns (r: Result<string>)
    ensures labels.None? ==> r == Err(NullReference)
    ensures labels.Some? ==>
      r == Ok(ConstructFilter(baseFilter, "label", Some(JoinTrailing(labels.value, ','))))
  {
    if labels.None? {
      return Err(NullReference);
    }
    var labelString := AppendEach(labels.value, ',');
    return Ok(ConstructFilter(baseFilter, "label", Some(labelString)));
  }

  /** `BuildStateFilter(IList<string> states, baseFilter)`. */
  method BuildStateListFilter(states: Option<seq<string>>, baseFilter: Option<string>)
    returns (r: Result<string>)
    ensures states.None? ==> r == Err(NullReference)
    ensures states.Some? ==>
      r == Ok(ConstructFilter(baseFilter, "state", Some(JoinTrailing(states.value, ','))))
  {
    if states.None? {
      return Err(NullReference);
    }
    var statesString := AppendEach(states.value, ',');
    return Ok(ConstructFilter(baseFilter, "state", Some(statesString)));
  }

  /** `BuildIdFilter(IList<int> ids, baseFilter)`. */
  method BuildIdFilter(ids: Option<seq<int>>, baseFilter: Option<string>)
    returns (r: Result<string>)
    ensures ids.None? ==> r == Err(NullReference)
    ensures ids.Some? ==>
      r == Ok(ConstructFilter(baseFilter, "id", Some(JoinTrailing(Decimals(ids.value), ','))))
  {
    if ids.None? {
      return Err(NullReference);
    }
    var idString := AppendEach(Decimals(ids.value), ',');
    return Ok(ConstructFilter(baseFilter, "id", Some(idString)));
  }

  /** `BuildExternalIdFilter(IList<int> ids, baseFilter)`. */
  method BuildExternalIdListFilter(ids: Option<seq<int>>, baseFilter: Option<string>)
    returns (r: Result<string>)
    ensures ids.None? ==> r == Err(NullReference)
    ensures ids.Some? ==>
      r == Ok(ConstructFilter(baseFilter, "external_id", Some(JoinTrailing(Decimals(ids.value), ','))))
  {
    if ids.None? {
      return Err(NullReference);
    }
    var idString := AppendEach(Decimals(ids.value), ',');
    return Ok(ConstructFilter(baseFilter, "external_id", Some(idString)));
  }

  // ---------------------------------------------------------------------
  // Properties
  // ---------------------------------------------------------------------

  /** A filter built on an empty base reads back as its name and value. */
  lemma {:induction false} FilterPartsOfConstruct(baseFilter: Option<string>, filterName: string, filterValue: Option<string>)
    requires ':' !in filterName
    ensures IsNullOrEmpty(baseFilter) ==>
              FilterParts(ConstructFilter(baseFilter, filterName, filterValue)) == Some((filterName, OrEmpty(filterValue)))
  {
    if !IsNullOrEmpty(baseFilter) { return; }
    var f := ConstructFilter(baseFilter, filterName, filterValue);
    var body := filterName + ":" + OrEmpty(filterValue);
    assert f[7..] == body;
    assert body[..|filterName|] == filterName;
    assert body[|filterName| + 1..] == OrEmpty(filterValue);
    assert body[|filterName|] == ':';
    assert FirstIndexOf(body, ':') == Some(|filterName|) by {
      FirstIndexOfAt(body, ':', |filterName|);
    }
  }

  lemma {:induction false} FirstIndexOfAt(s: string, c: char, k: nat)
    requires k < |s| && s[k] == c && c !in s[..k]
    ensures FirstIndexOf(s, c) == Some(k)
  {
    if k > 0 {
      assert s[0] in s[..k];
      assert s[1..][..k - 1] == s[1..k];
      assert forall x :: x in s[1..k] ==> x in s[..k];
      FirstIndexOfAt(s[1..], c, k - 1);
    }
  }

  /** With a non-empty base the result is the same whatever the base says:
      the filter being extended is dropped. */
  lemma {:induction false} ConstructFilterDropsBase(b1: string, b2: string, filterName: string, filterValue: Option<string>)
    requires b1 != "" && b2 != ""
    ensures ConstructFilter(Some(b1), filterName, filterValue) ==
            ConstructFilter(Some(b2), filterName, filterValue)
    ensures ConstructFilter(Some(b1), filterName, filterValue) ==
            " " + filterName + ":" + OrEmpty(filterValue)
  {
  }

  /** `BuildStoryTypeFilter(bug, "")` is `filter=type:bug`. */
  lemma {:induction false} StoryTypeFilterOfBug()
    ensures BuildStoryTypeFilter(bug, Some("")) == "filter=type:bug"
  {
  }

  /** With an empty base the type filter is `filter=type:` and the type's name. */
  lemma {:induction false} StoryTypeFilterText(t: PivotalStoryType)
    ensures BuildStoryTypeFilter(t, Some("")) == "filter=type:" + StoryTypeName(t)
  {
    TypeFilterOfName(StoryTypeName(t));
  }

  lemma {:induction false} TypeFilterOfName(name: string)
    ensures ConstructFilter(Some(""), "type", Some(name)) == "filter=type:" + name
  {
    assert ConstructFilter(Some(""), "type", Some(name)) == "filter=" + "type" + ":" + name;
  }

  /** An empty label list gives `filter=label:`. */
  lemma {:induction false} EmptyLabelList()
    ensures ConstructFilter(None, "label", Some(JoinTrailing([], ','))) == "filter=label:"
  {
  }

  /** The value a list builder writes splits back into the elements and
      one empty piece after the trailing comma. */
  lemma {:induction false} ListValueSplits(items: seq<string>)
    requires forall k :: 0 <= k < |items| ==> ',' !in items[k]
    ensures Split(JoinTrailing(items, ','), ',') == items + [""]
  {
    SplitOfJoinTrailing(items, ',');
  }

  /** No decimal id contains a comma, so an id list splits back into its
      ids' decimal forms and one empty piece. */
  lemma {:induction false} IdListValueSplits(ids: seq<int>)
    ensures Split(JoinTrailing(Decimals(ids), ','), ',') == Decimals(ids) + [""]
  {
    var ds := Decimals(ids);
    forall k | 0 <= k < |ds| ensures ',' !in ds[k] {
      IntDecimalNoComma(ids[k]);
    }
    SplitOfJoinTrailing(ds, ',');
  }

}
