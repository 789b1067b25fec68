/**
 * The tag picker: toggling a tag in the selection, adding a typed tag, and the
 * collapsed list of preset tags. The selection belongs to the caller, which
 * receives every new selection through `onChange`; the picker itself keeps
 * only the typed text and whether every preset is shown.
 */
module TagSelector {
  import opened JsBuiltins

  /** The cap when the caller gives none. */
  const DefaultMaxTags: nat := 10

  /** How many presets the collapsed list shows. */
  const CollapsedPresetCount: nat := 8

  /** `tags.filter(t => t !== tag)`: every other tag, in order. */
  function Without(tags: seq<string>, tag: string): (r: seq<string>)
    ensures tag !in r
    ensures forall t :: t in r <==> t in tags && t != tag
    ensures tag in tags ==> |r| < |tags|
    ensures tag !in tags ==> r == tags
  {
    if tags == [] then []
    else (if tags[0] == tag then [] else [tags[0]]) + Without(tags[1..], tag)
  }

  /** Removing from a concatenation removes from each part: the tags that
      remain keep their order. */
  lemma {:induction false} WithoutConcat(a: seq<string>, b: seq<string>, tag: string)
    ensures Without(a + b, tag) == Without(a, tag) + Without(b, tag)
  {
    if a != [] {
      assert (a + b)[1..] == a[1..] + b;
      WithoutConcat(a[1..], b, tag);
    } else {
      assert a + b == b;
    }
  }

  /** A single tag is dropped when it is the removed one and kept otherwise. */
  lemma WithoutSingle(t: string, tag: string)
    ensures Without([t], tag) == if t == tag then [] else [t]
  {
  }

  lemma {:induction false} WithoutDistinct(tags: seq<string>, tag: string)
    requires Distinct(tags)
    ensures Distinct(Without(tags, tag))
  {
    if tags != [] {
      WithoutDistinct(tags[1..], tag);
      assert tags[0] !in tags[1..];
    }
  }

  /** `handleTagClick`: the selection handed to `onChange`, or `None` when
      nothing is reported. A selected tag is removed (every copy of it); an
      unselected one is appended at the end while the cap has room. */
  function ToggleTag(selected: seq<string>, tag: string, maxTags: int): (r: Option<seq<string>>)
    ensures r.None? <==> tag !in selected && |selected| >= maxTags
    ensures r.Some? ==> (tag in r.value <==> tag !in selected)
    ensures r.Some? ==> forall t :: t != tag ==> (t in r.value <==> t in selected)
    ensures r.Some? && tag !in selected ==> |r.value| == |selected| + 1
    ensures r.Some? && tag !in selected ==> r.value[..|selected|] == selected && r.value[|selected|..] == [tag]
  {
    if tag in selected then Some(Without(selected, tag))
    else if |selected| >= maxTags then None
    else Some(selected + [tag])
  }

  /** What `handleAddCustomTag` does: the selection handed to `onChange`, if
      any, and whether the input box is cleared. */
  datatype CustomAdd = CustomAdd(change: Option<seq<string>>, clearInput: bool)

  /** `handleAddCustomTag` on the typed text: blank or already selected text is
      dropped and the box cleared; at the cap nothing happens, the text stays;
      otherwise the trimmed text is appended and the box cleared. */
  function AddCustomTag(selected: seq<string>, text: string, maxTags: int): (r: CustomAdd)
    ensures r.change.Some? <==> Trim(text) != "" && Trim(text) !in selected && |selected| < maxTags
    ensures r.change.Some? ==> r.change.value == selected + [Trim(text)]
    ensures r.clearInput <==> r.change.Some? || Trim(text) == "" || Trim(text) in selected
  {
    var tag := Trim(text);
    if tag == "" || tag in selected then CustomAdd(None, true)
    else if |selected| >= maxTags then CustomAdd(None, false)
    else CustomAdd(Some(selected + [tag]), true)
  }

  /** Neither way of adding a tag takes a selection within the cap past it. */
  lemma AddPathsRespectCap(selected: seq<string>, tag: string, text: string, maxTags: int)
    requires |selected| <= maxTags
    ensures ToggleTag(selected, tag, maxTags).Some? ==> |ToggleTag(selected, tag, maxTags).value| <= maxTags
    ensures AddCustomTag(selected, text, maxTags).change.Some? ==>
              |AddCustomTag(selected, text, maxTags).change.value| <= maxTags
  {
  }

  /** Neither way of changing the selection introduces a duplicate. */
  lemma ChangesKeepDistinct(selected: seq<string>, tag: string, text: string, maxTags: int)
    requires Distinct(selected)
    ensures ToggleTag(selected, tag, maxTags).Some? ==> Distinct(ToggleTag(selected, tag, maxTags).value)
    ensures AddCustomTag(selected, text, maxTags).change.Some? ==>
              Distinct(AddCustomTag(selected, text, maxTags).change.value)
  {
    if tag in selected {
      WithoutDistinct(selected, tag);
    }
  }

  /** Clicking a tag that was just added by a click removes it again. */
  lemma ToggleTwiceRestores(selected: seq<string>, tag: string, maxTags: int)
    requires tag !in selected && |selected| < maxTags
    ensures ToggleTag(ToggleTag(selected, tag, maxTags).value, tag, maxTags) == Some(selected)
  {
    var added := selected + [tag];
    assert added[..|selected|] == selected;
    WithoutAppend(selected, tag);
  }

  lemma {:induction false} WithoutAppend(tags: seq<string>, tag: string)
    requires tag !in tags
    ensures Without(tags + [tag], tag) == tags
  {
    if tags != [] {
      assert (tags + [tag])[1..] == tags[1..] + [tag];
      WithoutAppend(tags[1..], tag);
      assert tags == [tags[0]] + tags[1..];
    }
  }

  /** `displayedPresetTags`: every preset when expanded, otherwise the first
      eight. */
  function DisplayedPresetTags(presetTags: seq<string>, showAllTags: bool): (r: seq<string>)
    ensures r <= presetTags
    ensures showAllTags ==> r == presetTags
    ensures !showAllTags ==> |r| == if |presetTags| < CollapsedPresetCount then |presetTags| else CollapsedPresetCount
  {
    if showAllTags then presetTags
    else presetTags[..if |presetTags| < CollapsedPresetCount then |presetTags| else CollapsedPresetCount]
  }

  /** Whether the "more" / "less" button is shown. */
  function ShowsExpandToggle(presetTags: seq<string>): bool
  {
    |presetTags| > CollapsedPresetCount
  }

  /** The expand button is shown exactly when the collapsed list hides a preset. */
  lemma ExpandToggleShownIffHidden(presetTags: seq<string>)
    ensures ShowsExpandToggle(presetTags) <==> DisplayedPresetTags(presetTags, false) != presetTags
  {
  }

  /** The notice under the picker: shown once the selection is at the cap. */
  function ShowsCapNotice(selected: seq<string>, maxTags: int): bool
  {
    |selected| >= maxTags
  }

  /** The notice is up exactly when a click on an unselected tag is ignored. */
  lemma CapNoticeMeansFull(selected: seq<string>, tag: string, maxTags: int)
    requires tag !in selected
    ensures ShowsCapNotice(selected, maxTags) <==> ToggleTag(selected, tag, maxTags).None?
  {
  }

  /** The picker's own state. */
  class TagPicker {
    var customTag: string
    var showAllTags: bool

    constructor ()
      ensures customTag == "" && !showAllTags
    {
      customTag := "";
      showAllTags := false;
    }

    /** Typing into the box. */
    method SetCustomTag(text: string)
      modifies this
      ensures customTag == text && showAllTags == old(showAllTags)
    {
      customTag := text;
    }

    /** `handleAddCustomTag` on the box's text. */
    method HandleAddCustomTag(selected: seq<string>, maxTags: int) returns (change: Option<seq<string>>)
      modifies this
      ensures change == AddCustomTag(selected, old(customTag), maxTags).change
      ensures customTag == if AddCustomTag(selected, old(customTag), maxTags).clearInput then "" else old(customTag)
      ensures showAllTags == old(showAllTags)
    {
      var tag := Trim(customTag);
      if tag == "" || tag in selected {
        customTag := "";
        return None;
      }
      if |selected| >= maxTags {
        return None;
      }
      change := Some(selected + [tag]);
      customTag := "";
    }

    /** `handleKeyDown`: Enter adds the typed tag, any other key does nothing. */
    method HandleKeyDown(key: string, selected: seq<string>, maxTags: int) returns (change: Option<seq<string>>)
      modifies this
      ensures key != "Enter" ==> change.None? && customTag == old(customTag)
      ensures key == "Enter" ==> change == AddCustomTag(selected, old(customTag), maxTags).change
      ensures key == "Enter" ==>
                customTag == if AddCustomTag(selected, old(customTag), maxTags).clearInput then "" else old(customTag)
      ensures showAllTags == old(showAllTags)
    {
      if key == "Enter" {
        change := HandleAddCustomTag(selected, maxTags);
      } else {
        change := None;
      }
    }

    /** The "more" / "less" button. */
    method ToggleShowAll()
      modifies this
      ensures showAllTags == !old(showAllTags) && customTag == old(customTag)
    {
      showAllTags := !showAllTags;
    }

    /** The presets currently listed. */
    function Displayed(presetTags: seq<string>): (r: seq<string>)
      reads this
    {
      DisplayedPresetTags(presetTags, showAllTags)
    }

    /** Whether the add button is enabled. */
    function AddEnabled(): (r: bool)
      reads this
      ensures r <==> exists i :: 0 <= i < |customTag| && !IsSpace(customTag[i])
    {
      TrimEmptyIffBlank(customTag);
      Trim(customTag) != ""
    }
  }
}
