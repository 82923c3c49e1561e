/**
 * The client-side logic of the ask-question page: the form check run before
 * submitting, and the tag picker (typing, adding, removing and the list of
 * suggestions).
 *
 * React state updates become functions from the page state to the next page
 * state; `validateForm`, which fills a fresh error record field by field,
 * becomes a method.
 */
module AskPage {
  import opened Common
  import opened Text

  /** `formData`. */
  datatype AskForm = AskForm(title: string, content: string, category: string, tags: seq<string>, isAnonymous: bool)

  /** The page state the tag picker reads and writes. */
  datatype AskState = AskState(form: AskForm, tagInput: string, showTagSuggestions: bool)

  /** A suggested tag: its name, description and usage count. */
  datatype TagInfo = TagInfo(name: string, description: string, count: int)

  /** The keys `validateForm` may set in the error record. */
  datatype AskKey = TitleKey | ContentKey | TagsKey

  const TitleRequired := "Title is required"
  const TitleTooShort := "Title must be at least 10 characters"
  const TitleTooLong := "Title must be less than 150 characters"
  const ContentRequired := "Question content is required"
  const ContentTooShort := "Question content must be at least 20 characters"
  const TagsMissing := "At least one tag is required"
  const TagsTooMany := "Maximum 5 tags allowed"

  /** The most tags a question may carry. */
  const MaxTags := 5

  /** `validateForm`. A title or a content that is blank is reported as
      missing; only otherwise is its length checked, and then on the
      untrimmed text. The tag count must be between 1 and 5. The form passes
      exactly when no key was recorded. */
  method ValidateAsk(form: AskForm) returns (errors: map<AskKey, string>, ok: bool)
    ensures TitleKey in errors <==> IsBlank(form.title) || |form.title| < 10 || |form.title| > 150
    ensures IsBlank(form.title) ==> errors[TitleKey] == TitleRequired
    ensures !IsBlank(form.title) && |form.title| < 10 ==> errors[TitleKey] == TitleTooShort
    ensures !IsBlank(form.title) && |form.title| > 150 ==> errors[TitleKey] == TitleTooLong
    ensures ContentKey in errors <==> IsBlank(form.content) || |form.content| < 20
    ensures IsBlank(form.content) ==> errors[ContentKey] == ContentRequired
    ensures !IsBlank(form.content) && |form.content| < 20 ==> errors[ContentKey] == ContentTooShort
    ensures TagsKey in errors <==> |form.tags| == 0 || |form.tags| > MaxTags
    ensures |form.tags| == 0 ==> errors[TagsKey] == TagsMissing
    ensures |form.tags| > MaxTags ==> errors[TagsKey] == TagsTooMany
    ensures ok <==> errors == map[]
  {
    TrimEmptyIff(form.title);
    TrimEmptyIff(form.content);
    errors := map[];
    if Trim(form.title) == [] {
      errors := errors[TitleKey := TitleRequired];
    } else if |form.title| < 10 {
      errors := errors[TitleKey := TitleTooShort];
    } else if |form.title| > 150 {
      errors := errors[TitleKey := TitleTooLong];
    }
    if Trim(form.content) == [] {
      errors := errors[ContentKey := ContentRequired];
    } else if |form.content| < 20 {
      errors := errors[ContentKey := ContentTooShort];
    }
    if |form.tags| == 0 {
      errors := errors[TagsKey := TagsMissing];
    } else if |form.tags| > MaxTags {
      errors := errors[TagsKey := TagsTooMany];
    }
    ok := |errors.Keys| == 0;
  }

  /** A tag as `addTag` stores it: not empty, no whitespace at either end,
      and already lower case. */
  predicate CleanTag(t: string)
  {
    && t != []
    && !IsWhitespace(t[0]) && !IsWhitespace(t[|t| - 1])
    && forall i :: 0 <= i < |t| ==> LowerChar(t[i]) == t[i]
  }

  /** The tag list the picker maintains: distinct clean tags, at most five. */
  predicate TagsOk(tags: seq<string>)
  {
    NoDuplicates(tags) && |tags| <= MaxTags && forall i :: 0 <= i < |tags| ==> CleanTag(tags[i])
  }

  /** `tag.trim().toLowerCase()`. */
  function CleanInput(tag: string): (r: string)
    ensures |r| == |Trim(tag)|
  {
    ToLower(Trim(tag))
  }

  /** The cleaned input is a clean tag unless the input was blank. */
  lemma CleanInputIsClean(tag: string)
    ensures CleanInput(tag) == [] <==> IsBlank(tag)
    ensures !IsBlank(tag) ==> CleanTag(CleanInput(tag))
  {
    TrimEmptyIff(tag);
    var t := Trim(tag);
    var r := ToLower(t);
    if r != [] {
      TrimShape(tag);
      ToLowerAt(t);
      LowerCharFacts(t[0]);
      LowerCharFacts(t[|t| - 1]);
      forall i | 0 <= i < |r| ensures LowerChar(r[i]) == r[i] {
        LowerCharFacts(t[i]);
      }
    }
  }

  /** `addTag`: the cleaned input is appended when it is not empty, not yet
      selected and fewer than five tags are selected; the input box is then
      cleared and the suggestions hidden. Otherwise nothing changes. */
  function AddTag(s: AskState, tag: string): (r: AskState)
    ensures var clean := CleanInput(tag);
      var added := !IsBlank(tag) && clean !in s.form.tags && |s.form.tags| < MaxTags;
      && (added ==> r == s.(form := s.form.(tags := s.form.tags + [clean]), tagInput := "", showTagSuggestions := false))
      && (!added ==> r == s)
  {
    var cleanTag := CleanInput(tag);
    CleanInputIsClean(tag);
    if cleanTag != "" && cleanTag !in s.form.tags && |s.form.tags| < MaxTags then
      s.(form := s.form.(tags := s.form.tags + [cleanTag]), tagInput := "", showTagSuggestions := false)
    else s
  }

  /** Adding a tag keeps the list distinct, clean and at most five long. */
  lemma AddTagKeepsTagsOk(s: AskState, tag: string)
    requires TagsOk(s.form.tags)
    ensures TagsOk(AddTag(s, tag).form.tags)
  {
    CleanInputIsClean(tag);
  }

  /** Adding the same input twice adds it once. */
  lemma AddTagTwice(s: AskState, tag: string)
    ensures AddTag(AddTag(s, tag), tag).form.tags == AddTag(s, tag).form.tags
  {
  }

  /** `removeTag`: every tag equal to the given one is dropped. */
  function RemoveTag(s: AskState, t: string): (r: AskState)
    ensures r.tagInput == s.tagInput && r.showTagSuggestions == s.showTagSuggestions
    ensures r.form == s.form.(tags := Without(s.form.tags, t))
  {
    s.(form := s.form.(tags := Without(s.form.tags, t)))
  }

  /** Removing a tag keeps the list distinct, clean and at most five long. */
  lemma {:induction false} RemoveTagKeepsTagsOk(s: AskState, t: string)
    requires TagsOk(s.form.tags)
    ensures TagsOk(RemoveTag(s, t).form.tags)
  {
    WithoutKeepsDistinct(s.form.tags, t);
    var r := RemoveTag(s, t).form.tags;
    forall i | 0 <= i < |r| ensures CleanTag(r[i]) {
      assert r[i] in s.form.tags;
    }
  }

  /** Removing a tag the picker has just added restores the tag list. */
  lemma AddThenRemoveTag(s: AskState, tag: string)
    requires CleanInput(tag) !in s.form.tags
    ensures RemoveTag(AddTag(s, tag), CleanInput(tag)).form.tags == s.form.tags
  {
    var clean := CleanInput(tag);
    if AddTag(s, tag).form.tags == s.form.tags + [clean] {
      AppendThenWithout(s.form.tags, clean);
    }
  }

  /** `handleTagInputChange`: the input box follows the typing, and the
      suggestions show exactly while it holds something besides whitespace. */
  function TagInputChange(s: AskState, value: string): (r: AskState)
    ensures r.form == s.form && r.tagInput == value
    ensures r.showTagSuggestions <==> !IsBlank(value)
  {
    TrimEmptyIff(value);
    s.(tagInput := value, showTagSuggestions := Trim(value) != "")
  }

  /** `handleTagInputKeyDown`: Enter or a comma adds what is typed; any other
      key leaves the state alone. */
  function TagInputKeyDown(s: AskState, key: string): (r: AskState)
    ensures key != "Enter" && key != "," ==> r == s
    ensures key == "Enter" || key == "," ==> r == AddTag(s, s.tagInput)
  {
    if key == "Enter" || key == "," then AddTag(s, s.tagInput) else s
  }

  /** `filteredSuggestions`: the suggestions whose lower-cased name contains
      the lower-cased input and is not yet selected, in their order. */
  function FilteredSuggestions(suggested: seq<TagInfo>, tagInput: string, selected: seq<string>): (r: seq<TagInfo>)
    ensures |r| <= |suggested|
    ensures forall t :: t in r <==>
      t in suggested && Contains(ToLower(t.name), ToLower(tagInput)) && ToLower(t.name) !in selected
  {
    if suggested == [] then []
    else
      var t := suggested[0];
      var keep := Contains(ToLower(t.name), ToLower(tagInput)) && ToLower(t.name) !in selected;
      (if keep then [t] else []) + FilteredSuggestions(suggested[1..], tagInput, selected)
  }

  /** With nothing typed, every suggestion not yet selected is offered. */
  lemma EmptyInputOffersAllUnselected(suggested: seq<TagInfo>, selected: seq<string>, t: TagInfo)
    requires t in suggested && ToLower(t.name) !in selected
    ensures t in FilteredSuggestions(suggested, "", selected)
  {
    assert OccursAt(ToLower(t.name), ToLower(""), 0);
  }

  /** Clicking an offered suggestion whose name has no surrounding whitespace
      adds its lower-cased name, as long as fewer than five tags are selected. */
  lemma PickOfferedSuggestion(s: AskState, suggested: seq<TagInfo>, t: TagInfo)
    requires t in FilteredSuggestions(suggested, s.tagInput, s.form.tags)
    requires t.name != "" && Trim(t.name) == t.name && |s.form.tags| < MaxTags
    ensures AddTag(s, t.name).form.tags == s.form.tags + [ToLower(t.name)]
  {
    TrimEmptyIff(t.name);
  }
}
