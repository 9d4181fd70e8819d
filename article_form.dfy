/** The article editor shared by the create and edit pages: field rules, the tag-list editors,
    the blank-tag filter applied on submit and the 422 wording. */
module ArticleForm {
  import opened Types
  import opened Text
  import opened FormRules
  import opened ServerErrors

  /** The form's values. */
  datatype ArticleData = ArticleData(title: string, description: string, body: string, tagList: seq<string>)

  const TitleRequired: string := "Title is required"
  const TitleTooShort: string := "Title must be at least 3 characters"
  const DescriptionRequired: string := "Description is required"
  const DescriptionTooShort: string := "Description must be at least 10 characters"
  const BodyRequired: string := "Text is required"
  const BodyTooShort: string := "Text must be at least 5 characters"

  /** A required field with a minimum length and no other rule. */
  function MinLengthError(v: string, min: nat, required: string, tooShort: string): (r: Option<string>)
    ensures r.None? <==> |v| >= min && v != ""
    ensures v == "" ==> r == Some(required)
    ensures 0 < |v| < min ==> r == Some(tooShort)
  {
    FieldError(v, Rules(Some(required), Some(LengthRule(min, tooShort)), None, None, []))
  }

  /** The form's validation errors by field; empty exactly when every field passes. */
  function Validate(d: ArticleData): (r: map<string, string>)
    ensures r == map[] <==> |d.title| >= 3 && |d.description| >= 10 && |d.body| >= 5
    ensures |d.title| < 3 ==> "title" in r
    ensures |d.description| < 10 ==> "description" in r
    ensures |d.body| < 5 ==> "body" in r
  {
    var m := WithError(map[], "title", MinLengthError(d.title, 3, TitleRequired, TitleTooShort));
    var m := WithError(m, "description", MinLengthError(d.description, 10, DescriptionRequired, DescriptionTooShort));
    var r := WithError(m, "body", MinLengthError(d.body, 5, BodyRequired, BodyTooShort));
    r
  }

  /** `addTag`: a new empty tag at the end. */
  function AddTag(tags: seq<string>): (r: seq<string>)
    ensures |r| == |tags| + 1 && r[..|tags|] == tags && r[|tags|] == ""
  {
    tags + [""]
  }

  /** `removeTag(index)`: `tags.filter((_, i) => i !== index)`. */
  function RemoveTag(tags: seq<string>, index: int): (r: seq<string>)
    ensures 0 <= index < |tags| ==> r == tags[..index] + tags[index + 1..]
    ensures !(0 <= index < |tags|) ==> r == tags
    decreases |tags|
  {
    if tags == [] then []
    else
      var rest := RemoveTag(tags[1..], index - 1);
      assert 0 < index < |tags| ==> tags[1..][..index - 1] == tags[1..index] && tags[1..][index..] == tags[index + 1..];
      (if index == 0 then [] else [tags[0]]) + rest
  }

  /** `updateTag(index, value)` on a rendered tag input. */
  function UpdateTag(tags: seq<string>, index: nat, value: string): (r: seq<string>)
    requires index < |tags|
    ensures |r| == |tags| && r[index] == value
    ensures forall i :: 0 <= i < |tags| && i != index ==> r[i] == tags[i]
  {
    tags[index := value]
  }

  /** Removing the tag just added gives back the original list. */
  lemma RemoveAddedTag(tags: seq<string>)
    ensures RemoveTag(AddTag(tags), |tags|) == tags
  {
    assert AddTag(tags)[..|tags|] == tags;
  }

  /** `tag.trim() !== ""`: the tag has a character other than white space (`Trim` is empty
      exactly for blank text). */
  predicate Filled(tag: string) {
    !IsBlank(tag)
  }

  /** `Filled` is the source's test itself: the trimmed tag is not the empty string. */
  lemma FilledIsTrimmedNonEmpty(tag: string)
    ensures Filled(tag) <==> Trim(tag) != ""
  {
  }

  /** `tagList.filter((tag) => tag.trim() !== "")` */
  function SubmittedTags(tags: seq<string>): (r: seq<string>)
    ensures |r| <= |tags|
    ensures forall i :: 0 <= i < |r| ==> Filled(r[i])
    ensures multiset(r) <= multiset(tags)
  {
    if tags == [] then []
    else
      var rest := SubmittedTags(tags[1..]);
      assert tags == [tags[0]] + tags[1..];
      if Filled(tags[0]) then [tags[0]] + rest else rest
  }

  /** The filter works piecewise. */
  lemma {:induction false} SubmittedTagsAppend(a: seq<string>, b: seq<string>)
    ensures SubmittedTags(a + b) == SubmittedTags(a) + SubmittedTags(b)
  {
    if a == [] {
      assert a + b == b;
    } else {
      var ab := a + b;
      assert ab[0] == a[0];
      assert ab[1..] == a[1..] + b;
      SubmittedTagsAppend(a[1..], b);
      if Filled(a[0]) {
        calc {
          SubmittedTags(ab);
          [a[0]] + SubmittedTags(a[1..] + b);
          [a[0]] + (SubmittedTags(a[1..]) + SubmittedTags(b));
          ([a[0]] + SubmittedTags(a[1..])) + SubmittedTags(b);
        }
      }
    }
  }

  /** Tags that are all non-blank pass the filter unchanged. */
  lemma {:induction false} SubmittedTagsKeepsFilled(tags: seq<string>)
    requires forall i :: 0 <= i < |tags| ==> Filled(tags[i])
    ensures SubmittedTags(tags) == tags
  {
    if tags != [] {
      var rest := tags[1..];
      assert Filled(tags[0]);
      assert SubmittedTags(tags) == [tags[0]] + SubmittedTags(rest);
      SubmittedTagsKeepsFilled(rest);
      assert [tags[0]] + rest == tags;
    }
  }

  /** A tag cleared to the empty string is dropped on submit as if it had been removed. */
  lemma ClearedTagIsDropped(tags: seq<string>, index: nat)
    requires index < |tags|
    ensures SubmittedTags(UpdateTag(tags, index, "")) == SubmittedTags(RemoveTag(tags, index))
  {
    var u := UpdateTag(tags, index, "");
    assert u == tags[..index] + ([""] + tags[index + 1..]);
    SubmittedTagsAppend(tags[..index], [""] + tags[index + 1..]);
    SubmittedTagsAppend([""], tags[index + 1..]);
    SubmittedTagsAppend(tags[..index], tags[index + 1..]);
    assert !Filled("");
  }

  /** An added tag left empty is not sent. */
  lemma EmptyAddedTagIsDropped(tags: seq<string>)
    ensures SubmittedTags(AddTag(tags)) == SubmittedTags(tags)
  {
    SubmittedTagsAppend(tags, [""]);
    assert !Filled("");
  }

  /** The article object `onSubmit` sends. */
  function Payload(d: ArticleData): (a: ArticleInput)
    ensures a.title == d.title && a.description == d.description && a.body == d.body
    ensures a.tagList == SubmittedTags(d.tagList)
  {
    ArticleInput(d.title, d.description, d.body, SubmittedTags(d.tagList))
  }

  /** The 422 wording for the three text fields. */
  const ServerRules: seq<ErrorRule> :=
    [ErrorRule("title", "Title ", ""), ErrorRule("description", "Description ", ""), ErrorRule("body", "Body ", "")]

  /** The messages shown under the title, description and body fields: a field has one exactly
      when a 422 reply reports that key, and it reads `Title `, `Description ` or `Body ` followed
      by the server's text. */
  function ArticleServerErrors(err: ServerError): (r: map<string, string>)
    ensures r.Keys <= {"title", "description", "body"}
    ensures err.status != 422 || err.errors.None? ==> r == map[]
    ensures "title" in r <==> err.status == 422 && err.errors.Some? && Reported(err.errors.value, "title")
    ensures "description" in r <==>
      err.status == 422 && err.errors.Some? && Reported(err.errors.value, "description")
    ensures "body" in r <==> err.status == 422 && err.errors.Some? && Reported(err.errors.value, "body")
    ensures "title" in r ==> r["title"] == "Title " + err.errors.value["title"]
    ensures "description" in r ==> r["description"] == "Description " + err.errors.value["description"]
    ensures "body" in r ==> r["body"] == "Body " + err.errors.value["body"]
  {
    assert ServerRules[0].key == "title" && ServerRules[1].key == "description" && ServerRules[2].key == "body";
    var r := FieldErrors(err, ServerRules);
    assert forall m: string :: m + "" == m;
    r
  }
}
