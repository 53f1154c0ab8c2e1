/** schemas/zodSchemas.ts: `categoryFormSchema`, the category form's validation. */
module CategorySchema {
  import opened Wrappers
  import opened JsText
  import opened Zod

  datatype CategoryField = NameField | DescriptionField | StatusField

  /** `CategoryStatus`. */
  datatype CategoryStatus = Active | Draft | Archived

  function StatusOf(s: string): (r: Option<CategoryStatus>)
    ensures r == Some(Active) <==> s == "active"
    ensures r == Some(Draft) <==> s == "draft"
    ensures r == Some(Archived) <==> s == "archived"
    ensures r.None? <==> s != "active" && s != "draft" && s != "archived"
  {
    if s == "active" then Some(Active)
    else if s == "draft" then Some(Draft)
    else if s == "archived" then Some(Archived)
    else None
  }

  datatype CategoryValues = CategoryValues(name: string, description: string, status: string)

  /** The parsed category, with both strings trimmed. */
  datatype Category = Category(name: string, description: string, status: CategoryStatus)

  function Issue(failed: bool, f: CategoryField): set<CategoryField> {
    if failed then {f} else {}
  }

  /** The fields `categoryFormSchema` rejects; zod reports all of them. */
  function Issues(v: CategoryValues): set<CategoryField> {
    Issue(!TrimmedBetween(v.name, 3, 50), NameField) +
    Issue(!TrimmedBetween(v.description, 10, 500), DescriptionField) +
    Issue(StatusOf(v.status).None?, StatusField)
  }

  /** `categoryFormSchema.safeParse(values)`. */
  function Parse(v: CategoryValues): (r: Result<Category, set<CategoryField>>)
    ensures r.Err? <==> Issues(v) != {}
    ensures r.Err? ==> r.error == Issues(v)
    ensures r.Ok? ==>
      r.value.name == Trim(v.name) && 3 <= Utf16Length(r.value.name) <= 50 &&
      r.value.description == Trim(v.description) && 10 <= Utf16Length(r.value.description) <= 500 &&
      Some(r.value.status) == StatusOf(v.status)
  {
    var issues := Issues(v);
    if issues != {} then Err(issues)
    else
      assert NameField !in issues && DescriptionField !in issues && StatusField !in issues;
      Ok(Category(Trim(v.name), Trim(v.description), StatusOf(v.status).value))
  }

  /** Each check is independent of the other fields: a field is reported exactly when its own check fails. */
  lemma IssuesPerField(v: CategoryValues)
    ensures NameField in Issues(v) <==> !(3 <= Utf16Length(Trim(v.name)) <= 50)
    ensures DescriptionField in Issues(v) <==> !(10 <= Utf16Length(Trim(v.description)) <= 500)
    ensures StatusField in Issues(v) <==> v.status != "active" && v.status != "draft" && v.status != "archived"
  {
  }

  /** White space around the name or description never counts towards its length. */
  lemma PaddingDoesNotMatter(v: CategoryValues, pre: string, post: string)
    requires AllWhitespace(pre) && AllWhitespace(post)
    ensures Issues(v.(name := pre + v.name + post)) == Issues(v)
    ensures Issues(v.(description := pre + v.description + post)) == Issues(v)
    ensures Parse(v.(name := pre + v.name + post)) == Parse(v)
  {
    PaddingIrrelevant(pre, v.name, post, 3, 50);
    PaddingIrrelevant(pre, v.description, post, 10, 500);
    TrimIgnoresPadding(pre, v.name, post);
  }

  /** A name of white space only is rejected, however long it is. */
  lemma BlankNameRejected(v: CategoryValues)
    requires AllWhitespace(v.name)
    ensures NameField in Issues(v)
  {
    BlankRejected(v.name, 3, 50);
  }
}
