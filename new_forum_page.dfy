/**
 * The create-forum page (src/routes/_auth/forums/new.tsx): its submit validator, the mutation it
 * runs and the navigation after success.
 */
module NewForumPage {
  import opened Wrappers
  import opened JsStrings
  import opened Navigation
  import opened Mutations

  datatype ForumForm = ForumForm(title: string, slug: string, description: string, category: string)

  /** The form's default values; the category starts as the empty string. */
  const DefaultForumForm: ForumForm := ForumForm("", "", "", "")

  /** The categories the validator admits. */
  const AllowedCategories: set<string> := {"Technology", "Science", "Art"}

  /** Title 3 to 100, slug 3 to 50, description 10 to 500, category one of the three. */
  predicate ForumFormValid(form: ForumForm) {
    && LengthWithin(form.title, 3, 100)
    && LengthWithin(form.slug, 3, 50)
    && LengthWithin(form.description, 10, 500)
    && form.category in AllowedCategories
  }

  /** `onSubmit`: the form's value becomes the create-forum mutation, once the validator passes. */
  function SubmitForum(form: ForumForm): (r: Option<Mutation>)
    ensures r.Some? <==> ForumFormValid(form)
    ensures r.Some? ==> r.value.CreateForum? && r.value.category in AllowedCategories
    ensures r.Some? ==> RequestOf(r.value).path == "api/forums"
    ensures r.Some? ==> RequestOf(r.value).json == Some(map["title" := FString(form.title), "slug" := FString(form.slug),
                                                             "description" := FString(form.description),
                                                             "category" := FString(form.category)])
  {
    if ForumFormValid(form) then Some(CreateForum(form.title, form.slug, form.description, form.category)) else None
  }

  /** The page's own success callback: back to the forum list. */
  function AfterCreate(): (r: Navigate)
    ensures r.to == HomePath && r.redirect.None? && !r.replace
  {
    Navigate(HomePath, None, false)
  }

  /** The default form is never submitted: its empty category is not one of the three. */
  lemma DefaultFormRejected()
    ensures SubmitForum(DefaultForumForm).None?
  {
    assert "" !in AllowedCategories;
  }

  /** Any category outside the three blocks submission, whatever the other fields hold. */
  lemma UnknownCategoryRejected(form: ForumForm)
    requires form.category != "Technology" && form.category != "Science" && form.category != "Art"
    ensures SubmitForum(form).None?
  {
  }
}
