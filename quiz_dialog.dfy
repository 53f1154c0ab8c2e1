/**
 * components/mods/create-quiz-dialog.tsx: the quiz form's validation (`quizFormSchema`), its
 * defaults, when the dialog is shown, which server action a submission calls, and the
 * clean-up on close. The server actions are not modelled; their outcome is a parameter.
 */
module QuizDialog {
  import opened Wrappers
  import opened JsText
  import opened Zod
  import opened Modal

  datatype QuizField = TitleField | DescriptionField | CategoryIdField | DifficultyField | StatusField

  /** The form values; `id` is present when the dialog was opened on an existing quiz. */
  datatype QuizValues = QuizValues(
    title: string,
    description: string,
    categoryId: Option<string>,
    difficulty: string,
    status: string,
    id: Option<string>)

  /** `DEFAULT_FORM_VALUES`, which leaves `categoryId` out. */
  const DefaultValues := QuizValues("", "", None, "medium", "draft", None)

  /** `QuizDifficulty`. */
  predicate KnownDifficulty(s: string) {
    s == "easy" || s == "medium" || s == "hard"
  }

  /** `QuizStatus`. */
  predicate KnownStatus(s: string) {
    s == "draft" || s == "published" || s == "archived"
  }

  function Issue(failed: bool, f: QuizField): set<QuizField> {
    if failed then {f} else {}
  }

  /** The fields `quizFormSchema` rejects; zod reports all of them. */
  function Issues(v: QuizValues): (r: set<QuizField>)
    ensures TitleField in r <==> !(3 <= Utf16Length(Trim(v.title)) <= 100)
    ensures DescriptionField in r <==> !(10 <= Utf16Length(Trim(v.description)) <= 500)
    ensures CategoryIdField in r <==> v.categoryId.None?
    ensures DifficultyField in r <==> !KnownDifficulty(v.difficulty)
    ensures StatusField in r <==> !KnownStatus(v.status)
  {
    Issue(!TrimmedBetween(v.title, 3, 100), TitleField) +
    Issue(!TrimmedBetween(v.description, 10, 500), DescriptionField) +
    Issue(v.categoryId.None?, CategoryIdField) +
    Issue(!KnownDifficulty(v.difficulty), DifficultyField) +
    Issue(!KnownStatus(v.status), StatusField)
  }

  /** The defaults are rejected for the empty title and description and the missing category, and for nothing else. */
  lemma DefaultsRejected()
    ensures Issues(DefaultValues) == {TitleField, DescriptionField, CategoryIdField}
  {
    assert Trim("") == "";
  }

  /** Two emoji make a four-unit title: zod's `min(3)` accepts it although it has two characters. */
  lemma AstralTitleAccepted(v: QuizValues)
    requires v.title == "\U{1F600}\U{1F600}"
    ensures |v.title| == 2 && Utf16Length(v.title) == 4
    ensures TitleField !in Issues(v)
  {
    assert Trim(v.title) == v.title;
  }

  /** White space around the title never counts towards its length. */
  lemma PaddedTitle(v: QuizValues, pre: string, post: string)
    requires AllWhitespace(pre) && AllWhitespace(post)
    ensures Issues(v.(title := pre + v.title + post)) == Issues(v)
  {
    PaddingIrrelevant(pre, v.title, post, 3, 100);
  }

  /**
   * What `zodResolver(quizFormSchema)` hands to the submit handler for accepted form values:
   * the title and description trimmed, and `id` dropped, because `z.object` strips keys the
   * schema does not name.
   */
  function Resolved(v: QuizValues): (r: QuizValues)
    ensures r.title == Trim(v.title) && r.description == Trim(v.description)
    ensures r.categoryId == v.categoryId && r.difficulty == v.difficulty && r.status == v.status
    ensures r.id.None?
  {
    QuizValues(Trim(v.title), Trim(v.description), v.categoryId, v.difficulty, v.status, None)
  }

  /** The parsed values pass the schema exactly as the entered ones did: parsing again changes nothing. */
  lemma ResolvedIssues(v: QuizValues)
    ensures Issues(Resolved(v)) == Issues(v)
    ensures Resolved(Resolved(v)) == Resolved(v)
  {
    TrimIdempotent(v.title);
    TrimIdempotent(v.description);
  }

  /** The server action a submission calls: `updateQuiz(initialData.id!, data)` or `createQuiz(data)`. */
  datatype QuizCall = UpdateQuiz(id: Option<string>, data: QuizValues) | CreateQuiz(data: QuizValues)

  /** What the action resolves to: an `error`, a `quiz`, neither, or an exception. */
  datatype Outcome = ErrorReturned(message: string) | QuizReturned | NothingReturned | Thrown

  /** `isOpen && type === "create::quiz:modal"`. */
  predicate ShowsQuizModal(isOpen: bool, kind: Option<ModalType>) {
    isOpen && kind.Some? && kind.value.Name() == "create::quiz:modal"
  }

  /** The dialog is shown exactly when the store is open on the quiz modal. */
  lemma ShownIffQuizModal(isOpen: bool, kind: Option<ModalType>)
    ensures ShowsQuizModal(isOpen, kind) <==> isOpen && kind == Some(CreateQuizModal)
  {
    NamesDistinct();
  }

  class CreateQuizDialog {
    const store: ModalStore<QuizValues>
    var form: QuizValues
    var initialData: Option<QuizValues>
    var isSubmitting: bool

    constructor(store: ModalStore<QuizValues>)
      ensures this.store == store && form == DefaultValues && initialData.None? && !isSubmitting
    {
      this.store := store;
      form := DefaultValues;
      initialData := None;
      isSubmitting := false;
    }

    /** `isModalOpen`. */
    predicate IsModalOpen()
      reads this, store
    {
      ShowsQuizModal(store.isOpen, store.kind)
    }

    /** `handleCloseAndCleanUp`: reset the form to the defaults, forget the quiz being edited, close the store. */
    method CloseAndCleanUp()
      modifies this, store
      ensures form == DefaultValues && initialData.None? && isSubmitting == old(isSubmitting)
      ensures !store.isOpen && store.kind.None? && store.data.None? && !IsModalOpen()
    {
      form := DefaultValues;
      initialData := None;
      store.OnClose();
    }

    /** The effect on `data`: data handed to the modal becomes the quiz being edited and fills the form. */
    method DataEffect()
      modifies this
      ensures store.data.Some? ==> initialData == store.data && form == store.data.value
      ensures store.data.None? ==> initialData == old(initialData) && form == old(form)
      ensures isSubmitting == old(isSubmitting)
    {
      if store.data.Some? {
        initialData := store.data;
        form := store.data.value;
      }
    }

    /**
     * `form.handleSubmit(handleSubmit)` on the entered values `entered`, which the resolver
     * accepted: `handleSubmit` receives their parsed form `Resolved(entered)`. It updates when a
     * quiz is being edited and creates otherwise; only a returned quiz closes and cleans up.
     */
    method Submit(entered: QuizValues, outcome: Outcome) returns (call: QuizCall)
      requires Issues(entered) == {}
      modifies this, store
      ensures old(initialData).Some? ==> call == UpdateQuiz(old(initialData).value.id, Resolved(entered))
      ensures old(initialData).None? ==> call == CreateQuiz(Resolved(entered))
      ensures !isSubmitting
      ensures outcome == QuizReturned ==> form == DefaultValues && initialData.None? && !store.isOpen && store.data.None?
      ensures outcome != QuizReturned ==> form == old(form) && initialData == old(initialData)
      ensures outcome != QuizReturned ==>
        store.isOpen == old(store.isOpen) && store.kind == old(store.kind) && store.data == old(store.data)
    {
      isSubmitting := true;
      var formData := Resolved(entered);
      if initialData.Some? {
        call := UpdateQuiz(initialData.value.id, formData);
      } else {
        call := CreateQuiz(formData);
      }
      if outcome == QuizReturned {
        CloseAndCleanUp();
      }
      isSubmitting := false;
    }
  }

  /** Opening the quiz modal on an existing quiz and submitting valid values updates that quiz. */
  method EditThenSubmit(quiz: QuizValues, values: QuizValues) returns (call: QuizCall, shownAfter: bool)
    requires Issues(values) == {}
    ensures call == UpdateQuiz(quiz.id, Resolved(values)) && !shownAfter
  {
    var store := new ModalStore<QuizValues>();
    var dialog := new CreateQuizDialog(store);
    store.OnOpen(CreateQuizModal, Some(quiz));
    dialog.DataEffect();
    call := dialog.Submit(values, QuizReturned);
    shownAfter := dialog.IsModalOpen();
  }
}
