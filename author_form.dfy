/**
 * The author create/edit screen (AuthorFormComponent): a form group with a
 * required `name`, filled from the server in edit mode and submitted as a
 * create or an update.
 */
module AuthorForm {
  import opened Wrappers
  import opened Models
  import opened Forms
  import opened Api
  import Routing

  const AuthorsRoute := "/authors"
  const ErrorLoadingAuthor := "Error loading author"
  const AuthorCreated := "Author created successfully"
  const AuthorUpdated := "Author updated successfully"
  const ErrorSavingAuthor := "Error saving author"

  /** The form group as built: every control holds `''`. */
  const InitialForm := AuthorFormValue(Text(""), Text(""), Text(""), Text(""))

  /** `authorForm.valid`: only `name` is required. */
  predicate IsValid(v: AuthorFormValue)
  {
    !IsEmptyInputValue(v.name)
  }

  /** The form `loadAuthor` leaves after patching in a loaded author. */
  function Patched(a: Author): (v: AuthorFormValue)
    ensures v.name == Text(a.name)
  {
    AuthorFormValue(Text(a.name), OfText(a.biography), OfText(a.birthDate), OfText(a.nationality))
  }

  /** The four fields a user can edit. */
  predicate SameEditableFields(a: Author, b: Author)
  {
    a.name == b.name && a.biography == b.biography && a.birthDate == b.birthDate
    && a.nationality == b.nationality
  }

  /** The patched form records the four editable fields, all of them and nothing else. */
  lemma PatchKeepsExactlyEditableFields(a: Author, b: Author)
    ensures Patched(a) == Patched(b) <==> SameEditableFields(a, b)
  {
  }

  /** A loaded author can be saved unchanged exactly when it has a name. */
  lemma LoadedAuthorIsValidIff(a: Author)
    ensures IsValid(Patched(a)) <==> a.name != ""
  {
  }

  class AuthorFormComponent {
    var form: AuthorFormValue
    var loading: bool
    var isEditMode: bool
    var authorId: Option<int>
    /** The API calls issued, the router navigations and the snackbar messages, in order. */
    var calls: seq<Call>
    var navigations: seq<string>
    var notices: seq<string>

    /** Edit mode always has the id of the author being edited. */
    ghost predicate Valid()
      reads this
    {
      isEditMode <==> authorId.Some?
    }

    constructor ()
      ensures Valid()
      ensures form == InitialForm && !loading && !isEditMode && authorId == None
      ensures calls == [] && navigations == [] && notices == []
    {
      form := InitialForm;
      loading := false;
      isEditMode := false;
      authorId := None;
      calls, navigations, notices := [], [], [];
    }

    /** `ngOnInit()`: when the route names an author (present and not `'new'`), switch to edit mode and load it. */
    method NgOnInit(routeId: Option<string>, authorOutcome: Outcome<Author>)
      requires Valid() && !isEditMode
      requires Routing.IsEditParam(routeId) ==> Routing.IsDecimal(routeId.value)
      modifies this
      ensures Valid()
      ensures isEditMode == Routing.IsEditParam(routeId) && authorId == Routing.EditId(routeId)
      ensures isEditMode ==>
        && calls == old(calls) + [GetAuthor(authorId.value)]
        && form == (if authorOutcome.Success? then Patched(authorOutcome.payload) else old(form))
        && !loading
        && notices == old(notices) + (if authorOutcome.Failure? then [ErrorLoadingAuthor] else [])
      ensures !isEditMode ==> unchanged(this)
      ensures navigations == old(navigations)
    {
      if Routing.IsEditParam(routeId) {
        isEditMode := true;
        authorId := Some(Routing.DecimalValue(routeId.value));
        LoadAuthor(authorId.value, authorOutcome);
      }
    }

    /** `loadAuthor(id)`: `loading` is raised for the request; a success patches the form; either outcome lowers `loading`. */
    method LoadAuthor(id: int, outcome: Outcome<Author>)
      modifies this
      ensures calls == old(calls) + [GetAuthor(id)]
      ensures form == (if outcome.Success? then Patched(outcome.payload) else old(form))
      ensures !loading
      ensures notices == old(notices) + (if outcome.Failure? then [ErrorLoadingAuthor] else [])
      ensures isEditMode == old(isEditMode) && authorId == old(authorId)
      ensures navigations == old(navigations)
    {
      loading := true;
      calls := calls + [GetAuthor(id)];
      match outcome
      case Success(a) =>
        form := Patched(a);
        loading := false;
      case Failure =>
        notices := notices + [ErrorLoadingAuthor];
        loading := false;
    }

    /** The user edits the form's controls. */
    method Edit(v: AuthorFormValue)
      modifies this
      ensures form == v
      ensures loading == old(loading) && isEditMode == old(isEditMode) && authorId == old(authorId)
      ensures calls == old(calls) && navigations == old(navigations) && notices == old(notices)
    {
      form := v;
    }

    /**
     * `onSubmit()`: an invalid form does nothing. A valid one raises
     * `loading` and sends the form's value as an update of `authorId` in
     * edit mode or as a new author otherwise; success goes back to the list,
     * failure lowers `loading` and stays.
     */
    method OnSubmit(outcome: Outcome<Author>)
      requires Valid()
      modifies this
      ensures Valid()
      ensures form == old(form) && isEditMode == old(isEditMode) && authorId == old(authorId)
      ensures !IsValid(old(form)) ==> unchanged(this)
      ensures IsValid(old(form)) ==>
        && calls == old(calls) + [if isEditMode then UpdateAuthor(authorId.value, form) else CreateAuthor(form)]
        && (outcome.Success? ==>
              loading && navigations == old(navigations) + [AuthorsRoute]
              && notices == old(notices) + [if isEditMode then AuthorUpdated else AuthorCreated])
        && (outcome.Failure? ==>
              !loading && navigations == old(navigations) && notices == old(notices) + [ErrorSavingAuthor])
    {
      if IsValid(form) {
        var authorData := form;
        loading := true;
        var call := if isEditMode then UpdateAuthor(authorId.value, authorData) else CreateAuthor(authorData);
        calls := calls + [call];
        match outcome
        case Success(_) =>
          notices := notices + [if isEditMode then AuthorUpdated else AuthorCreated];
          navigations := navigations + [AuthorsRoute];
        case Failure =>
          notices := notices + [ErrorSavingAuthor];
          loading := false;
      }
    }

    /** `onCancel()`: back to the list. */
    method OnCancel()
      modifies this
      ensures navigations == old(navigations) + [AuthorsRoute]
      ensures form == old(form) && loading == old(loading)
      ensures isEditMode == old(isEditMode) && authorId == old(authorId)
      ensures calls == old(calls) && notices == old(notices)
    {
      navigations := navigations + [AuthorsRoute];
    }
  }

  /** Opening `/authors/new` and submitting the blank form sends nothing and keeps `loading` down. */
  method SubmitBlankNewAuthor(saveOutcome: Outcome<Author>) returns (sent: seq<Call>, loading: bool)
    ensures sent == [] && !loading
  {
    var component := new AuthorFormComponent();
    component.NgOnInit(Some("new"), Failure);
    component.OnSubmit(saveOutcome);
    sent := component.calls;
    loading := component.loading;
  }

  /**
   * Opening the edit route of author `id` and saving without changes sends
   * back the loaded author's editable fields, provided it has a name.
   */
  method SaveUnchangedEdit(id: nat, a: Author, saveOutcome: Outcome<Author>) returns (sent: seq<Call>)
    ensures sent == [GetAuthor(id)] + (if a.name != "" then [UpdateAuthor(id, Patched(a))] else [])
  {
    Routing.EditRouteOfId(id);
    var component := new AuthorFormComponent();
    component.NgOnInit(Some(Routing.DecimalText(id)), Success(a));
    component.OnSubmit(saveOutcome);
    sent := component.calls;
  }
}
