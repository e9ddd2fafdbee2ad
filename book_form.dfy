/**
 * The book create/edit screen (BookFormComponent): a form group with
 * required `title` and `authorId`, filled from the server in edit mode and
 * submitted as a create or an update.
 */
module BookForm {
  import opened Wrappers
  import opened Models
  import opened Forms
  import opened Api
  import Routing

  const BooksRoute := "/books"
  const ErrorLoadingAuthors := "Error loading authors"
  const ErrorLoadingBook := "Error loading book"
  const BookCreated := "Book created successfully"
  const BookUpdated := "Book updated successfully"
  const ErrorSavingBook := "Error saving book"

  /** The form group as built: every control holds `''`. */
  const InitialForm := BookFormValue(Text(""), Text(""), Text(""), Text(""), Text(""), Text(""))

  /** `bookForm.valid`: `title` and `authorId` are required, the other four are free. */
  predicate IsValid(v: BookFormValue)
  {
    !IsEmptyInputValue(v.title) && !IsEmptyInputValue(v.authorId)
  }

  /** The form `loadBook` leaves after patching in a loaded book. */
  function Patched(b: Book): (v: BookFormValue)
    ensures v.title == Text(b.title) && v.authorId == OfNumber(b.authorId)
  {
    BookFormValue(Text(b.title), OfText(b.isbn), OfText(b.publishedDate),
                  OfText(b.description), OfText(b.genre), OfNumber(b.authorId))
  }

  /** The six fields a user can edit. */
  predicate SameEditableFields(a: Book, b: Book)
  {
    a.title == b.title && a.isbn == b.isbn && a.publishedDate == b.publishedDate
    && a.description == b.description && a.genre == b.genre && a.authorId == b.authorId
  }

  /** The patched form records the six editable fields, all of them and nothing else. */
  lemma PatchKeepsExactlyEditableFields(a: Book, b: Book)
    ensures Patched(a) == Patched(b) <==> SameEditableFields(a, b)
  {
  }

  /** A loaded book can be saved unchanged exactly when it has a title and an author id. */
  lemma LoadedBookIsValidIff(b: Book)
    ensures IsValid(Patched(b)) <==> b.title != "" && b.authorId.Some?
  {
  }

  /** A blank form can never be submitted; whitespace-only required fields can. */
  lemma InitialFormIsInvalid()
    ensures !IsValid(InitialForm)
    ensures IsValid(InitialForm.(title := Text(" "), authorId := Number(0)))
  {
  }

  class BookFormComponent {
    var form: BookFormValue
    var authors: seq<Author>
    var loading: bool
    var isEditMode: bool
    var bookId: Option<int>
    /** The API calls issued, the router navigations and the snackbar messages, in order. */
    var calls: seq<Call>
    var navigations: seq<string>
    var notices: seq<string>

    /** Edit mode always has the id of the book being edited. */
    ghost predicate Valid()
      reads this
    {
      isEditMode <==> bookId.Some?
    }

    constructor ()
      ensures Valid()
      ensures form == InitialForm && authors == [] && loading && !isEditMode && bookId == None
      ensures calls == [] && navigations == [] && notices == []
    {
      form := InitialForm;
      authors := [];
      loading := true;
      isEditMode := false;
      bookId := None;
      calls, navigations, notices := [], [], [];
    }

    /**
     * `ngOnInit()`: load the authors; then, when the route names a book
     * (present and not `'new'`), switch to edit mode and load it, otherwise
     * stop loading.
     */
    method NgOnInit(routeId: Option<string>, authorsOutcome: Outcome<seq<Author>>, bookOutcome: Outcome<Book>)
      requires Valid() && !isEditMode
      requires Routing.IsEditParam(routeId) ==> Routing.IsDecimal(routeId.value)
      modifies this
      ensures Valid() && !loading
      ensures isEditMode == Routing.IsEditParam(routeId) && bookId == Routing.EditId(routeId)
      ensures authors == (if authorsOutcome.Success? then authorsOutcome.payload else old(authors))
      ensures isEditMode ==>
        && calls == old(calls) + [GetAuthors, GetBook(bookId.value)]
        && form == (if bookOutcome.Success? then Patched(bookOutcome.payload) else old(form))
        && notices == old(notices)
             + (if authorsOutcome.Failure? then [ErrorLoadingAuthors] else [])
             + (if bookOutcome.Failure? then [ErrorLoadingBook] else [])
      ensures !isEditMode ==>
        && calls == old(calls) + [GetAuthors] && form == old(form)
        && notices == old(notices) + (if authorsOutcome.Failure? then [ErrorLoadingAuthors] else [])
      ensures navigations == old(navigations)
    {
      LoadAuthors(authorsOutcome);
      if Routing.IsEditParam(routeId) {
        isEditMode := true;
        bookId := Some(Routing.DecimalValue(routeId.value));
        LoadBook(bookId.value, bookOutcome);
      } else {
        loading := false;
      }
    }

    /** `loadAuthors()`: only a success replaces the author choices. */
    method LoadAuthors(outcome: Outcome<seq<Author>>)
      modifies this
      ensures calls == old(calls) + [GetAuthors]
      ensures authors == (if outcome.Success? then outcome.payload else old(authors))
      ensures notices == old(notices) + (if outcome.Failure? then [ErrorLoadingAuthors] else [])
      ensures form == old(form) && loading == old(loading) && isEditMode == old(isEditMode)
      ensures bookId == old(bookId) && navigations == old(navigations)
    {
      calls := calls + [GetAuthors];
      match outcome
      case Success(found) =>
        authors := found;
      case Failure =>
        notices := notices + [ErrorLoadingAuthors];
    }

    /** `loadBook(id)`: a success patches the six editable fields; either outcome ends loading. */
    method LoadBook(id: int, outcome: Outcome<Book>)
      modifies this
      ensures calls == old(calls) + [GetBook(id)]
      ensures form == (if outcome.Success? then Patched(outcome.payload) else old(form))
      ensures !loading
      ensures notices == old(notices) + (if outcome.Failure? then [ErrorLoadingBook] else [])
      ensures authors == old(authors) && isEditMode == old(isEditMode) && bookId == old(bookId)
      ensures navigations == old(navigations)
    {
      calls := calls + [GetBook(id)];
      match outcome
      case Success(b) =>
        form := Patched(b);
        loading := false;
      case Failure =>
        notices := notices + [ErrorLoadingBook];
        loading := false;
    }

    /** The user edits the form's controls. */
    method Edit(v: BookFormValue)
      modifies this
      ensures form == v
      ensures authors == old(authors) && loading == old(loading) && isEditMode == old(isEditMode)
      ensures bookId == old(bookId)
      ensures calls == old(calls) && navigations == old(navigations) && notices == old(notices)
    {
      form := v;
    }

    /**
     * `onSubmit()`: an invalid form does nothing. A valid one raises
     * `loading` and sends the form's value as an update of `bookId` in edit
     * mode or as a new book otherwise; success goes back to the list,
     * failure lowers `loading` and stays.
     */
    method OnSubmit(outcome: Outcome<Book>)
      requires Valid()
      modifies this
      ensures Valid()
      ensures form == old(form) && authors == old(authors) && isEditMode == old(isEditMode)
      ensures bookId == old(bookId)
      ensures !IsValid(old(form)) ==> unchanged(this)
      ensures IsValid(old(form)) ==>
        && calls == old(calls) + [if isEditMode then UpdateBook(bookId.value, form) else CreateBook(form)]
        && (outcome.Success? ==>
              loading && navigations == old(navigations) + [BooksRoute]
              && notices == old(notices) + [if isEditMode then BookUpdated else BookCreated])
        && (outcome.Failure? ==>
              !loading && navigations == old(navigations) && notices == old(notices) + [ErrorSavingBook])
    {
      if IsValid(form) {
        var bookData := form;
        loading := true;
        var call := if isEditMode then UpdateBook(bookId.value, bookData) else CreateBook(bookData);
        calls := calls + [call];
        match outcome
        case Success(_) =>
          notices := notices + [if isEditMode then BookUpdated else BookCreated];
          navigations := navigations + [BooksRoute];
        case Failure =>
          notices := notices + [ErrorSavingBook];
          loading := false;
      }
    }

    /** `onCancel()`: back to the list. */
    method OnCancel()
      modifies this
      ensures navigations == old(navigations) + [BooksRoute]
      ensures form == old(form) && authors == old(authors) && loading == old(loading)
      ensures isEditMode == old(isEditMode) && bookId == old(bookId)
      ensures calls == old(calls) && notices == old(notices)
    {
      navigations := navigations + [BooksRoute];
    }
  }

  /**
   * Opening the edit route of book `id` and saving without changes sends
   * back the loaded book's editable fields, provided it has a title and an
   * author id; otherwise nothing is sent.
   */
  method SaveUnchangedEdit(id: nat, b: Book, authorsOutcome: Outcome<seq<Author>>, saveOutcome: Outcome<Book>)
    returns (sent: seq<Call>)
    ensures sent == [GetAuthors, GetBook(id)]
      + (if b.title != "" && b.authorId.Some? then [UpdateBook(id, Patched(b))] else [])
  {
    Routing.EditRouteOfId(id);
    var component := new BookFormComponent();
    component.NgOnInit(Some(Routing.DecimalText(id)), authorsOutcome, Success(b));
    LoadedBookIsValidIff(b);
    component.OnSubmit(saveOutcome);
    sent := component.calls;
  }
}
