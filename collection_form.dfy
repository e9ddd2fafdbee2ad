/**
 * The collection create/edit screen (CollectionFormComponent): a form group
 * with a required `name` and a free `description`, filled from the server
 * in edit mode and submitted as a create or an update.
 */
module CollectionForm {
  import opened Wrappers
  import opened Models
  import opened Forms
  import opened Api
  import Routing

  const CollectionsRoute := "/collections"
  const ErrorLoadingCollection := "Error loading collection"
  const CollectionCreated := "Collection created successfully"
  const CollectionUpdated := "Collection updated successfully"
  const ErrorSavingCollection := "Error saving collection"

  /** The form group as built: both controls hold `''`. */
  const InitialForm := CollectionFormValue(Text(""), Text(""))

  /** `collectionForm.valid`: only `name` is required. */
  predicate IsValid(v: CollectionFormValue)
  {
    !IsEmptyInputValue(v.name)
  }

  /** The form `loadCollection` leaves after patching in a loaded collection. */
  function Patched(c: Collection): (v: CollectionFormValue)
    ensures v.name == Text(c.name)
  {
    CollectionFormValue(Text(c.name), OfText(c.description))
  }

  /** Only `name` and `description` reach the form: the id, the member books and the timestamps do not. */
  lemma PatchKeepsOnlyNameAndDescription(a: Collection, b: Collection)
    ensures Patched(a) == Patched(b) <==> a.name == b.name && a.description == b.description
  {
  }

  class CollectionFormComponent {
    var form: CollectionFormValue
    var loading: bool
    var isEditMode: bool
    var collectionId: Option<int>
    /** The API calls issued, the router navigations and the snackbar messages, in order. */
    var calls: seq<Call>
    var navigations: seq<string>
    var notices: seq<string>

    /** Edit mode always has the id of the collection being edited. */
    ghost predicate Valid()
      reads this
    {
      isEditMode <==> collectionId.Some?
    }

    constructor ()
      ensures Valid()
      ensures form == InitialForm && loading && !isEditMode && collectionId == None
      ensures calls == [] && navigations == [] && notices == []
    {
      form := InitialForm;
      loading := true;
      isEditMode := false;
      collectionId := None;
      calls, navigations, notices := [], [], [];
    }

    /**
     * `ngOnInit()`: when the route names a collection (present and not
     * `'new'`), switch to edit mode and load it; otherwise stop loading.
     */
    method NgOnInit(routeId: Option<string>, collectionOutcome: Outcome<Collection>)
      requires Valid() && !isEditMode
      requires Routing.IsEditParam(routeId) ==> Routing.IsDecimal(routeId.value)
      modifies this
      ensures Valid() && !loading
      ensures isEditMode == Routing.IsEditParam(routeId) && collectionId == Routing.EditId(routeId)
      ensures isEditMode ==>
        && calls == old(calls) + [GetCollection(collectionId.value)]
        && form == (if collectionOutcome.Success? then Patched(collectionOutcome.payload) else old(form))
        && notices == old(notices) + (if collectionOutcome.Failure? then [ErrorLoadingCollection] else [])
      ensures !isEditMode ==> calls == old(calls) && form == old(form) && notices == old(notices)
      ensures navigations == old(navigations)
    {
      if Routing.IsEditParam(routeId) {
        isEditMode := true;
        collectionId := Some(Routing.DecimalValue(routeId.value));
        LoadCollection(collectionId.value, collectionOutcome);
      } else {
        loading := false;
      }
    }

    /** `loadCollection(id)`: a success patches name and description; either outcome ends loading. */
    method LoadCollection(id: int, outcome: Outcome<Collection>)
      modifies this
      ensures calls == old(calls) + [GetCollection(id)]
      ensures form == (if outcome.Success? then Patched(outcome.payload) else old(form))
      ensures !loading
      ensures notices == old(notices) + (if outcome.Failure? then [ErrorLoadingCollection] else [])
      ensures isEditMode == old(isEditMode) && collectionId == old(collectionId)
      ensures navigations == old(navigations)
    {
      calls := calls + [GetCollection(id)];
      match outcome
      case Success(c) =>
        form := Patched(c);
        loading := false;
      case Failure =>
        notices := notices + [ErrorLoadingCollection];
        loading := false;
    }

    /** The user edits the form's controls. */
    method Edit(v: CollectionFormValue)
      modifies this
      ensures form == v
      ensures loading == old(loading) && isEditMode == old(isEditMode) && collectionId == old(collectionId)
      ensures calls == old(calls) && navigations == old(navigations) && notices == old(notices)
    {
      form := v;
    }

    /**
     * `onSubmit()`: an invalid form does nothing. A valid one raises
     * `loading` and sends the form's value as an update of `collectionId` in
     * edit mode or as a new collection otherwise; success goes back to the
     * list, failure lowers `loading` and stays.
     */
    method OnSubmit(outcome: Outcome<Collection>)
      requires Valid()
      modifies this
      ensures Valid()
      ensures form == old(form) && isEditMode == old(isEditMode) && collectionId == old(collectionId)
      ensures !IsValid(old(form)) ==> unchanged(this)
      ensures IsValid(old(form)) ==>
        && calls == old(calls) + [if isEditMode then UpdateCollection(collectionId.value, form) else CreateCollection(form)]
        && (outcome.Success? ==>
              loading && navigations == old(navigations) + [CollectionsRoute]
              && notices == old(notices) + [if isEditMode then CollectionUpdated else CollectionCreated])
        && (outcome.Failure? ==>
              !loading && navigations == old(navigations) && notices == old(notices) + [ErrorSavingCollection])
    {
      if IsValid(form) {
        var collectionData := form;
        loading := true;
        var call := if isEditMode then UpdateCollection(collectionId.value, collectionData)
                    else CreateCollection(collectionData);
        calls := calls + [call];
        match outcome
        case Success(_) =>
          notices := notices + [if isEditMode then CollectionUpdated else CollectionCreated];
          navigations := navigations + [CollectionsRoute];
        case Failure =>
          notices := notices + [ErrorSavingCollection];
          loading := false;
      }
    }

    /** `onCancel()`: back to the list. */
    method OnCancel()
      modifies this
      ensures navigations == old(navigations) + [CollectionsRoute]
      ensures form == old(form) && loading == old(loading)
      ensures isEditMode == old(isEditMode) && collectionId == old(collectionId)
      ensures calls == old(calls) && notices == old(notices)
    {
      navigations := navigations + [CollectionsRoute];
    }
  }

  /**
   * Opening the edit route of collection `id` and saving without changes
   * sends back the loaded name and description, provided the name is not
   * empty.
   */
  method SaveUnchangedEdit(id: nat, c: Collection, saveOutcome: Outcome<Collection>) returns (sent: seq<Call>)
    ensures sent == [GetCollection(id)] + (if c.name != "" then [UpdateCollection(id, Patched(c))] else [])
  {
    Routing.EditRouteOfId(id);
    var component := new CollectionFormComponent();
    component.NgOnInit(Some(Routing.DecimalText(id)), Success(c));
    component.OnSubmit(saveOutcome);
    sent := component.calls;
  }
}
