/**
 * The collection detail screen (CollectionDetailComponent): shows one
 * collection, offers the books that are not yet in it, and adds or removes
 * member books through the API.
 */
module CollectionDetail {
  import opened Wrappers
  import opened Models
  import opened Api
  import opened Sequences
  import Routing

  const ErrorLoadingCollection := "Error loading collection"
  const ErrorLoadingBooks := "Error loading books"
  const BookAdded := "Book added to collection successfully"
  const ErrorAddingBook := "Error adding book to collection"
  const BookRemoved := "Book removed from collection successfully"
  const ErrorRemovingBook := "Error removing book from collection"
  const CollectionsRoute := "/collections"

  /** `books.map(b => b.id)`: the member ids, in order. */
  function BookIds(books: seq<Book>): (ids: seq<Option<int>>)
    ensures |ids| == |books|
    ensures forall i :: 0 <= i < |books| ==> ids[i] == books[i].id
  {
    seq(|books|, i requires 0 <= i < |books| => books[i].id)
  }

  /**
   * `books.filter(book => !ids.includes(book.id))`. An absent id is a value
   * like any other here: a member without an id excludes every candidate
   * without one, as `includes(undefined)` does.
   */
  function WithoutIds(books: seq<Book>, ids: seq<Option<int>>): (r: seq<Book>)
    ensures forall b :: b in r <==> b in books && b.id !in ids
    ensures forall b :: multiset(r)[b] == if b.id in ids then 0 else multiset(books)[b]
  {
    if books == [] then []
    else
      assert books == [books[0]] + books[1..];
      if books[0].id in ids then WithoutIds(books[1..], ids)
      else [books[0]] + WithoutIds(books[1..], ids)
  }

  /** The filter keeps the survivors in their original order. */
  lemma {:induction false} WithoutIdsIsSubsequence(books: seq<Book>, ids: seq<Option<int>>)
    ensures IsSubsequence(WithoutIds(books, ids), books)
  {
    if books != [] {
      WithoutIdsIsSubsequence(books[1..], ids);
      var rest := WithoutIds(books[1..], ids);
      if books[0].id !in ids {
        var r := [books[0]] + rest;
        assert r[0] == books[0] && r[1..] == rest;
      }
    }
  }

  /**
   * `getAvailableBooksToAdd`: with no collection, or a collection without a
   * `books` list, every available book; otherwise the available books whose
   * id no member book has.
   */
  function BooksToAdd(collection: Option<Collection>, available: seq<Book>): (r: seq<Book>)
    ensures collection.None? || collection.value.books.None? ==> r == available
    ensures collection.Some? && collection.value.books.Some? ==>
      forall b :: b in r <==>
        b in available && forall m :: m in collection.value.books.value ==> m.id != b.id
    ensures collection.Some? && collection.value.books.Some? ==>
      forall b :: multiset(r)[b] ==
        if b.id in BookIds(collection.value.books.value) then 0 else multiset(available)[b]
  {
    if collection.None? || collection.value.books.None? then available
    else
      var members := collection.value.books.value;
      var ids := BookIds(members);
      assert forall id: Option<int> :: id in ids <==> exists m :: m in members && m.id == id by {
        forall id: Option<int> | id in ids ensures exists m :: m in members && m.id == id {
          var i :| 0 <= i < |ids| && ids[i] == id;
          assert members[i] in members;
        }
      }
      WithoutIds(available, ids)
  }

  /** The addable books are picked from the available ones in order, so there are never more of them. */
  lemma BooksToAddIsSubsequence(collection: Option<Collection>, available: seq<Book>)
    ensures IsSubsequence(BooksToAdd(collection, available), available)
    ensures |BooksToAdd(collection, available)| <= |available|
  {
    if collection.None? || collection.value.books.None? {
      SubsequenceReflexive(available);
    } else {
      WithoutIdsIsSubsequence(available, BookIds(collection.value.books.value));
    }
    SubsequenceLength(BooksToAdd(collection, available), available);
  }

  /** A book record known only by its id. */
  function BookNumbered(n: int): Book
  {
    Book(Some(n), "", None, None, None, None, None, None, None, None)
  }

  /** With books 1 and 3 in the collection, out of books 1 to 4 only 2 and 4 are offered. */
  lemma AddableBooksExample(c: Collection)
    requires c.books == Some([BookNumbered(1), BookNumbered(3)])
    ensures BooksToAdd(Some(c), [BookNumbered(1), BookNumbered(2), BookNumbered(3), BookNumbered(4)])
         == [BookNumbered(2), BookNumbered(4)]
  {
    var members := [BookNumbered(1), BookNumbered(3)];
    assert BookIds(members) == [Some(1), Some(3)];
    BooksToAddFiltersMemberIds(c, [BookNumbered(1), BookNumbered(2), BookNumbered(3), BookNumbered(4)]);
    WithoutOneAndThree();
  }

  lemma BooksToAddFiltersMemberIds(c: Collection, available: seq<Book>)
    requires c.books.Some?
    ensures BooksToAdd(Some(c), available) == WithoutIds(available, BookIds(c.books.value))
  {
  }

  lemma WithoutOneAndThree()
    ensures WithoutIds([BookNumbered(1), BookNumbered(2), BookNumbered(3), BookNumbered(4)], [Some(1), Some(3)])
         == [BookNumbered(2), BookNumbered(4)]
  {
    var ids := [Some(1), Some(3)];
    var b1, b2, b3, b4 := BookNumbered(1), BookNumbered(2), BookNumbered(3), BookNumbered(4);
    assert [b4][1..] == [];
    assert WithoutIds([b4], ids) == [b4];
    assert [b3, b4][1..] == [b4];
    assert WithoutIds([b3, b4], ids) == [b4];
    assert [b2, b3, b4][1..] == [b3, b4];
    assert WithoutIds([b2, b3, b4], ids) == [b2, b4];
    assert [b1, b2, b3, b4][1..] == [b2, b3, b4];
  }

  /** The guard of `addBook`: a loaded collection with a truthy id and a truthy selection. */
  predicate CanAddBook(collection: Option<Collection>, selectedBookId: Option<int>)
  {
    collection.Some? && IsTruthyId(collection.value.id) && IsTruthyId(selectedBookId)
  }

  /** The guard of `removeBook` before the confirmation: a loaded collection with a truthy id. */
  predicate CanRemoveBook(collection: Option<Collection>)
  {
    collection.Some? && IsTruthyId(collection.value.id)
  }

  class CollectionDetailComponent {
    var collection: Option<Collection>
    var availableBooks: seq<Book>
    var selectedBookId: Option<int>
    var loading: bool
    var loadingBooks: bool
    /** The API calls issued, the router navigations and the snackbar messages, in order. */
    var calls: seq<Call>
    var navigations: seq<string>
    var notices: seq<string>

    constructor ()
      ensures collection == None && availableBooks == [] && selectedBookId == None
      ensures loading && !loadingBooks
      ensures calls == [] && navigations == [] && notices == []
    {
      collection := None;
      availableBooks := [];
      selectedBookId := None;
      loading := true;
      loadingBooks := false;
      calls, navigations, notices := [], [], [];
    }

    /** `getAvailableBooksToAdd()` on the current state. */
    function AvailableBooksToAdd(): (r: seq<Book>)
      reads this
      ensures IsSubsequence(r, availableBooks) && |r| <= |availableBooks|
      ensures forall b :: b in r ==> b in availableBooks
    {
      BooksToAddIsSubsequence(collection, availableBooks);
      BooksToAdd(collection, availableBooks)
    }

    /** `ngOnInit`: with a route id, load the collection and the available books. */
    method NgOnInit(routeId: Option<string>, collectionOutcome: Outcome<Collection>, booksOutcome: Outcome<seq<Book>>)
      requires routeId.Some? && routeId.value != "" ==> Routing.IsDecimal(routeId.value)
      modifies this
      ensures routeId.None? || routeId.value == "" ==> unchanged(this)
      ensures routeId.Some? && routeId.value != "" ==>
        && calls == old(calls) + [GetCollection(Routing.DecimalValue(routeId.value)), GetBooks]
        && collection == (if collectionOutcome.Success? then Some(collectionOutcome.payload) else old(collection))
        && availableBooks == (if booksOutcome.Success? then booksOutcome.payload else old(availableBooks))
        && !loading && !loadingBooks
        && navigations == old(navigations) + (if collectionOutcome.Failure? then [CollectionsRoute] else [])
        && notices == old(notices)
             + (if collectionOutcome.Failure? then [ErrorLoadingCollection] else [])
             + (if booksOutcome.Failure? then [ErrorLoadingBooks] else [])
      ensures selectedBookId == old(selectedBookId)
    {
      if routeId.Some? && routeId.value != "" {
        LoadCollection(Routing.DecimalValue(routeId.value), collectionOutcome);
        LoadAvailableBooks(booksOutcome);
      }
    }

    /** `loadCollection(id)`: the response replaces the collection or sends the user back to the list. */
    method LoadCollection(id: int, outcome: Outcome<Collection>)
      modifies this
      ensures calls == old(calls) + [GetCollection(id)]
      ensures collection == (if outcome.Success? then Some(outcome.payload) else old(collection))
      ensures !loading
      ensures navigations == old(navigations) + (if outcome.Failure? then [CollectionsRoute] else [])
      ensures notices == old(notices) + (if outcome.Failure? then [ErrorLoadingCollection] else [])
      ensures availableBooks == old(availableBooks) && selectedBookId == old(selectedBookId)
      ensures loadingBooks == old(loadingBooks)
    {
      calls := calls + [GetCollection(id)];
      match outcome
      case Success(c) =>
        collection := Some(c);
        loading := false;
      case Failure =>
        notices := notices + [ErrorLoadingCollection];
        loading := false;
        navigations := navigations + [CollectionsRoute];
    }

    /** `loadAvailableBooks()`: `loadingBooks` is raised for the request and always lowered by the response. */
    method LoadAvailableBooks(outcome: Outcome<seq<Book>>)
      modifies this
      ensures calls == old(calls) + [GetBooks]
      ensures availableBooks == (if outcome.Success? then outcome.payload else old(availableBooks))
      ensures !loadingBooks
      ensures notices == old(notices) + (if outcome.Failure? then [ErrorLoadingBooks] else [])
      ensures collection == old(collection) && selectedBookId == old(selectedBookId)
      ensures loading == old(loading) && navigations == old(navigations)
    {
      loadingBooks := true;
      calls := calls + [GetBooks];
      match outcome
      case Success(books) =>
        availableBooks := books;
        loadingBooks := false;
      case Failure =>
        notices := notices + [ErrorLoadingBooks];
        loadingBooks := false;
    }

    /** The book picker's two-way binding to `selectedBookId`. */
    method SelectBook(bookId: Option<int>)
      modifies this
      ensures selectedBookId == bookId
      ensures collection == old(collection) && availableBooks == old(availableBooks)
      ensures loading == old(loading) && loadingBooks == old(loadingBooks)
      ensures calls == old(calls) && navigations == old(navigations) && notices == old(notices)
    {
      selectedBookId := bookId;
    }

    /**
     * `addBook()`: without a loaded collection with a truthy id and a truthy
     * selection nothing happens; otherwise the server's collection replaces
     * the local one and the selection is cleared, or on failure both stay.
     */
    method AddBook(outcome: Outcome<Collection>)
      modifies this
      ensures !CanAddBook(old(collection), old(selectedBookId)) ==> unchanged(this)
      ensures CanAddBook(old(collection), old(selectedBookId)) ==>
        && calls == old(calls) + [AddBookToCollection(old(collection).value.id.value, old(selectedBookId).value)]
        && (outcome.Success? ==>
              collection == Some(outcome.payload) && selectedBookId == None
              && notices == old(notices) + [BookAdded])
        && (outcome.Failure? ==>
              collection == old(collection) && selectedBookId == old(selectedBookId)
              && notices == old(notices) + [ErrorAddingBook])
      ensures availableBooks == old(availableBooks) && navigations == old(navigations)
      ensures loading == old(loading) && loadingBooks == old(loadingBooks)
    {
      if CanAddBook(collection, selectedBookId) {
        calls := calls + [AddBookToCollection(collection.value.id.value, selectedBookId.value)];
        match outcome
        case Success(updated) =>
          collection := Some(updated);
          selectedBookId := None;
          notices := notices + [BookAdded];
        case Failure =>
          notices := notices + [ErrorAddingBook];
      }
    }

    /**
     * `removeBook(bookId)`, `confirmed` being the answer to the confirmation
     * dialog (asked only when a collection with a truthy id is loaded). A
     * successful removal re-fetches the collection rather than editing it.
     */
    method RemoveBook(bookId: int, confirmed: bool, removeOutcome: Outcome<()>, reloadOutcome: Outcome<Collection>)
      modifies this
      ensures !(CanRemoveBook(old(collection)) && confirmed) ==> unchanged(this)
      ensures CanRemoveBook(old(collection)) && confirmed && removeOutcome.Success? ==>
        var id := old(collection).value.id.value;
        && calls == old(calls) + [RemoveBookFromCollection(id, bookId), GetCollection(id)]
        && collection == (if reloadOutcome.Success? then Some(reloadOutcome.payload) else old(collection))
        && !loading
        && notices == old(notices) + [BookRemoved]
             + (if reloadOutcome.Failure? then [ErrorLoadingCollection] else [])
        && navigations == old(navigations) + (if reloadOutcome.Failure? then [CollectionsRoute] else [])
      ensures CanRemoveBook(old(collection)) && confirmed && removeOutcome.Failure? ==>
        && calls == old(calls) + [RemoveBookFromCollection(old(collection).value.id.value, bookId)]
        && collection == old(collection) && loading == old(loading)
        && notices == old(notices) + [ErrorRemovingBook]
        && navigations == old(navigations)
      ensures availableBooks == old(availableBooks) && selectedBookId == old(selectedBookId)
      ensures loadingBooks == old(loadingBooks)
    {
      if CanRemoveBook(collection) && confirmed {
        var id := collection.value.id.value;
        calls := calls + [RemoveBookFromCollection(id, bookId)];
        match removeOutcome
        case Success(_) =>
          // the snackbar opens before the re-fetch's response arrives
          notices := notices + [BookRemoved];
          LoadCollection(id, reloadOutcome);
        case Failure =>
          notices := notices + [ErrorRemovingBook];
      }
    }
  }
}
