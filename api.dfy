/**
 * The REST calls the view-models issue, as values. Transport is not
 * modelled: each call's response is an `Outcome` handed to the caller.
 */
module Api {
  import opened Forms

  /** What an observable returned by the API service delivers: `next(payload)` or `error`. */
  datatype Outcome<T> = Success(payload: T) | Failure

  datatype Call =
    | GetBooks
    | GetBook(bookId: int)
    | CreateBook(book: BookFormValue)
    | UpdateBook(bookId: int, book: BookFormValue)
    | GetAuthors
    | GetAuthor(authorId: int)
    | CreateAuthor(author: AuthorFormValue)
    | UpdateAuthor(authorId: int, author: AuthorFormValue)
    | SearchBooks(query: string)
    | SearchAuthors(query: string)
    | GetCollection(collectionId: int)
    | CreateCollection(collection: CollectionFormValue)
    | UpdateCollection(collectionId: int, collection: CollectionFormValue)
    | AddBookToCollection(collectionId: int, bookId: int)
    | RemoveBookFromCollection(collectionId: int, bookId: int)
}
