/**
 * The records exchanged with the REST API (src/app/models). Optional
 * properties (`id?`, `books?`, ...) are `Option`s; numbers are integers.
 */
module Models {
  import opened Wrappers

  /** An author; the fields are the ones the author form reads and writes. */
  datatype Author = Author(
    id: Option<int>,
    name: string,
    biography: Option<string>,
    birthDate: Option<string>,
    nationality: Option<string>)

  datatype Book = Book(
    id: Option<int>,
    title: string,
    isbn: Option<string>,
    publishedDate: Option<string>,
    description: Option<string>,
    genre: Option<string>,
    authorId: Option<int>,
    author: Option<Author>,
    createdAt: Option<string>,
    updatedAt: Option<string>)

  datatype Collection = Collection(
    id: Option<int>,
    name: string,
    description: Option<string>,
    books: Option<seq<Book>>,
    createdAt: Option<string>,
    updatedAt: Option<string>)

  /** JavaScript truthiness of an optional number: absent and 0 are falsy. */
  predicate IsTruthyId(id: Option<int>)
  {
    id.Some? && id.value != 0
  }
}
