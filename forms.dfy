/**
 * Reactive-form values. A control holds a JavaScript value: null/undefined,
 * a string or a number. `Validators.required` rejects exactly the empty
 * input values: null/undefined and the empty string.
 */
module Forms {
  import opened Wrappers

  datatype FieldValue = Null | Text(s: string) | Number(n: int)

  /** The test behind `Validators.required`: the control fails when this holds. */
  predicate IsEmptyInputValue(v: FieldValue)
  {
    v.Null? || (v.Text? && |v.s| == 0)
  }

  /** The control value `patchValue` leaves for an optional string property. */
  function OfText(o: Option<string>): (v: FieldValue)
    ensures v.Null? <==> o.None?
    ensures o.Some? ==> v == Text(o.value)
  {
    match o
    case Some(s) => Text(s)
    case None => Null
  }

  /** The control value `patchValue` leaves for an optional number property. */
  function OfNumber(o: Option<int>): (v: FieldValue)
    ensures v.Null? <==> o.None?
    ensures o.Some? ==> v == Number(o.value)
  {
    match o
    case Some(n) => Number(n)
    case None => Null
  }

  /** The value of the book form group (title, isbn, publishedDate, description, genre, authorId). */
  datatype BookFormValue = BookFormValue(
    title: FieldValue,
    isbn: FieldValue,
    publishedDate: FieldValue,
    description: FieldValue,
    genre: FieldValue,
    authorId: FieldValue)

  /** The value of the author form group (name, biography, birthDate, nationality). */
  datatype AuthorFormValue = AuthorFormValue(
    name: FieldValue,
    biography: FieldValue,
    birthDate: FieldValue,
    nationality: FieldValue)

  /** The value of the collection form group (name, description). */
  datatype CollectionFormValue = CollectionFormValue(
    name: FieldValue,
    description: FieldValue)
}
