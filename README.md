# todl front end: view-model logic in Dafny

This project models the decision logic of the todl library-catalogue web
client (an Angular application over a REST API for books, authors and
collections). Each screen's view-model becomes a Dafny class whose fields
are the component's signals and plain fields, and whose methods are its
lifecycle hooks, button handlers and response callbacks. Pure rules become
functions with lemmas about them:

- the list of books a collection can still take (`getAvailableBooksToAdd`),
  and adding and removing member books (`CollectionDetail`);
- the search box: blank versus non-blank settled values,
  `distinctUntilChanged`, and the two independent search responses
  (`Search`);
- the language preference: the supported codes, the stored choice and the
  fallbacks (`Language`), and the menu that mirrors it (`LanguageSwitcher`);
- which requests get an `Authorization: Bearer` header (`AuthInterceptor`);
- the book, author and collection forms: mode selection from the route,
  required fields, load-and-patch, create or update on submit and the
  `loading` flag (`BookForm`, `AuthorForm`, `CollectionForm`).

Shared modules: `Wrappers` (Option), `Models` (the Book, Author and
Collection records), `Forms` (form-control values and `Validators.required`),
`Routing` (route ids), `Api` (the REST calls as values and their outcomes)
and `Sequences` (subsequences).

How the environment is represented:

- Every API call is recorded in the component's `calls` list, and its
  response is an `Outcome` (`Success(payload)` or `Failure`) that the
  caller passes in. The response is applied within the same method, except
  on the search screen. There, the books and authors responses are separate
  methods that may come in either order.
- Router navigations and snackbar messages are appended to `navigations`
  and `notices`.
- The confirmation dialog is a boolean parameter. Local storage is a
  `map<string, string>` held by the language service.
- The identity provider's token stream is a `TokenSource` value.

## Model

| member | source | states |
|---|---|---|
| `Routing.EditId` | src/app/components/books/book-form.component.ts:62-66 | edit mode (an id) exactly when the route parameter is present, non-empty and not `'new'`; the id is then `+param` |
| `Routing.IsEditParam` | src/app/components/books/book-form.component.ts:63 | the test `id && id !== 'new'` on the route parameter |
| `Routing.DecimalValue` | src/app/components/books/book-form.component.ts:65 | `+id` of a digit string; a string whose first digit is not `0` gives a positive id |
| `Routing.CanonicalRoundTrip` | src/app/components/books/book-form.component.ts:65 | a decimal string with no leading zero is the text of its own value, so `+id` loses nothing |
| `Routing.DecimalText` | src/app/app.routes.ts:17 | the id written into an edit route is a non-empty string of decimal digits |
| `Routing.DecimalRoundTrip` | src/app/components/books/book-form.component.ts:65 | reading an id back with `+id` gives the id that was written into the route |
| `Routing.EditRouteOfId` | src/app/app.routes.ts:15-17 | a form opened at `/<kind>/<n>/edit` edits exactly `n`; `'new'` and a missing parameter mean create mode |
| `CollectionDetail.BookIds` | src/app/components/collections/collection-detail.component.ts:123 | the member ids, one per member book, in order |
| `CollectionDetail.WithoutIds` | src/app/components/collections/collection-detail.component.ts:124 | a book is kept exactly when its id is not among the excluded ids, and each kept book keeps its multiplicity |
| `CollectionDetail.WithoutIdsIsSubsequence` | src/app/components/collections/collection-detail.component.ts:124 | the filter keeps the surviving books in their original order |
| `CollectionDetail.BooksToAdd` | src/app/components/collections/collection-detail.component.ts:117-125 | no collection or no `books` list: all available books; otherwise exactly the available books whose id no member has, with their multiplicities |
| `CollectionDetail.BooksToAddIsSubsequence` | src/app/components/collections/collection-detail.component.ts:117-125 | the addable books are a subsequence of the available books, so never more of them |
| `CollectionDetail.AddableBooksExample` | src/app/components/collections/collection-detail.component.ts:117-125 | members {1, 3} and available books 1 to 4 give exactly books 2 and 4, in that order |
| `CollectionDetail.CanAddBook` | src/app/components/collections/collection-detail.component.ts:85 | the guard of `addBook`: a loaded collection with a truthy id and a truthy selected book id |
| `CollectionDetail.CanRemoveBook` | src/app/components/collections/collection-detail.component.ts:102 | the guard of `removeBook` before the confirmation: a loaded collection with a truthy id |
| `CollectionDetail.CollectionDetailComponent.constructor` | src/app/components/collections/collection-detail.component.ts:39-43 | no collection, no books, no selection, `loading` true, `loadingBooks` false |
| `CollectionDetail.CollectionDetailComponent.AvailableBooksToAdd` | src/app/components/collections/collection-detail.component.ts:117-125 | the addable books of the current state are an ordered selection from `availableBooks` |
| `CollectionDetail.CollectionDetailComponent.NgOnInit` | src/app/components/collections/collection-detail.component.ts:45-51 | with no route id nothing happens; otherwise the collection and the books are both loaded, with the effects of the two loaders |
| `CollectionDetail.CollectionDetailComponent.LoadCollection` | src/app/components/collections/collection-detail.component.ts:53-66 | `loading` ends false; success replaces the collection; failure keeps it, shows one message and navigates to `/collections` |
| `CollectionDetail.CollectionDetailComponent.LoadAvailableBooks` | src/app/components/collections/collection-detail.component.ts:68-81 | `loadingBooks` ends false whatever the outcome; `availableBooks` is replaced only on success |
| `CollectionDetail.CollectionDetailComponent.SelectBook` | src/app/components/collections/collection-detail.component.ts:41 | the selection changes and nothing else does |
| `CollectionDetail.CollectionDetailComponent.AddBook` | src/app/components/collections/collection-detail.component.ts:83-98 | no call and no change unless a collection with a truthy id and a truthy selection exist; success takes the server's collection and clears the selection; failure changes neither |
| `CollectionDetail.CollectionDetailComponent.RemoveBook` | src/app/components/collections/collection-detail.component.ts:100-115 | nothing without a loaded collection with a truthy id and a confirmation; success re-fetches the collection (no local edit); failure leaves the collection and `loading` as they were |
| `Search.TrimStart` | src/app/components/search/search.component.ts:48 | the result is a suffix of the input, everything dropped is white space, and it does not start with white space |
| `Search.TrimEnd` | src/app/components/search/search.component.ts:48 | the result is a prefix of the input, everything dropped is white space, and it does not end with white space |
| `Search.Trim` | src/app/components/search/search.component.ts:48 | `value.trim()` is an infix with only white space before and after it, and it neither starts nor ends with white space |
| `Search.TrimEmptyIffAllWhiteSpace` | src/app/components/search/search.component.ts:48 | `value.trim().length > 0` exactly when the value has a non-white-space character |
| `Search.IsBlank` | src/app/components/search/search.component.ts:48 | the handler's test `!(value && value.trim().length > 0)` holds exactly when the value is null or only white space (the empty string included) |
| `Search.DistinctUntilChanged` | src/app/components/search/search.component.ts:47 | no value passed on equals the one before it, and the first one differs from the last value passed on earlier |
| `Search.DistinctIsSubsequence` | src/app/components/search/search.component.ts:47 | `distinctUntilChanged` only drops values and keeps the order of the rest |
| `Search.DistinctSnoc` | src/app/components/search/search.component.ts:47 | a new settled value is passed on exactly when it differs from the previous settled value |
| `Search.RunPassesOnce` | src/app/components/search/search.component.ts:47 | a run of equal settled values reaches the handler at most once |
| `Search.DistinctOfDistinct` | src/app/components/search/search.component.ts:47 | values with no equal neighbours pass unchanged, so applying the operator twice is the same as once |
| `Search.SearchComponent.constructor` | src/app/components/search/search.component.ts:40-56 | empty input and results, not loading, no search made |
| `Search.SearchComponent.Input` | src/app/components/search/search.component.ts:40 | typing changes only the control's value |
| `Search.SearchComponent.OnSettled` | src/app/components/search/search.component.ts:47-55 | only the control's current value can settle; a repeat of the last value passed on changes nothing; a blank value empties both lists and clears `hasSearched` with no call; any other value starts the search pair for the untrimmed value; the values handled are always `DistinctUntilChanged` of all settled values |
| `Search.SearchComponent.PerformSearch` | src/app/components/search/search.component.ts:58-83 | `loading` and `hasSearched` are true before any response, and both searches are issued for the query |
| `Search.SearchComponent.OnBooksResponse` | src/app/components/search/search.component.ts:62-72 | either outcome sets `loading` false; success replaces `books`, failure keeps them and shows one message |
| `Search.SearchComponent.OnAuthorsResponse` | src/app/components/search/search.component.ts:74-82 | `loading` is never touched; success replaces `authors`, failure keeps them |
| `Search.SearchComponent.ClearSearch` | src/app/components/search/search.component.ts:85-90 | the input becomes `''`, both lists empty and `hasSearched` false; `loading` is left as it was |
| `Search.SettleTwice` | src/app/components/search/search.component.ts:47-49 | the same value settling twice issues the search pair at most once, for the untrimmed value, and none when blank |
| `Search.SearchAgainAfterClear` | src/app/components/search/search.component.ts:47-55 | after `clearSearch` and once its `''` settles, typing the same query again searches again |
| `Search.RetypeBeforeClearSettles` | src/app/components/search/search.component.ts:47-55 | if the same query is typed again before the `''` from `clearSearch` settles, no second search goes out |
| `Search.ResponseAfterClear` | src/app/components/search/search.component.ts:62-90 | a books response that arrives after `clearSearch` fills `books` again while `hasSearched` is false |
| `Language.IsSupported` | src/app/services/language.service.ts:25 | `AVAILABLE_LANGUAGES.includes(code)`: the code is `en` or `ro` |
| `Language.SavedLanguage` | src/app/services/language.service.ts:45-47 | the stored code when one is stored and non-empty, `'en'` otherwise |
| `Language.InitialLanguage` | src/app/services/language.service.ts:24-25 | always supported; the stored code when it is supported, `'en'` otherwise |
| `Language.CurrentOrDefault` | src/app/services/language.service.ts:38 | the translator's current language when set and non-empty, else `'en'` |
| `Language.LanguageName` | src/app/services/language.service.ts:49-55 | `en` is English, `ro` is Română, and the name equals the code exactly for unsupported codes |
| `Language.LanguageFlag` | src/app/services/language.service.ts:57-63 | `en` and `ro` have their flags; the globe is returned exactly for unsupported codes |
| `Language.SetLanguageEffect` | src/app/services/language.service.ts:30-35 | a supported code becomes current and is stored under `todl-language`; an unsupported code changes nothing |
| `Language.SetLanguageIdempotent` | src/app/services/language.service.ts:30-35 | setting a language twice leaves the same state as setting it once |
| `Language.PreferenceSurvivesReload` | src/app/services/language.service.ts:24-33 | after `setLanguage(lang)` for a supported `lang`, initialisation over the same storage picks `lang` |
| `Language.InitializationIsStable` | src/app/services/language.service.ts:16-28 | initialising again over the storage an initialisation left changes nothing |
| `Language.LanguageService.constructor` | src/app/services/language.service.ts:12-14 | after construction the current language is supported, is what initialisation picks from storage, and is stored |
| `Language.LanguageService.InitializeLanguage` | src/app/services/language.service.ts:16-28 | registers `en` and `ro`, sets the default `en`, and applies the saved supported language or `en` |
| `Language.LanguageService.SetLanguage` | src/app/services/language.service.ts:30-35 | the state moves by `SetLanguageEffect`; the service stays consistent |
| `Language.LanguageService.GetCurrentLanguage` | src/app/services/language.service.ts:37-39 | never empty; once initialised it is the supported, stored current language |
| `Language.LanguageService.GetAvailableLanguages` | src/app/services/language.service.ts:41-43 | `['en', 'ro']` |
| `Language.ReloadAfterSetLanguage` | src/app/services/language.service.ts:24-33 | choosing a supported language and reloading brings back that language |
| `Language.SetUnsupportedLanguage` | src/app/services/language.service.ts:30-35 | an unsupported code leaves the current language as initialisation chose it |
| `LanguageSwitcher.LanguageSwitcherComponent.constructor` | src/app/components/language-switcher/language-switcher.component.ts:54-57 | the menu lists the service's languages and shows its current language |
| `LanguageSwitcher.LanguageSwitcherComponent.SwitchLanguage` | src/app/components/language-switcher/language-switcher.component.ts:59-62 | the component always records `lang`; the service moves by `SetLanguageEffect`; the two agree exactly when `lang` is supported |
| `LanguageSwitcher.LanguageSwitcherComponent.GetCurrentFlag` | src/app/components/language-switcher/language-switcher.component.ts:64-66 | the flag of the component's own current language |
| `LanguageSwitcher.SwitchToSupported` | src/app/components/language-switcher/language-switcher.component.ts:59-66 | a supported choice is shown, used by the service, and has a real flag |
| `LanguageSwitcher.SwitchToUnsupported` | src/app/components/language-switcher/language-switcher.component.ts:59-66 | an unsupported code is shown with the globe while the service keeps its language |
| `AuthInterceptor.StartsWith` | src/app/interceptors/auth.interceptor.ts:27 | `url.startsWith(prefix)`: the prefix is the URL's first characters |
| `AuthInterceptor.SomePrefixOf` | src/app/interceptors/auth.interceptor.ts:27 | true exactly when the URL starts with one of the prefixes |
| `AuthInterceptor.ShouldSkip` | src/app/interceptors/auth.interceptor.ts:26-28 | true exactly when the URL begins with `/locale/` |
| `AuthInterceptor.LocaleFilesAreSkipped` | src/app/interceptors/auth.interceptor.ts:6 | every `/locale/messages.<lang>.json` request is skipped |
| `AuthInterceptor.OnlyRootRelativeUrlsAreSkipped` | src/app/interceptors/auth.interceptor.ts:27 | a URL not beginning with `/`, such as an absolute API URL, is never skipped, wherever `/locale/` occurs in it |
| `AuthInterceptor.Intercept` | src/app/interceptors/auth.interceptor.ts:8-24 | a skipped request is forwarded unchanged and no token is requested; any other is forwarded only when a token arrives, as a copy with the same URL and headers plus `Authorization: Bearer <first token>` |
| `AuthInterceptor.BearerToken` | src/app/interceptors/auth.interceptor.ts:18 | the token is what follows `Bearer ` in the header |
| `AuthInterceptor.AttachedTokenIsFirst` | src/app/interceptors/auth.interceptor.ts:13-21 | the attached header reads back as the first emitted token, whatever later emissions are |
| `Forms.IsEmptyInputValue` | src/app/components/books/book-form.component.ts:50 | `Validators.required` fails exactly for null and the empty string; white space and numbers pass |
| `Forms.OfText` | src/app/components/books/book-form.component.ts:87-94 | a missing optional text leaves the control null; a present one leaves its text |
| `Forms.OfNumber` | src/app/components/books/book-form.component.ts:87-94 | a missing optional number leaves the control null; a present one leaves the number |
| `BookForm.IsValid` | src/app/components/books/book-form.component.ts:49-56 | `bookForm.valid`: title and author id pass `Validators.required`; the other four fields are free |
| `BookForm.Patched` | src/app/components/books/book-form.component.ts:87-94 | the patched form's title and author id are the book's |
| `BookForm.PatchKeepsExactlyEditableFields` | src/app/components/books/book-form.component.ts:87-94 | two books patch to the same form exactly when their six editable fields agree |
| `BookForm.LoadedBookIsValidIff` | src/app/components/books/book-form.component.ts:49-56 | a loaded book's form is valid exactly when the book has a title and an author id |
| `BookForm.InitialFormIsInvalid` | src/app/components/books/book-form.component.ts:49-56 | the blank form is invalid; white space and the number 0 satisfy the required check |
| `BookForm.BookFormComponent.constructor` | src/app/components/books/book-form.component.ts:42-57 | empty form, no authors, `loading` true, create mode |
| `BookForm.BookFormComponent.NgOnInit` | src/app/components/books/book-form.component.ts:59-70 | the authors are always loaded; edit mode and `bookId` follow `EditId` of the route; edit mode loads the book; `loading` ends false |
| `BookForm.BookFormComponent.LoadAuthors` | src/app/components/books/book-form.component.ts:72-82 | `authors` is replaced only on success |
| `BookForm.BookFormComponent.LoadBook` | src/app/components/books/book-form.component.ts:84-103 | success patches the six editable fields; either outcome sets `loading` false |
| `BookForm.BookFormComponent.Edit` | src/app/components/books/book-form.component.ts:42 | user input changes only the form value |
| `BookForm.BookFormComponent.OnSubmit` | src/app/components/books/book-form.component.ts:105-127 | an invalid form changes nothing; a valid one sends `updateBook(bookId, value)` in edit mode or `createBook(value)`; success keeps `loading` and navigates to `/books`; failure lowers `loading` and stays |
| `BookForm.BookFormComponent.OnCancel` | src/app/components/books/book-form.component.ts:129-131 | navigates to `/books` and changes nothing else |
| `BookForm.SaveUnchangedEdit` | src/app/components/books/book-form.component.ts:105-112 | saving an unchanged edit sends back the loaded book's editable fields when it has a title and an author id, and nothing otherwise |
| `AuthorForm.IsValid` | src/app/components/authors/author-form.component.ts:45-50 | `authorForm.valid`: the name passes `Validators.required` |
| `AuthorForm.Patched` | src/app/components/authors/author-form.component.ts:66-71 | the patched form's name is the author's |
| `AuthorForm.PatchKeepsExactlyEditableFields` | src/app/components/authors/author-form.component.ts:66-71 | two authors patch to the same form exactly when their four editable fields agree |
| `AuthorForm.LoadedAuthorIsValidIff` | src/app/components/authors/author-form.component.ts:45-50 | a loaded author's form is valid exactly when the name is non-empty |
| `AuthorForm.AuthorFormComponent.constructor` | src/app/components/authors/author-form.component.ts:39-51 | empty form, `loading` false, create mode |
| `AuthorForm.AuthorFormComponent.NgOnInit` | src/app/components/authors/author-form.component.ts:53-60 | edit mode and `authorId` follow `EditId` of the route; edit mode loads the author; create mode changes nothing |
| `AuthorForm.AuthorFormComponent.LoadAuthor` | src/app/components/authors/author-form.component.ts:62-80 | success patches the form; either outcome ends with `loading` false |
| `AuthorForm.AuthorFormComponent.Edit` | src/app/components/authors/author-form.component.ts:39 | user input changes only the form value |
| `AuthorForm.AuthorFormComponent.OnSubmit` | src/app/components/authors/author-form.component.ts:82-104 | an invalid form changes nothing; a valid one sends `updateAuthor(authorId, value)` in edit mode or `createAuthor(value)`; success navigates to `/authors`; failure lowers `loading` |
| `AuthorForm.AuthorFormComponent.OnCancel` | src/app/components/authors/author-form.component.ts:106-108 | navigates to `/authors` and changes nothing else |
| `AuthorForm.SubmitBlankNewAuthor` | src/app/components/authors/author-form.component.ts:53-83 | submitting a blank new-author form sends nothing and `loading` stays false |
| `AuthorForm.SaveUnchangedEdit` | src/app/components/authors/author-form.component.ts:82-89 | saving an unchanged edit sends back the loaded author's editable fields when the name is non-empty |
| `CollectionForm.IsValid` | src/app/components/collections/collection-form.component.ts:41-44 | `collectionForm.valid`: the name passes `Validators.required` |
| `CollectionForm.Patched` | src/app/components/collections/collection-form.component.ts:61-64 | the patched form's name is the collection's |
| `CollectionForm.PatchKeepsOnlyNameAndDescription` | src/app/components/collections/collection-form.component.ts:61-64 | two collections patch to the same form exactly when name and description agree |
| `CollectionForm.CollectionFormComponent.constructor` | src/app/components/collections/collection-form.component.ts:35-45 | empty form, `loading` true, create mode |
| `CollectionForm.CollectionFormComponent.NgOnInit` | src/app/components/collections/collection-form.component.ts:47-56 | edit mode and `collectionId` follow `EditId` of the route; edit mode loads the collection; `loading` ends false |
| `CollectionForm.CollectionFormComponent.LoadCollection` | src/app/components/collections/collection-form.component.ts:58-73 | success patches name and description; either outcome sets `loading` false |
| `CollectionForm.CollectionFormComponent.Edit` | src/app/components/collections/collection-form.component.ts:35 | user input changes only the form value |
| `CollectionForm.CollectionFormComponent.OnSubmit` | src/app/components/collections/collection-form.component.ts:75-97 | an invalid form changes nothing; a valid one sends `updateCollection(collectionId, value)` in edit mode or `createCollection(value)`; success navigates to `/collections`; failure lowers `loading` |
| `CollectionForm.CollectionFormComponent.OnCancel` | src/app/components/collections/collection-form.component.ts:99-101 | navigates to `/collections` and changes nothing else |
| `CollectionForm.SaveUnchangedEdit` | src/app/components/collections/collection-form.component.ts:75-82 | saving an unchanged edit sends back the loaded name and description when the name is non-empty |

## Left out

- Timing: the 400 ms debounce is not modelled. The search model receives the values that outlived it.
- `Search.SearchComponent.OnSettled` and `Search.SearchComponent.ClearSearch`: the caller says when the control's value settles. The `''` that `clearSearch` writes into the control reaches `distinctUntilChanged` only when the caller settles it. Whether it settles depends on whether the user types again within 400 ms, and that timing is left to the caller. `Search.SearchAgainAfterClear` and `Search.RetypeBeforeClearSettles` show both orders.
- Pending requests: a response is applied in the same method that issues the request, except on the search screen. So the window in which `loading` is true while a load is pending, and the arrival order of the concurrent loads started by `ngOnInit`, are not modelled. The order of their messages in `notices` is one possible order.
- Transport, URLs and HTTP verbs: `src/app/services/api.service.ts` is reduced to the `Call` values and `Outcome` responses. The list and detail screens, the auth guard, navigation, home, the translate loader and the application wiring are not part of this model. They only delegate to the API, the router or the identity provider.
- `src/app/models/author.model.ts` is not part of this model. The `Author` record carries the fields the author form reads.
- Numeric coercion: route ids are assumed to be decimal digit strings where `+id` is applied. `NaN`, signs, exponents and surrounding white space are not modelled. This is why the `NgOnInit` methods require `Routing.IsDecimal` of a route parameter that selects edit mode.
- Object-literal lookups: `names[code]` and `flags[code]` also find inherited `Object.prototype` members, so a code such as `'toString'` would yield a function. `Language.LanguageName` and `Language.LanguageFlag` treat every code other than `en` and `ro` as absent.
- The translator: `translate.use` is taken to set the current language at once. The library's deferred switch while a translation file loads is not modelled. The translator is assumed fresh when the service is built.
- Header names: HTTP header names are case-insensitive, but `AuthInterceptor.Intercept` keys headers by their exact spelling.
- Token errors: `AuthInterceptor.Intercept` reports a failed token fetch as `Failed` without modelling the error value.
- Snackbar durations, the `console.error` output and the template bindings are not modelled. The book picker's binding is the `SelectBook` method and form typing is the `Edit` methods.
- `CollectionDetail.CollectionDetailComponent.RemoveBook`: the success message is recorded before the re-fetch's outcome. This matches the source, which opens the snackbar before the re-fetch responds.
