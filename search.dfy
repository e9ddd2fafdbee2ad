/**
 * The search screen (SearchComponent). The input's value changes pass
 * through a 400 ms debounce and `distinctUntilChanged` before the handler
 * sees them. The model is told when the control's current value outlives
 * the debounce (it "settles") and keeps the de-duplication itself.
 */
module Search {
  import opened Wrappers
  import opened Models
  import opened Api
  import opened Sequences

  const ErrorSearchingBooks := "Error searching books"
  const ErrorSearchingAuthors := "Error searching authors"

  /** The code points ECMAScript's `String.prototype.trim` removes (WhiteSpace and LineTerminator). */
  predicate IsWhiteSpace(c: char)
  {
    c == '\t' || c == '\n' || c == '\U{000B}' || c == '\U{000C}' || c == '\r' || c == ' '
    || c == '\U{00A0}' || c == '\U{1680}' || ('\U{2000}' <= c <= '\U{200A}')
    || c == '\U{2028}' || c == '\U{2029}' || c == '\U{202F}' || c == '\U{205F}'
    || c == '\U{3000}' || c == '\U{FEFF}'
  }

  predicate AllWhiteSpace(s: string)
  {
    forall i :: 0 <= i < |s| ==> IsWhiteSpace(s[i])
  }

  /** `s.trimStart()`: the suffix left once the leading white space is dropped. */
  function TrimStart(s: string): (r: string)
    ensures |r| <= |s| && r == s[|s| - |r|..]
    ensures forall i :: 0 <= i < |s| - |r| ==> IsWhiteSpace(s[i])
    ensures r != [] ==> !IsWhiteSpace(r[0])
  {
    if s != [] && IsWhiteSpace(s[0]) then
      assert forall i :: 1 <= i < |s| ==> s[i] == s[1..][i - 1];
      TrimStart(s[1..])
    else s
  }

  /** `s.trimEnd()`: the prefix left once the trailing white space is dropped. */
  function TrimEnd(s: string): (r: string)
    ensures |r| <= |s| && r == s[..|r|]
    ensures forall i :: |r| <= i < |s| ==> IsWhiteSpace(s[i])
    ensures r != [] ==> !IsWhiteSpace(r[|r| - 1])
  {
    if s != [] && IsWhiteSpace(s[|s| - 1]) then
      assert forall i :: 0 <= i < |s| - 1 ==> s[i] == s[..|s| - 1][i];
      TrimEnd(s[..|s| - 1])
    else s
  }

  /** `r` sits at offset `k` of `s`, with only white space before and after it. */
  predicate TrimmedAt(s: string, r: string, k: int)
  {
    0 <= k <= |s| - |r| && r == s[k..k + |r|]
    && (forall i :: 0 <= i < k ==> IsWhiteSpace(s[i]))
    && (forall i :: k + |r| <= i < |s| ==> IsWhiteSpace(s[i]))
  }

  /**
   * `s.trim()`: the infix of `s` between a white-space prefix and a
   * white-space suffix that neither starts nor ends with white space.
   */
  function Trim(s: string): (r: string)
    ensures r != [] ==> !IsWhiteSpace(r[0]) && !IsWhiteSpace(r[|r| - 1])
    ensures exists k :: TrimmedAt(s, r, k)
  {
    var t := TrimStart(s);
    var r := TrimEnd(t);
    TrimmedAtJoin(s, t, r);
    r
  }

  /** Dropping white space from the front and then from the back leaves an infix framed by white space. */
  lemma TrimmedAtJoin(s: string, t: string, r: string)
    requires |t| <= |s| && t == s[|s| - |t|..]
    requires forall i :: 0 <= i < |s| - |t| ==> IsWhiteSpace(s[i])
    requires |r| <= |t| && r == t[..|r|]
    requires forall i :: |r| <= i < |t| ==> IsWhiteSpace(t[i])
    requires t != [] ==> !IsWhiteSpace(t[0])
    requires r != [] ==> !IsWhiteSpace(r[|r| - 1])
    ensures TrimmedAt(s, r, |s| - |t|)
    ensures r != [] ==> !IsWhiteSpace(r[0]) && !IsWhiteSpace(r[|r| - 1])
  {
    assert r != [] ==> r[0] == t[0];
    var k := |s| - |t|;
    assert r == s[k..k + |r|];
    assert forall i :: k + |r| <= i < |s| ==> s[i] == t[i - k];
  }

  /** `value.trim().length > 0` holds exactly when the value has a character that is not white space. */
  lemma TrimEmptyIffAllWhiteSpace(s: string)
    ensures |Trim(s)| == 0 <==> AllWhiteSpace(s)
  {
    var r := Trim(s);
    var k :| TrimmedAt(s, r, k);
    if r != [] {
      assert s[k] == r[0];
    }
  }

  /**
   * The handler's test `!(value && value.trim().length > 0)`: blank exactly
   * when the value is null or has no character other than white space.
   */
  function IsBlank(v: Option<string>): (r: bool)
    ensures r <==> v.None? || AllWhiteSpace(v.value)
  {
    if v.None? then true
    else
      TrimEmptyIffAllWhiteSpace(v.value);
      v.value == "" || |Trim(v.value)| == 0
  }

  /** The last value seen: the last of `vs`, or `prev` when `vs` is empty. */
  function LastOf<T>(prev: Option<T>, vs: seq<T>): Option<T>
  {
    if vs == [] then prev else Some(vs[|vs| - 1])
  }

  /**
   * `distinctUntilChanged()`: the values of `vs` that differ from the value
   * before them, `prev` being the last value the operator let through.
   */
  function DistinctUntilChanged<T(==)>(prev: Option<T>, vs: seq<T>): (r: seq<T>)
    ensures r != [] ==> prev != Some(r[0])
    ensures forall i :: 0 < i < |r| ==> r[i - 1] != r[i]
    decreases |vs|
  {
    if vs == [] then []
    else if prev == Some(vs[0]) then DistinctUntilChanged(prev, vs[1..])
    else [vs[0]] + DistinctUntilChanged(Some(vs[0]), vs[1..])
  }

  /** The operator only drops values. */
  lemma {:induction false} DistinctIsSubsequence<T>(prev: Option<T>, vs: seq<T>)
    ensures IsSubsequence(DistinctUntilChanged(prev, vs), vs)
    decreases |vs|
  {
    if vs != [] {
      if prev == Some(vs[0]) {
        DistinctIsSubsequence(prev, vs[1..]);
      } else {
        DistinctIsSubsequence(Some(vs[0]), vs[1..]);
        var r := DistinctUntilChanged(prev, vs);
        assert r[0] == vs[0] && r[1..] == DistinctUntilChanged(Some(vs[0]), vs[1..]);
      }
    }
  }

  /** One more settled value is let through exactly when it differs from the last one. */
  lemma {:induction false} DistinctSnoc<T>(prev: Option<T>, vs: seq<T>, v: T)
    ensures DistinctUntilChanged(prev, vs + [v])
         == DistinctUntilChanged(prev, vs) + (if LastOf(prev, vs) == Some(v) then [] else [v])
    decreases |vs|
  {
    if vs == [] {
      assert vs + [v] == [v];
    } else {
      assert (vs + [v])[0] == vs[0] && (vs + [v])[1..] == vs[1..] + [v];
      if prev == Some(vs[0]) {
        DistinctSnoc(prev, vs[1..], v);
      } else {
        DistinctSnoc(Some(vs[0]), vs[1..], v);
      }
      assert LastOf(if prev == Some(vs[0]) then prev else Some(vs[0]), vs[1..]) == LastOf(prev, vs);
    }
  }

  /** A run of equal settled values reaches the handler at most once. */
  lemma {:induction false} RunPassesOnce<T>(prev: Option<T>, v: T, n: nat, vs: seq<T>)
    requires n >= 1
    ensures DistinctUntilChanged(prev, seq(n, _ => v) + vs)
         == (if prev == Some(v) then [] else [v]) + DistinctUntilChanged(Some(v), vs)
    decreases n
  {
    var run := seq(n, _ => v) + vs;
    assert run[0] == v;
    if n == 1 {
      assert run[1..] == vs;
    } else {
      assert run[1..] == seq(n - 1, _ => v) + vs;
      RunPassesOnce(Some(v), v, n - 1, vs);
    }
  }

  /** Values with no two equal neighbours pass through unchanged, so applying the operator twice is the same as once. */
  lemma {:induction false} DistinctOfDistinct<T>(prev: Option<T>, vs: seq<T>)
    requires vs != [] ==> prev != Some(vs[0])
    requires forall i :: 0 < i < |vs| ==> vs[i - 1] != vs[i]
    ensures DistinctUntilChanged(prev, vs) == vs
    decreases |vs|
  {
    if vs != [] {
      DistinctOfDistinct(Some(vs[0]), vs[1..]);
      assert [vs[0]] + vs[1..] == vs;
    }
  }

  class SearchComponent {
    /** The search input's value (`searchControl.value`); the control allows null. */
    var controlValue: Option<string>
    var books: seq<Book>
    var authors: seq<Author>
    var loading: bool
    var hasSearched: bool
    /** The last value `distinctUntilChanged` let through. */
    var lastSettled: Option<Option<string>>
    var calls: seq<Call>
    var notices: seq<string>
    /** Every settled value, and the ones the handler ran for. */
    ghost var settled: seq<Option<string>>
    ghost var handled: seq<Option<string>>

    ghost predicate Valid()
      reads this
    {
      handled == DistinctUntilChanged(None, settled) && lastSettled == LastOf(None, settled)
    }

    constructor ()
      ensures Valid()
      ensures controlValue == Some("") && books == [] && authors == []
      ensures !loading && !hasSearched && calls == [] && notices == []
      ensures settled == [] && handled == []
    {
      controlValue := Some("");
      books, authors := [], [];
      loading, hasSearched := false, false;
      lastSettled := None;
      calls, notices := [], [];
      settled, handled := [], [];
    }

    /** The user types: the control's value changes; nothing else does until the value settles. */
    method Input(v: Option<string>)
      modifies this
      ensures controlValue == v
      ensures books == old(books) && authors == old(authors) && loading == old(loading)
      ensures hasSearched == old(hasSearched) && lastSettled == old(lastSettled)
      ensures calls == old(calls) && notices == old(notices)
      ensures settled == old(settled) && handled == old(handled)
    {
      controlValue := v;
    }

    /**
     * The control's value settles after the debounce. A repeat of the last value passed
     * on is dropped; otherwise a blank value clears the results without a
     * search and any other value starts a search for it, untrimmed.
     */
    method OnSettled(v: Option<string>)
      requires Valid() && v == controlValue
      modifies this
      ensures Valid()
      ensures settled == old(settled) + [v]
      ensures old(lastSettled) == Some(v) ==>
        && handled == old(handled)
        && books == old(books) && authors == old(authors)
        && loading == old(loading) && hasSearched == old(hasSearched) && calls == old(calls)
      ensures old(lastSettled) != Some(v) ==> handled == old(handled) + [v]
      ensures old(lastSettled) != Some(v) && IsBlank(v) ==>
        && books == [] && authors == [] && !hasSearched
        && loading == old(loading) && calls == old(calls)
      ensures old(lastSettled) != Some(v) && !IsBlank(v) ==>
        && loading && hasSearched
        && calls == old(calls) + [SearchBooks(v.value), SearchAuthors(v.value)]
        && books == old(books) && authors == old(authors)
      ensures controlValue == old(controlValue) && notices == old(notices)
    {
      DistinctSnoc(None, settled, v);
      settled := settled + [v];
      if lastSettled != Some(v) {
        lastSettled := Some(v);
        handled := handled + [v];
        if !IsBlank(v) {
          PerformSearch(v.value);
        } else {
          books := [];
          authors := [];
          hasSearched := false;
        }
      }
    }

    /** `performSearch(query)`: both searches go out; `loading` and `hasSearched` are raised before any response. */
    method PerformSearch(query: string)
      modifies this
      ensures loading && hasSearched
      ensures calls == old(calls) + [SearchBooks(query), SearchAuthors(query)]
      ensures books == old(books) && authors == old(authors) && controlValue == old(controlValue)
      ensures lastSettled == old(lastSettled) && notices == old(notices)
      ensures settled == old(settled) && handled == old(handled)
    {
      loading := true;
      hasSearched := true;
      calls := calls + [SearchBooks(query), SearchAuthors(query)];
    }

    /** The books search's response: either outcome lowers `loading`; only a success replaces `books`. */
    method OnBooksResponse(outcome: Outcome<seq<Book>>)
      modifies this
      ensures !loading
      ensures books == (if outcome.Success? then outcome.payload else old(books))
      ensures notices == old(notices) + (if outcome.Failure? then [ErrorSearchingBooks] else [])
      ensures authors == old(authors) && hasSearched == old(hasSearched) && calls == old(calls)
      ensures controlValue == old(controlValue) && lastSettled == old(lastSettled)
      ensures settled == old(settled) && handled == old(handled)
    {
      match outcome
      case Success(found) =>
        books := found;
        loading := false;
      case Failure =>
        notices := notices + [ErrorSearchingBooks];
        loading := false;
    }

    /** The authors search's response: never touches `loading`; only a success replaces `authors`. */
    method OnAuthorsResponse(outcome: Outcome<seq<Author>>)
      modifies this
      ensures authors == (if outcome.Success? then outcome.payload else old(authors))
      ensures notices == old(notices) + (if outcome.Failure? then [ErrorSearchingAuthors] else [])
      ensures loading == old(loading) && books == old(books) && hasSearched == old(hasSearched)
      ensures calls == old(calls) && controlValue == old(controlValue) && lastSettled == old(lastSettled)
      ensures settled == old(settled) && handled == old(handled)
    {
      match outcome
      case Success(found) =>
        authors := found;
      case Failure =>
        notices := notices + [ErrorSearchingAuthors];
    }

    /** `clearSearch()`: empties the input and both result lists and forgets that a search was made. */
    method ClearSearch()
      modifies this
      ensures controlValue == Some("") && books == [] && authors == [] && !hasSearched
      ensures loading == old(loading) && calls == old(calls) && notices == old(notices)
      ensures lastSettled == old(lastSettled) && settled == old(settled) && handled == old(handled)
    {
      controlValue := Some("");
      books := [];
      authors := [];
      hasSearched := false;
    }
  }

  /** The same value settling twice in a row reaches the API at most once, and untrimmed. */
  method SettleTwice(v: string) returns (sent: seq<Call>)
    ensures sent == if IsBlank(Some(v)) then [] else [SearchBooks(v), SearchAuthors(v)]
  {
    var component := new SearchComponent();
    component.Input(Some(v));
    component.OnSettled(Some(v));
    component.OnSettled(Some(v));
    sent := component.calls;
  }

  /**
   * `clearSearch` empties the input, and once that `''` settles the same
   * query typed again is searched again: the blank value in between resets
   * `distinctUntilChanged`.
   */
  method SearchAgainAfterClear(query: string) returns (sent: seq<Call>)
    requires !IsBlank(Some(query))
    ensures sent == [SearchBooks(query), SearchAuthors(query), SearchBooks(query), SearchAuthors(query)]
  {
    var component := new SearchComponent();
    component.Input(Some(query));
    component.OnSettled(Some(query));
    component.ClearSearch();
    component.OnSettled(Some(""));
    component.Input(Some(query));
    component.OnSettled(Some(query));
    sent := component.calls;
  }

  /**
   * When the query is typed again before the `''` left by `clearSearch`
   * settles, the debounce swallows the `''` and the repeat is dropped.
   */
  method RetypeBeforeClearSettles(query: string) returns (sent: seq<Call>)
    requires !IsBlank(Some(query))
    ensures sent == [SearchBooks(query), SearchAuthors(query)]
  {
    var component := new SearchComponent();
    component.Input(Some(query));
    component.OnSettled(Some(query));
    component.ClearSearch();
    component.Input(Some(query));
    component.OnSettled(Some(query));
    sent := component.calls;
  }

  /**
   * With no cancellation, a books response that arrives after `clearSearch`
   * fills the list again while the screen says no search was made.
   */
  method ResponseAfterClear(query: string, found: seq<Book>) returns (books: seq<Book>, hasSearched: bool, loading: bool)
    requires !IsBlank(Some(query))
    ensures books == found && !hasSearched && !loading
  {
    var component := new SearchComponent();
    component.Input(Some(query));
    component.OnSettled(Some(query));
    component.ClearSearch();
    component.OnBooksResponse(Success(found));
    books, hasSearched, loading := component.books, component.hasSearched, component.loading;
  }
}
