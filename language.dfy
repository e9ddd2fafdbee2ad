/**
 * The language preference (LanguageService): a fixed list of supported
 * codes, the translator's current language and one local-storage entry.
 */
module Language {
  import opened Wrappers

  const StorageKey := "todl-language"
  const DefaultLanguage := "en"
  const AvailableLanguages: seq<string> := ["en", "ro"]
  const EnglishFlag := "\U{1F1EC}\U{1F1E7}"
  const RomanianFlag := "\U{1F1F7}\U{1F1F4}"
  const UnknownFlag := "\U{1F310}"

  predicate IsSupported(code: string)
  {
    code in AvailableLanguages
  }

  /** `getSavedLanguage()`: the stored code, or `'en'` when it is missing or empty. */
  function SavedLanguage(storage: map<string, string>): (r: string)
    ensures r != ""
    ensures StorageKey in storage && storage[StorageKey] != "" ==> r == storage[StorageKey]
    ensures !(StorageKey in storage && storage[StorageKey] != "") ==> r == DefaultLanguage
  {
    if StorageKey in storage && storage[StorageKey] != "" then storage[StorageKey] else DefaultLanguage
  }

  /** The language `initializeLanguage` applies: a supported stored code, else `'en'`. */
  function InitialLanguage(storage: map<string, string>): (r: string)
    ensures IsSupported(r)
    ensures StorageKey in storage && IsSupported(storage[StorageKey]) ==> r == storage[StorageKey]
    ensures !(StorageKey in storage && IsSupported(storage[StorageKey])) ==> r == DefaultLanguage
  {
    var saved := SavedLanguage(storage);
    if saved in AvailableLanguages then saved else DefaultLanguage
  }

  /** `translate.currentLang || 'en'` */
  function CurrentOrDefault(currentLang: Option<string>): (r: string)
    ensures r != ""
    ensures currentLang.Some? && currentLang.value != "" ==> r == currentLang.value
    ensures !(currentLang.Some? && currentLang.value != "") ==> r == DefaultLanguage
  {
    if currentLang.Some? && currentLang.value != "" then currentLang.value else DefaultLanguage
  }

  /** `getLanguageName(code)`: a supported code is named, any other code stands for itself. */
  function LanguageName(code: string): (r: string)
    ensures r == code <==> !IsSupported(code)
    ensures code == "en" ==> r == "English"
    ensures code == "ro" ==> r == "Rom\U{0103}n\U{0103}"
  {
    if code == "en" then "English"
    else if code == "ro" then "Rom\U{0103}n\U{0103}"
    else code
  }

  /** `getLanguageFlag(code)`: a supported code has its flag, any other code the globe. */
  function LanguageFlag(code: string): (r: string)
    ensures r == UnknownFlag <==> !IsSupported(code)
    ensures code == "en" ==> r == EnglishFlag
    ensures code == "ro" ==> r == RomanianFlag
  {
    if code == "en" then EnglishFlag
    else if code == "ro" then RomanianFlag
    else UnknownFlag
  }

  /** What `setLanguage` acts on: the translator's current language and local storage. */
  datatype Preference = Preference(current: Option<string>, storage: map<string, string>)

  /** The effect of `setLanguage(lang)`: a supported code becomes current and is stored; any other code changes nothing. */
  function SetLanguageEffect(p: Preference, lang: string): (q: Preference)
    ensures IsSupported(lang) ==> q.current == Some(lang) && q.storage == p.storage[StorageKey := lang]
    ensures !IsSupported(lang) ==> q == p
  {
    if lang in AvailableLanguages then Preference(Some(lang), p.storage[StorageKey := lang]) else p
  }

  /** Setting the same language twice leaves what setting it once leaves. */
  lemma SetLanguageIdempotent(p: Preference, lang: string)
    ensures SetLanguageEffect(SetLanguageEffect(p, lang), lang) == SetLanguageEffect(p, lang)
  {
    if IsSupported(lang) {
      assert p.storage[StorageKey := lang][StorageKey := lang] == p.storage[StorageKey := lang];
    }
  }

  /** A stored choice survives a reload: initialising over the storage `setLanguage(lang)` left yields `lang`. */
  lemma PreferenceSurvivesReload(p: Preference, lang: string)
    requires IsSupported(lang)
    ensures InitialLanguage(SetLanguageEffect(p, lang).storage) == lang
  {
  }

  /** Initialising twice over the same storage settles on the same language and storage. */
  lemma InitializationIsStable(storage: map<string, string>, current: Option<string>)
    ensures var p := SetLanguageEffect(Preference(current, storage), InitialLanguage(storage));
      InitialLanguage(p.storage) == InitialLanguage(storage)
      && SetLanguageEffect(p, InitialLanguage(p.storage)) == p
  {
    SetLanguageIdempotent(Preference(current, storage), InitialLanguage(storage));
  }

  class LanguageService {
    /** The translator's registered languages, default language and current language. */
    var registered: set<string>
    var defaultLang: Option<string>
    var currentLang: Option<string>
    /** The browser's local storage. */
    var storage: map<string, string>

    function State(): Preference
      reads this
    {
      Preference(currentLang, storage)
    }

    /** Once initialised, the current language is supported and is the stored one. */
    ghost predicate Valid()
      reads this
    {
      currentLang.Some? && IsSupported(currentLang.value)
      && StorageKey in storage && storage[StorageKey] == currentLang.value
    }

    /** The service over a fresh translator and the given local storage. */
    constructor (storage0: map<string, string>)
      ensures Valid()
      ensures currentLang == Some(InitialLanguage(storage0))
      ensures storage == storage0[StorageKey := InitialLanguage(storage0)]
      ensures registered == {"en", "ro"} && defaultLang == Some(DefaultLanguage)
    {
      registered := {};
      defaultLang := None;
      currentLang := None;
      storage := storage0;
      new;
      InitializeLanguage();
    }

    /** `initializeLanguage()`: register the languages, set the default, apply the saved or default language. */
    method InitializeLanguage()
      modifies this
      ensures Valid()
      ensures State() == SetLanguageEffect(old(State()), InitialLanguage(old(storage)))
      ensures registered == old(registered) + {"en", "ro"} && defaultLang == Some(DefaultLanguage)
    {
      registered := registered + {"en", "ro"};
      defaultLang := Some(DefaultLanguage);
      var saved := SavedLanguage(storage);
      var languageToUse := if saved in AvailableLanguages then saved else DefaultLanguage;
      SetLanguage(languageToUse);
    }

    /** `setLanguage(lang)` */
    method SetLanguage(lang: string)
      modifies this
      ensures State() == SetLanguageEffect(old(State()), lang)
      ensures old(Valid()) || IsSupported(lang) ==> Valid()
      ensures registered == old(registered) && defaultLang == old(defaultLang)
    {
      if lang in AvailableLanguages {
        currentLang := Some(lang);
        storage := storage[StorageKey := lang];
      }
    }

    /** `getCurrentLanguage()` */
    function GetCurrentLanguage(): (r: string)
      reads this
      ensures r != ""
      ensures Valid() ==> IsSupported(r) && r == currentLang.value && r == storage[StorageKey]
    {
      CurrentOrDefault(currentLang)
    }

    /** `getAvailableLanguages()` */
    function GetAvailableLanguages(): (r: seq<string>)
      ensures r == ["en", "ro"]
    {
      AvailableLanguages
    }
  }

  /** Choosing a supported language and reloading the page brings that language back. */
  method ReloadAfterSetLanguage(storage: map<string, string>, lang: string) returns (reloaded: string)
    requires IsSupported(lang)
    ensures reloaded == lang
  {
    var service := new LanguageService(storage);
    service.SetLanguage(lang);
    var afterReload := new LanguageService(service.storage);
    reloaded := afterReload.GetCurrentLanguage();
  }

  /** Choosing an unsupported code leaves the current language as initialisation chose it. */
  method SetUnsupportedLanguage(storage: map<string, string>, lang: string) returns (before: string, after: string)
    requires !IsSupported(lang)
    ensures before == InitialLanguage(storage) && after == before
  {
    var service := new LanguageService(storage);
    before := service.GetCurrentLanguage();
    service.SetLanguage(lang);
    after := service.GetCurrentLanguage();
  }
}
