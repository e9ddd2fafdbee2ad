/**
 * The language menu (LanguageSwitcherComponent). It keeps its own copy of
 * the current language, set on every click whether or not the service
 * accepted the code.
 */
module LanguageSwitcher {
  import opened Language

  class LanguageSwitcherComponent {
    const languageService: LanguageService
    var availableLanguages: seq<string>
    var currentLanguage: string

    constructor (service: LanguageService)
      ensures languageService == service
      ensures availableLanguages == service.GetAvailableLanguages()
      ensures currentLanguage == service.GetCurrentLanguage()
    {
      languageService := service;
      availableLanguages := service.GetAvailableLanguages();
      currentLanguage := service.GetCurrentLanguage();
    }

    /** The menu shows the same language as the service. */
    ghost predicate InSync()
      reads this, languageService
    {
      currentLanguage == languageService.GetCurrentLanguage()
    }

    /** `switchLanguage(lang)`: ask the service, then record `lang` regardless. */
    method SwitchLanguage(lang: string)
      requires languageService.Valid()
      modifies this, languageService
      ensures languageService.Valid()
      ensures languageService.State() == SetLanguageEffect(old(languageService.State()), lang)
      ensures currentLanguage == lang && availableLanguages == old(availableLanguages)
      ensures IsSupported(lang) ==> InSync()
      ensures !IsSupported(lang) ==> !InSync()
    {
      languageService.SetLanguage(lang);
      currentLanguage := lang;
    }

    /** `getCurrentFlag()`: the flag of the component's own current language. */
    function GetCurrentFlag(): (r: string)
      reads this
      ensures r == LanguageFlag(currentLanguage)
    {
      LanguageFlag(currentLanguage)
    }
  }

  /** A supported choice keeps the menu and the service in agreement. */
  method SwitchToSupported(storage: map<string, string>, lang: string) returns (shown: string, used: string, flag: string)
    requires IsSupported(lang)
    ensures shown == lang && used == lang && flag == LanguageFlag(lang) && flag != UnknownFlag
  {
    var service := new LanguageService(storage);
    var switcher := new LanguageSwitcherComponent(service);
    switcher.SwitchLanguage(lang);
    shown := switcher.currentLanguage;
    used := service.GetCurrentLanguage();
    flag := switcher.GetCurrentFlag();
  }

  /** An unsupported code is shown by the menu, with the globe flag, while the service keeps its language. */
  method SwitchToUnsupported(storage: map<string, string>, lang: string) returns (shown: string, used: string, flag: string)
    requires !IsSupported(lang)
    ensures shown == lang && used == InitialLanguage(storage) && used != shown
    ensures flag == UnknownFlag
  {
    var service := new LanguageService(storage);
    var switcher := new LanguageSwitcherComponent(service);
    switcher.SwitchLanguage(lang);
    shown := switcher.currentLanguage;
    used := service.GetCurrentLanguage();
    flag := switcher.GetCurrentFlag();
  }
}
