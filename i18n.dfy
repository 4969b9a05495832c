/** Locale negotiation at start-up (`boot/i18n.ts`): a saved choice wins
    when it names a supported locale; otherwise the browser's preferred
    languages are tried in order, each first by exact match and then by the
    text before its first '-' as a prefix of a supported locale; failing
    all that, the default locale. `setLocale` switches the running locale
    and saves the choice for the next start. */
module Locale {
  import opened Common

  const LocaleStorageKey: string := "user-locale"
  const SupportedLocales: seq<string> := ["en-US", "ru-RU"]
  const DefaultLocale: string := "en-US"

  /** `lang.split('-')[0]`: the text before the first '-', or all of `lang`
      when it has none. */
  function PrefixBeforeDash(lang: string): (p: string)
    ensures p <= lang
    ensures '-' !in p
    ensures |p| < |lang| ==> lang[|p|] == '-'
  {
    if lang == "" || lang[0] == '-' then ""
    else [lang[0]] + PrefixBeforeDash(lang[1..])
  }

  /** `locales.find(l => l.startsWith(prefix))`: the first locale that
      begins with `prefix`. */
  function FindStartingWith(locales: seq<string>, prefix: string): (r: Option<string>)
    ensures r.None? <==> forall k :: 0 <= k < |locales| ==> !(prefix <= locales[k])
    ensures r.Some? ==> r.value in locales && prefix <= r.value
    ensures |locales| > 0 && prefix <= locales[0] ==> r == Some(locales[0])
  {
    if locales == [] then None
    else if prefix <= locales[0] then Some(locales[0])
    else
      assert forall k :: 1 <= k < |locales| ==> locales[k] == locales[1..][k - 1];
      FindStartingWith(locales[1..], prefix)
  }

  /** `find` returns the first qualifying locale: when locale `i` begins
      with the prefix and no earlier one does, the result is locale `i`. */
  lemma {:induction false} FindStartingWithFirst(locales: seq<string>, prefix: string, i: nat)
    requires i < |locales| && prefix <= locales[i]
    requires forall k :: 0 <= k < i ==> !(prefix <= locales[k])
    ensures FindStartingWith(locales, prefix) == Some(locales[i])
    decreases i
  {
    if i > 0 {
      assert !(prefix <= locales[0]);
      FindStartingWithFirst(locales[1..], prefix, i - 1);
    }
  }

  /** What one browser language selects: itself when it is supported,
      else the first supported locale its prefix begins. */
  function MatchLanguage(lang: string): (r: Option<string>)
    ensures r.Some? ==> r.value in SupportedLocales
    ensures lang in SupportedLocales ==> r == Some(lang)
  {
    if lang in SupportedLocales then Some(lang)
    else FindStartingWith(SupportedLocales, PrefixBeforeDash(lang))
  }

  /** What the first language that selects anything selects. */
  function FirstMatch(langs: seq<string>): (r: Option<string>)
    ensures r.Some? ==> r.value in SupportedLocales
    ensures r.None? <==> forall k :: 0 <= k < |langs| ==> MatchLanguage(langs[k]).None?
  {
    if langs == [] then None
    else
      assert forall k :: 1 <= k < |langs| ==> langs[k] == langs[1..][k - 1];
      match MatchLanguage(langs[0])
      case Some(l) => Some(l)
      case None => FirstMatch(langs[1..])
  }

  /** `navigator.languages || [navigator.language]`: the single language is
      used only when the list is missing; an empty list is kept, since an
      array is truthy even when empty. */
  function BrowserLanguages(languages: Option<seq<string>>, language: string): (r: seq<string>)
    ensures languages.None? ==> r == [language]
    ensures languages.Some? ==> r == languages.value
    ensures languages == Some([]) ==> r == []
  {
    if languages.Some? then languages.value else [language]
  }

  /** `localStorage.getItem('user-locale')`: the stored value, or null when
      nothing was stored under that key. */
  function SavedLocale(storage: map<string, string>): (r: Option<string>)
    ensures r.None? <==> LocaleStorageKey !in storage
    ensures r.Some? ==> r.value == storage[LocaleStorageKey]
  {
    if LocaleStorageKey in storage then Some(storage[LocaleStorageKey]) else None
  }

  /** The negotiated locale for a saved value and a language list. */
  function Negotiate(saved: Option<string>, langs: seq<string>): (r: string)
    ensures r in SupportedLocales
  {
    if saved.Some? && saved.value != "" && saved.value in SupportedLocales then saved.value
    else
      match FirstMatch(langs)
      case Some(l) => l
      case None => DefaultLocale
  }

  /** `detectBrowserLocale`: the search loop with its early returns. */
  method DetectBrowserLocale(saved: Option<string>, languages: Option<seq<string>>, language: string) returns (r: string)
    ensures r == Negotiate(saved, BrowserLanguages(languages, language))
  {
    if saved.Some? && saved.value != "" && saved.value in SupportedLocales {
      return saved.value;
    }
    var browserLanguages := BrowserLanguages(languages, language);
    var i := 0;
    while i < |browserLanguages|
      invariant 0 <= i <= |browserLanguages|
      invariant FirstMatch(browserLanguages) == FirstMatch(browserLanguages[i..])
    {
      var lang := browserLanguages[i];
      assert browserLanguages[i..][0] == lang && browserLanguages[i..][1..] == browserLanguages[i + 1..];
      if lang in SupportedLocales {
        return lang;
      }
      var langPrefix := PrefixBeforeDash(lang);
      var matchedLocale := FindStartingWith(SupportedLocales, langPrefix);
      if matchedLocale.Some? {
        return matchedLocale.value;
      }
      i := i + 1;
    }
    return DefaultLocale;
  }

  /** A supported saved choice wins whatever the browser prefers; an
      unsupported one is ignored as if nothing were saved. */
  lemma SavedChoice(saved: string, langs: seq<string>)
    ensures saved in SupportedLocales ==> Negotiate(Some(saved), langs) == saved
    ensures saved !in SupportedLocales ==> Negotiate(Some(saved), langs) == Negotiate(None, langs)
  {
  }

  /** Languages are tried in order: the first one that selects a locale
      decides, whatever follows it. */
  lemma {:induction false} FirstSelectingLanguageDecides(before: seq<string>, lang: string, after: seq<string>)
    requires forall k :: 0 <= k < |before| ==> MatchLanguage(before[k]).None?
    requires MatchLanguage(lang).Some?
    ensures FirstMatch(before + [lang] + after) == MatchLanguage(lang)
    decreases |before|
  {
    var all := before + [lang] + after;
    if before == [] {
      assert all[0] == lang;
    } else {
      assert all[0] == before[0];
      assert all[1..] == before[1..] + [lang] + after;
      FirstSelectingLanguageDecides(before[1..], lang, after);
    }
  }

  /** When no language selects anything (or none is given) and nothing
      usable is saved, the result is the default locale. */
  lemma NothingMatchesGivesDefault(saved: Option<string>, langs: seq<string>)
    requires saved.None? || saved.value !in SupportedLocales
    requires forall k :: 0 <= k < |langs| ==> MatchLanguage(langs[k]).None?
    ensures Negotiate(saved, langs) == DefaultLocale
  {
  }

  /** The prefix rule on concrete tags: a regional variant falls back to the
      supported locale of its language, a bare language code finds its
      locale, an empty tag matches the first supported locale (every
      string starts with the empty prefix), and an unknown language selects
      nothing. An exact tag selects itself. */
  lemma PrefixRuleExamples()
    ensures MatchLanguage("en-GB") == Some("en-US")
    ensures MatchLanguage("ru") == Some("ru-RU")
    ensures MatchLanguage("") == Some("en-US")
    ensures MatchLanguage("fr-FR") == None
    ensures MatchLanguage("ru-RU") == Some("ru-RU")
  {
    assert PrefixBeforeDash("en-GB") == "en";
    assert PrefixBeforeDash("ru") == "ru";
    assert PrefixBeforeDash("fr-FR") == "fr";
  }

  /** The running locale and the browser's storage. */
  class I18n {
    var locale: string
    var storage: map<string, string>

    /** The i18n instance is created once, with the detected locale. */
    constructor (storage: map<string, string>, languages: Option<seq<string>>, language: string)
      ensures this.storage == storage
      ensures locale == Negotiate(SavedLocale(storage), BrowserLanguages(languages, language))
    {
      var detectedLocale := DetectBrowserLocale(SavedLocale(storage), languages, language);
      this.storage := storage;
      locale := detectedLocale;
    }

    /** `setLocale`: switch the running locale and save it. */
    method SetLocale(l: string)
      requires l in SupportedLocales
      modifies this
      ensures locale == l
      ensures storage == old(storage)[LocaleStorageKey := l]
    {
      locale := l;
      storage := storage[LocaleStorageKey := l];
    }
  }

  /** A locale saved by `setLocale` is the one the next start detects,
      whatever the browser's languages. */
  lemma SetLocaleRoundTrip(storage: map<string, string>, l: string, langs: seq<string>)
    requires l in SupportedLocales
    ensures Negotiate(SavedLocale(storage[LocaleStorageKey := l]), langs) == l
  {
  }

  /** The same round trip through the methods: set a locale, then start a
      fresh instance over the same storage. */
  method SetThenRestart(storage: map<string, string>, l: string, languages: Option<seq<string>>, language: string)
    returns (restarted: string)
    requires l in SupportedLocales
    ensures restarted == l
  {
    var i18n := new I18n(storage, languages, language);
    i18n.SetLocale(l);
    var next := new I18n(i18n.storage, languages, language);
    restarted := next.locale;
  }
}
