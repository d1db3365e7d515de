/** The language preference provider: a single language cell, initialised from
    the browser's local storage with fallbacks, persisted back to storage and
    mirrored into the document's `lang` attribute after every change.

    The cell holds a `string`, not a `Language`: the value read from storage is
    cast to the two-valued type without any check, so at run time the cell can
    hold any non-empty string that was found in storage. */
module LanguageContext {
  import opened Wrappers

  /** The two supported languages. */
  datatype Language = En | Es

  /** The language code a `Language` is written as, in storage and in `lang`. */
  function Code(l: Language): string
  {
    match l
    case En => "en"
    case Es => "es"
  }

  /** True of exactly the strings that are the code of some `Language`. */
  predicate IsCode(s: string)
  {
    s == "en" || s == "es"
  }

  /** Reads a language code back; `None` for any other string. */
  function Parse(s: string): (r: Option<Language>)
    ensures r.Some? <==> IsCode(s)
    ensures r.Some? ==> Code(r.value) == s
  {
    if s == "en" then Some(En) else if s == "es" then Some(Es) else None
  }

  /** Codes and parsing are inverse to each other. */
  lemma ParseCode(l: Language)
    ensures Parse(Code(l)) == Some(l)
    ensures IsCode(Code(l))
  {
  }

  /** The storage key the preference is persisted under. */
  const LanguageKey: string := "resume-language"

  /** The language used when neither storage nor the caller supplies one. */
  const DefaultLanguage: Language := En

  /** The browser globals the provider touches: the contents of local storage
      and the `lang` attribute of the document's root element. The absence of
      a browser (pre-rendering) is `None` wherever an `Option<Browser>` is
      expected. */
  datatype Browser = Browser(storage: map<string, string>, docLang: string)

  /** The preference found in storage, when a browser is present and the
      stored value is non-empty (the empty string is falsy, like `null`). */
  function StoredPreference(window: Option<Browser>): (r: Option<string>)
    ensures r.Some? ==> r.value != ""
  {
    if window.Some? && LanguageKey in window.value.storage && window.value.storage[LanguageKey] != ""
    then Some(window.value.storage[LanguageKey])
    else None
  }

  /** The lazy initial state of the provider: a non-empty stored string as it
      is, otherwise the caller's `initialLanguage`, otherwise `"en"`. Without
      a browser, storage is not consulted at all. */
  function InitialLanguage(window: Option<Browser>, initialLanguage: Option<Language>): (r: string)
    ensures r != ""
    ensures window.Some? && LanguageKey in window.value.storage && window.value.storage[LanguageKey] != ""
            ==> r == window.value.storage[LanguageKey]
    ensures (window.None? || LanguageKey !in window.value.storage || window.value.storage[LanguageKey] == "")
            ==> r == (if initialLanguage.Some? then Code(initialLanguage.value) else "en")
  {
    var fallback := match initialLanguage
      case Some(l) => Code(l)
      case None => Code(DefaultLanguage);
    match StoredPreference(window)
    case Some(stored) => stored
    case None => fallback
  }

  /** The initial language is a supported code exactly when storage does not
      hold a non-empty string other than a code. */
  lemma InitialLanguageIsCodeUnlessStoredGarbage(window: Option<Browser>, initialLanguage: Option<Language>)
    ensures IsCode(InitialLanguage(window, initialLanguage))
            <==> (StoredPreference(window).None? || IsCode(StoredPreference(window).value))
  {
  }

  /** The change effect: with a browser, writes the language under the storage
      key and into the document's `lang`; without one it does nothing. */
  function ChangeEffect(window: Option<Browser>, language: string): (w: Option<Browser>)
    ensures window.None? ==> w.None?
    ensures window.Some? ==> w.Some?
    ensures window.Some? ==> LanguageKey in w.value.storage && w.value.storage[LanguageKey] == language
    ensures window.Some? ==> w.value.docLang == language
    ensures window.Some? ==> forall k :: k != LanguageKey ==>
              (k in w.value.storage <==> k in window.value.storage) &&
              (k in window.value.storage ==> w.value.storage[k] == window.value.storage[k])
  {
    match window
    case None => None
    case Some(b) => Some(Browser(b.storage[LanguageKey := language], language))
  }

  /** Running the change effect twice with the same language is running it once. */
  lemma ChangeEffectIdempotent(window: Option<Browser>, language: string)
    ensures ChangeEffect(ChangeEffect(window, language), language) == ChangeEffect(window, language)
  {
    if window.Some? {
      var s := window.value.storage;
      assert s[LanguageKey := language][LanguageKey := language] == s[LanguageKey := language];
    }
  }

  /** A mounted provider: the language cell and the browser it writes to. */
  datatype Provider = Provider(language: string, window: Option<Browser>)

  /** The browser reflects the cell: storage and `lang` both hold the language.
      Trivially true without a browser. */
  predicate Synced(p: Provider)
  {
    p.window.Some? ==>
      && LanguageKey in p.window.value.storage
      && p.window.value.storage[LanguageKey] == p.language
      && p.window.value.docLang == p.language
  }

  /** Mounting the provider: the lazy initial state, then the effect, which
      runs once after the first render. */
  function Mount(window: Option<Browser>, initialLanguage: Option<Language>): (p: Provider)
    ensures Synced(p)
    ensures p.language == InitialLanguage(window, initialLanguage)
    ensures p.window.None? <==> window.None?
    ensures p.window == ChangeEffect(window, p.language)
  {
    var language := InitialLanguage(window, initialLanguage);
    Provider(language, ChangeEffect(window, language))
  }

  /** A state update. Setting the value the cell already holds is a no-op
      (no re-render, so the effect keyed on the language does not run);
      otherwise the cell changes and the effect runs. */
  function Commit(p: Provider, next: string): (q: Provider)
    ensures q.language == next
    ensures q.window.None? <==> p.window.None?
    ensures Synced(p) ==> Synced(q)
    ensures next == p.language ==> q == p
    ensures next != p.language ==> q.window == ChangeEffect(p.window, next)
  {
    if next == p.language then p else Provider(next, ChangeEffect(p.window, next))
  }

  /** `setLanguage(lang)`. */
  function SetLanguage(p: Provider, l: Language): (q: Provider)
    ensures q.language == Code(l)
    ensures q.window.None? <==> p.window.None?
    ensures Synced(p) ==> Synced(q)
    ensures Synced(p) && p.window.Some? ==>
              q.window.Some? && LanguageKey in q.window.value.storage
              && q.window.value.storage[LanguageKey] == Code(l)
    ensures Code(l) == p.language ==> q == p
    ensures Code(l) != p.language ==> q.window == ChangeEffect(p.window, Code(l))
  {
    Commit(p, Code(l))
  }

  /** `toggleLanguage()`: `"en"` becomes `"es"`, anything else becomes `"en"`. */
  function ToggleLanguage(p: Provider): (q: Provider)
    ensures IsCode(q.language)
    ensures q.language != p.language
    ensures p.language != "en" ==> q.language == "en"
    ensures q.window.None? <==> p.window.None?
    ensures q.window == ChangeEffect(p.window, q.language)
    ensures Synced(p) ==> Synced(q)
  {
    Commit(p, if p.language == "en" then "es" else "en")
  }

  /** Toggling maps each supported language to the other one. */
  lemma ToggleSwapsLanguages(p: Provider, l: Language)
    requires p.language == Code(l)
    ensures ToggleLanguage(p).language == Code(if l == En then Es else En)
  {
  }

  /** On a synced provider, toggling twice gives back exactly the same provider
      (cell, storage and `lang`) if and only if the cell holds a supported
      code; a stray stored string is replaced by `"es"` after two toggles. */
  lemma ToggleTwice(p: Provider)
    requires Synced(p)
    ensures ToggleLanguage(ToggleLanguage(p)) == p <==> IsCode(p.language)
    ensures !IsCode(p.language) ==> ToggleLanguage(ToggleLanguage(p)).language == "es"
  {
    var q := ToggleLanguage(p);
    var r := ToggleLanguage(q);
    if IsCode(p.language) {
      assert r.language == p.language;
      if p.window.Some? {
        var s := p.window.value.storage;
        assert r.window.value.storage == s[LanguageKey := q.language][LanguageKey := p.language];
        assert s[LanguageKey := q.language][LanguageKey := p.language] == s;
      }
    } else {
      assert r.language == "es" != p.language;
    }
  }

  /** Setting a language twice is the same as setting it once. */
  lemma SetLanguageIdempotent(p: Provider, l: Language)
    ensures SetLanguage(SetLanguage(p, l), l) == SetLanguage(p, l)
  {
  }

  /** What a later mount reads back: once a synced provider with a browser
      holds a language, a new mount with that browser starts with it,
      whatever the caller's `initialLanguage`. */
  lemma PersistedPreferenceReadBack(p: Provider, initialLanguage: Option<Language>)
    requires Synced(p) && p.window.Some? && p.language != ""
    ensures Mount(p.window, initialLanguage).language == p.language
  {
  }

  /** A user action on a mounted provider. */
  datatype Action = Set(l: Language) | Toggle

  /** A session: the actions applied in order. */
  function Run(p: Provider, actions: seq<Action>): Provider
    decreases |actions|
  {
    if |actions| == 0 then p
    else
      var next := match actions[0]
        case Set(l) => SetLanguage(p, l)
        case Toggle => ToggleLanguage(p);
      Run(next, actions[1..])
  }

  /** Every session keeps the browser in sync with the cell, and once the cell
      holds a supported code it keeps holding one. */
  lemma {:induction false} RunKeepsInvariant(p: Provider, actions: seq<Action>)
    requires Synced(p)
    ensures Synced(Run(p, actions))
    ensures Run(p, actions).window.None? <==> p.window.None?
    ensures IsCode(p.language) ==> IsCode(Run(p, actions).language)
    ensures |actions| > 0 ==> IsCode(Run(p, actions).language)
    decreases |actions|
  {
    if |actions| > 0 {
      var next := match actions[0]
        case Set(l) => SetLanguage(p, l)
        case Toggle => ToggleLanguage(p);
      assert IsCode(next.language);
      RunKeepsInvariant(next, actions[1..]);
    }
  }

  /** The failure `useLanguage` throws outside a provider. */
  datatype ContextError = MissingProvider(message: string)

  const MissingProviderMessage: string := "useLanguage must be used within a LanguageProvider"

  /** `useLanguage()`: the context value of the nearest enclosing provider
      (`None` when there is none), or the missing-provider error. */
  function UseLanguage(context: Option<Provider>): (r: Result<Provider, ContextError>)
    ensures r.Failure? <==> context.None?
    ensures r.Success? ==> r.value == context.value
    ensures r.Failure? ==> r.error == MissingProvider(MissingProviderMessage)
  {
    match context
    case None => Failure(MissingProvider(MissingProviderMessage))
    case Some(p) => Success(p)
  }

  /** The intended initial state: the stored value only when it is a
      supported code, otherwise the same fallbacks as a missing value. */
  function InitialLanguageChecked(window: Option<Browser>, initialLanguage: Option<Language>): (r: Language)
    ensures StoredPreference(window).Some? && IsCode(StoredPreference(window).value)
            ==> Code(r) == StoredPreference(window).value
    ensures Code(r) == InitialLanguage(window, initialLanguage)
            <==> (StoredPreference(window).None? || IsCode(StoredPreference(window).value))
    ensures StoredPreference(window).Some? && !IsCode(StoredPreference(window).value)
            ==> Code(r) == InitialLanguage(None, initialLanguage)
  {
    var stored := match StoredPreference(window)
      case Some(s) => Parse(s)
      case None => None;
    match stored
    case Some(l) => l
    case None =>
      match initialLanguage
      case Some(l) => l
      case None => DefaultLanguage
  }

  /** Mounting with the intended initial state: the cell always holds a
      supported code. */
  function MountChecked(window: Option<Browser>, initialLanguage: Option<Language>): (p: Provider)
    ensures Synced(p)
    ensures IsCode(p.language)
    ensures p.language == Code(InitialLanguageChecked(window, initialLanguage))
    ensures p.window.None? <==> window.None?
    ensures p.window == ChangeEffect(window, p.language)
  {
    var language := Code(InitialLanguageChecked(window, initialLanguage));
    Provider(language, ChangeEffect(window, language))
  }
}
