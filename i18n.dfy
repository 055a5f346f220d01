/**
 * The interface languages: English and Chinese, English by default. Any
 * stored or requested language other than `zh`, including none at all, is
 * read as English, and each language has its locale for date formatting.
 */
module I18n {
  import opened Wrappers

  const SupportedLanguages: seq<string> := ["en", "zh"]

  const DefaultLanguage: string := "en"

  /** `normalizeLanguage`: `zh` for `zh`, English for everything else. */
  function NormalizeLanguage(language: Option<string>): (r: string)
    ensures r in SupportedLanguages
    ensures r == "zh" <==> language == Some("zh")
    ensures r == DefaultLanguage <==> language != Some("zh")
  {
    if language == Some("zh") then "zh" else "en"
  }

  /** `languageToLocale`. */
  function LanguageToLocale(language: string): (locale: string)
    requires language in SupportedLanguages
    ensures language == "zh" ==> locale == "zh-CN"
    ensures language == "en" ==> locale == "en-US"
  {
    if language == "zh" then "zh-CN" else "en-US"
  }

  /** A supported language is its own normal form, so normalising twice is normalising once. */
  lemma NormalizeIdempotent(language: Option<string>)
    ensures NormalizeLanguage(Some(NormalizeLanguage(language))) == NormalizeLanguage(language)
    ensures forall l | l in SupportedLanguages :: NormalizeLanguage(Some(l)) == l
  {
  }

  /** The two languages have different locales. */
  lemma LocalesDistinct(a: string, b: string)
    requires a in SupportedLanguages && b in SupportedLanguages
    ensures LanguageToLocale(a) == LanguageToLocale(b) <==> a == b
  {
  }
}
