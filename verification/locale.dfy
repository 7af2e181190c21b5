/**
 * Locale validation helpers built on the `LOCALES` table: checking a URL
 * locale, defaulting a cookie value, and the current locale of a request.
 */
module Locale {
  import opened Wrappers
  import opened I18n

  /** `isValidLocale`: the locale is one of the URL prefixes of `LOCALES`. */
  predicate IsValidLocale(locale: string) {
    locale in Values(Locales)
  }

  lemma IsValidLocaleCases(locale: string)
    ensures IsValidLocale(locale) <==> locale == "en" || locale == "pl"
  {
    assert Values(Locales) == ["en", "pl"];
  }

  /** `getDefaultLocale`: the URL prefix of "en-us". */
  function DefaultLocale(): (r: string)
    ensures LocaleOf("en-us") == Some(r)
    ensures IsValidLocale(r)
  {
    assert Values(Locales) == ["en", "pl"];
    "en"
  }

  /** `validateLocaleFromCookie`: the cookie value when it is a valid locale, else the default. */
  function ValidateLocaleFromCookie(cookieValue: Option<string>): (r: string)
    ensures IsValidLocale(r)
    ensures cookieValue.Some? && IsValidLocale(cookieValue.value) ==> r == cookieValue.value
    ensures !(cookieValue.Some? && IsValidLocale(cookieValue.value)) ==> r == DefaultLocale()
  {
    if cookieValue.Some? && cookieValue.value != "" && IsValidLocale(cookieValue.value) then cookieValue.value
    else DefaultLocale()
  }

  /** Validating an already validated value changes nothing. */
  lemma ValidateLocaleIdempotent(cookieValue: Option<string>)
    ensures ValidateLocaleFromCookie(Some(ValidateLocaleFromCookie(cookieValue)))
         == ValidateLocaleFromCookie(cookieValue)
  {
  }

  /** `getPrismicLangFromUrl`: the CMS locale id of a URL locale, or `undefined` when it is not valid. */
  function GetPrismicLangFromUrl(urlLang: string): (r: Option<string>)
    ensures r.None? <==> !IsValidLocale(urlLang)
    ensures r.Some? ==> LocaleOf(r.value) == Some(urlLang)
  {
    IsValidLocaleCases(urlLang);
    if !IsValidLocale(urlLang) then None
    else
      ReverseLocaleLookupCases(urlLang);
      ReverseLocaleLookup(urlLang)
  }

  /** For a valid locale, `getPrismicLangFromUrl` agrees with `reverseLocaleLookup`. */
  lemma PrismicLangAgreesWithLookup(urlLang: string)
    requires IsValidLocale(urlLang)
    ensures GetPrismicLangFromUrl(urlLang) == ReverseLocaleLookup(urlLang)
  {
  }

  /** What reading the `NEXT_LOCALE` cookie gave: `cookies()` threw, no cookie, or its value. */
  datatype CookieRead = CookiesUnavailable | NoLocaleCookie | LocaleCookie(value: string)

  datatype CurrentLocale = CurrentLocale(lang: string, prismicLang: Option<string>)

  /** `getCurrentLocale`, with the cookie read as an input. */
  function GetCurrentLocale(cookie: CookieRead): (r: CurrentLocale)
    ensures IsValidLocale(r.lang)
    ensures cookie.LocaleCookie? && IsValidLocale(cookie.value) ==> r.lang == cookie.value
    ensures !(cookie.LocaleCookie? && IsValidLocale(cookie.value)) ==> r.lang == DefaultLocale()
    ensures r.prismicLang.Some? && LocaleOf(r.prismicLang.value) == Some(r.lang)
  {
    var lang :=
      if cookie.LocaleCookie? && cookie.value != "" && IsValidLocale(cookie.value) then cookie.value
      else DefaultLocale();
    IsValidLocaleCases(lang);
    ReverseLocaleLookupCases(lang);
    CurrentLocale(lang, ReverseLocaleLookup(lang))
  }

  /** The language `getCurrentLocale` picks is the one `validateLocaleFromCookie` picks from the same value. */
  lemma CurrentLocaleAgreesWithCookieValidation(cookie: CookieRead)
    ensures GetCurrentLocale(cookie).lang ==
      ValidateLocaleFromCookie(if cookie.LocaleCookie? then Some(cookie.value) else None)
  {
  }
}
