/**
 * The search API route: the `lang` and `query` parameters are checked in a
 * fixed order, and only a request that passes both reaches the CMS full-text
 * search.
 */
module SearchRoute {
  import opened Wrappers
  import opened Http
  import opened I18n

  /** The CMS search: it threw, or it returned these fragrance documents. */
  datatype SearchOutcome = SearchThrew | Found(documents: seq<Json>)

  /** A CMS full-text search for `query` over the fragrances in `prismicLang`. */
  datatype SearchCall = SearchCall(query: string, prismicLang: string)

  /** The answer, with the CMS search the route made, if any. */
  datatype Reply = Reply(status: int, body: Json, search: Option<SearchCall>)

  /** `!value` for a search parameter, which is `null` when absent. */
  predicate Blank(param: Option<string>) {
    param.None? || param.value == ""
  }

  /** `GET ?query=…&lang=…`; `cms` is what the CMS search gives when it is made. */
  function Get(query: Option<string>, lang: Option<string>, cms: SearchOutcome): Reply {
    if Blank(lang) then Reply(400, ErrorJson("Language parameter is required"), None)
    else match ReverseLocaleLookup(lang.value)
      case None => Reply(400, ErrorJson("Invalid language: " + lang.value), None)
      case Some(prismicLang) =>
        if Blank(query) then Reply(200, JArr([]), None)
        else
          var call := Some(SearchCall(query.value, prismicLang));
          match cms
          case SearchThrew => Reply(500, ErrorJson("Failed to fetch search results from "), call)
          case Found(documents) => Reply(200, JArr(documents), call)
  }

  /** The language is checked first: without one the answer is 400 whatever the query, and the CMS is not asked. */
  lemma LangCheckedFirst(query: Option<string>, lang: Option<string>, cms: SearchOutcome)
    requires Blank(lang)
    ensures Get(query, lang, cms) == Reply(400, ErrorJson("Language parameter is required"), None)
  {
  }

  /** A language that is not a URL prefix of the locale table is refused by name. */
  lemma UnknownLangRefused(query: Option<string>, lang: string, cms: SearchOutcome)
    requires lang != "" && lang != "en" && lang != "pl"
    ensures Get(query, Some(lang), cms) == Reply(400, ErrorJson("Invalid language: " + lang), None)
  {
    ReverseLocaleLookupCases(lang);
  }

  /** A known language with no query answers an empty list without asking the CMS. */
  lemma EmptyQueryAnswersEmptyList(query: Option<string>, lang: string, cms: SearchOutcome)
    requires lang == "en" || lang == "pl"
    requires Blank(query)
    ensures Get(query, Some(lang), cms) == Reply(200, JArr([]), None)
  {
    ReverseLocaleLookupCases(lang);
  }

  /**
   * The CMS is asked exactly when both parameters are present and the
   * language is known, and then in the CMS id the language stands for.
   */
  lemma SearchIffParametersValid(query: Option<string>, lang: Option<string>, cms: SearchOutcome)
    ensures Get(query, lang, cms).search.Some? <==>
      !Blank(lang) && ReverseLocaleLookup(lang.value).Some? && !Blank(query)
    ensures Get(query, lang, cms).search.Some? ==>
      Get(query, lang, cms).search.value == SearchCall(query.value, ReverseLocaleLookup(lang.value).value)
      && LocaleOf(Get(query, lang, cms).search.value.prismicLang) == Some(lang.value)
  {
    if Get(query, lang, cms).search.Some? {
      ReverseLocaleLookupSound(lang.value);
    }
  }

  /** A search answers 200 with the documents the CMS found, or 500 when the CMS threw. */
  lemma SearchAnswer(query: string, lang: string, cms: SearchOutcome)
    requires query != "" && (lang == "en" || lang == "pl")
    ensures cms.Found? ==> Get(Some(query), Some(lang), cms).status == 200
                           && Get(Some(query), Some(lang), cms).body == JArr(cms.documents)
    ensures cms.SearchThrew? ==> Get(Some(query), Some(lang), cms).status == 500
  {
    ReverseLocaleLookupCases(lang);
  }
}
