/** The link resolver: the site path of a CMS document. */
module Prismicio {
  import opened Wrappers
  import opened I18n

  /** The fields of a document the resolver looks at; `uid` may be absent. */
  datatype LinkDoc = LinkDoc(docType: string, lang: string, uid: Option<string>)

  /** Template-literal rendering of an optional string: `undefined` prints as "undefined". */
  function Interpolate(s: Option<string>): string {
    match s
    case Some(v) => v
    case None => "undefined"
  }

  /** `LOCALES[doc.lang] || LOCALES["en-us"]`: the URL prefix of a CMS locale, "en" for an unknown one. */
  function RoutePrefix(lang: string): (r: string)
    ensures r == (if lang == "pl" then "pl" else "en")
  {
    match LocaleOf(lang)
    case Some(v) => if v != "" then v else "en"
    case None => "en"
  }

  /** `linkResolver`. */
  function LinkResolver(doc: LinkDoc): (r: Option<string>)
    ensures doc.docType == "homepage" ==> r == Some("/" + RoutePrefix(doc.lang))
    ensures doc.docType == "fragrance" ==> r == Some("/" + RoutePrefix(doc.lang) + "/fragrance/" + Interpolate(doc.uid))
    ensures doc.docType == "quiz" ==> r == Some("/" + RoutePrefix(doc.lang) + "/quiz")
    ensures doc.docType == "contact_page" ==> r == Some("/" + RoutePrefix(doc.lang) + "/contact")
    ensures r.None? <==> doc.docType !in {"homepage", "fragrance", "quiz", "contact_page"}
  {
    var locale := RoutePrefix(doc.lang);
    match doc.docType
    case "homepage" => Some("/" + locale)
    case "fragrance" => Some("/" + locale + "/fragrance/" + Interpolate(doc.uid))
    case "quiz" => Some("/" + locale + "/quiz")
    case "contact_page" => Some("/" + locale + "/contact")
    case _ => None
  }

  /** Every path the resolver produces starts with a locale segment, so the middleware leaves it alone. */
  lemma LinkResolverHasLocale(doc: LinkDoc)
    requires LinkResolver(doc).Some?
    ensures PathnameHasLocale(LinkResolver(doc).value)
  {
    var p := LinkResolver(doc).value;
    var pre := "/" + RoutePrefix(doc.lang);
    assert pre <= p;
    PathnameHasLocaleCases(p);
    if p != pre {
      assert p[..|pre| + 1] == pre + "/";
    }
  }
}
