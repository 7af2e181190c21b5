/**
 * `getLocales`: the language switcher's list, one homepage link per language
 * of the CMS repository, with the active language moved to the front.
 */
module GetLocales {
  import opened Wrappers
  import opened Prismicio

  /** A language of the CMS repository (the result of `getRepository`, given as input). */
  datatype RepoLanguage = RepoLanguage(id: string, name: string)

  datatype LocaleLink = LocaleLink(lang: string, langName: string, url: string)

  /** The `map` to homepage links followed by the `filter` that drops unresolved ones. */
  function LocaleLinks(langs: seq<RepoLanguage>): (r: seq<LocaleLink>)
    ensures |r| == |langs|
    ensures forall i :: 0 <= i < |langs| ==>
      r[i].lang == langs[i].id && r[i].langName == langs[i].name
      && LinkResolver(LinkDoc("homepage", langs[i].id, None)) == Some(r[i].url)
  {
    if langs == [] then []
    else
      var url := LinkResolver(LinkDoc("homepage", langs[0].id, None));
      var head := if url.Some? then [LocaleLink(langs[0].id, langs[0].name, url.value)] else [];
      head + LocaleLinks(langs[1..])
  }

  /** `findIndex`: the first position whose language is `lang`. */
  function FirstIndexOf(links: seq<LocaleLink>, lang: string): (r: Option<nat>)
    ensures r.Some? ==> r.value < |links| && links[r.value].lang == lang
    ensures r.Some? ==> forall j :: 0 <= j < r.value ==> links[j].lang != lang
    ensures r.None? ==> forall j :: 0 <= j < |links| ==> links[j].lang != lang
  {
    if links == [] then None
    else if links[0].lang == lang then Some(0)
    else match FirstIndexOf(links[1..], lang)
      case None => None
      case Some(i) => Some(i + 1)
  }

  /** `splice(i, 1)` followed by `unshift`: element `i` first, the rest in their order. */
  function MovedToFront(s: seq<LocaleLink>, i: nat): seq<LocaleLink>
    requires i < |s|
  {
    [s[i]] + s[..i] + s[i + 1..]
  }

  /** The list `getLocales` returns, as a function of the repository languages. */
  function Reordered(langs: seq<RepoLanguage>, current: string): seq<LocaleLink> {
    var links := LocaleLinks(langs);
    match FirstIndexOf(links, current)
    case Some(i) => MovedToFront(links, i)
    case None => links
  }

  /** Moving one element to the front loses and duplicates nothing. */
  lemma MovedToFrontIsPermutation(s: seq<LocaleLink>, i: nat)
    requires i < |s|
    ensures multiset(MovedToFront(s, i)) == multiset(s)
  {
    assert s == s[..i] + [s[i]] + s[i + 1..];
  }

  /** One entry per repository language, the active one first when present, nothing lost or duplicated. */
  lemma ReorderedFacts(langs: seq<RepoLanguage>, current: string)
    ensures |Reordered(langs, current)| == |langs|
    ensures multiset(Reordered(langs, current)) == multiset(LocaleLinks(langs))
    ensures (exists j :: 0 <= j < |langs| && langs[j].id == current) ==>
      Reordered(langs, current)[0].lang == current
    ensures (forall j :: 0 <= j < |langs| ==> langs[j].id != current) ==>
      Reordered(langs, current) == LocaleLinks(langs)
  {
    var links := LocaleLinks(langs);
    match FirstIndexOf(links, current)
    case Some(i) => MovedToFrontIsPermutation(links, i);
    case None =>
  }

  /** `locales.findIndex(loc => loc.lang === lang)`, with -1 for "not found". */
  method FindIndex(a: array<LocaleLink>, lang: string) returns (idx: int)
    ensures idx == -1 <==> FirstIndexOf(a[..], lang).None?
    ensures idx != -1 ==> FirstIndexOf(a[..], lang) == Some(idx)
  {
    idx := -1;
    var k := 0;
    while k < a.Length && idx == -1
      invariant 0 <= k <= a.Length
      invariant idx == -1 ==> forall j :: 0 <= j < k ==> a[j].lang != lang
      invariant idx != -1 ==> 0 <= idx < a.Length && FirstIndexOf(a[..], lang) == Some(idx)
    {
      if a[k].lang == lang {
        idx := k;
      }
      k := k + 1;
    }
  }

  /** `const x = a.splice(i, 1)[0]; a.unshift(x)`, in place. */
  method MoveToFront(a: array<LocaleLink>, i: nat)
    requires i < a.Length
    modifies a
    ensures a[..] == MovedToFront(old(a[..]), i)
  {
    ghost var s := a[..];
    var moved := a[i];
    var j := i;
    while j > 0
      invariant 0 <= j <= i
      invariant a[..j] == s[..j]
      invariant a[j + 1..i + 1] == s[j..i]
      invariant a[i + 1..] == s[i + 1..]
    {
      a[j] := a[j - 1];
      j := j - 1;
    }
    a[0] := moved;
    assert a[..] == [a[0]] + a[1..i + 1] + a[i + 1..];
  }

  /** `getLocales`, with the repository's language list passed in; the reordering is done in place on an array. */
  method GetLocales(langs: seq<RepoLanguage>, current: string) returns (r: seq<LocaleLink>)
    ensures r == Reordered(langs, current)
  {
    var links := LocaleLinks(langs);
    var a := new LocaleLink[|links|](i requires 0 <= i < |links| => links[i]);
    assert a[..] == links;
    var active := FindIndex(a, current);
    if active > -1 {
      MoveToFront(a, active);
    }
    r := a[..];
  }
}
