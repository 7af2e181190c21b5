/**
 * The locale table of the site and the two helpers over it that the rest of
 * the model uses: `reverseLocaleLookup` and `pathnameHasLocale`.
 */
module I18n {
  import opened Wrappers

  /** A table from CMS locale ids to URL prefixes, in declaration order. */
  type LocaleTable = seq<(string, string)>

  /** `LOCALES`: the CMS id "en-us" is shown as "en" in URLs, "pl" as "pl"; the first is the default. */
  const Locales: LocaleTable := [("en-us", "en"), ("pl", "pl")]

  /** The keys of a table are distinct, as the keys of a JavaScript object are. */
  ghost predicate KeysDistinct(table: LocaleTable) {
    forall i, j :: 0 <= i < j < |table| ==> table[i].0 != table[j].0
  }

  ghost predicate ValuesDistinct(table: LocaleTable) {
    forall i, j :: 0 <= i < j < |table| ==> table[i].1 != table[j].1
  }

  /** `table[key]`: the value stored under `key`, or `undefined`. */
  function Get(table: LocaleTable, key: string): (r: Option<string>)
    ensures r.None? ==> forall i :: 0 <= i < |table| ==> table[i].0 != key
    ensures r.Some? ==> exists i :: 0 <= i < |table| && table[i] == (key, r.value)
  {
    if table == [] then None
    else if table[0].0 == key then Some(table[0].1)
    else Get(table[1..], key)
  }

  /** The loop of `reverseLocaleLookup`: the first key, in order, whose value is `value`. */
  function KeyOf(table: LocaleTable, value: string): (r: Option<string>)
    ensures r.None? ==> forall i :: 0 <= i < |table| ==> table[i].1 != value
    ensures r.Some? ==> exists i :: 0 <= i < |table| && table[i] == (r.value, value)
  {
    if table == [] then None
    else if table[0].1 == value then Some(table[0].0)
    else KeyOf(table[1..], value)
  }

  /** `LOCALES[key]`. */
  function LocaleOf(key: string): Option<string> {
    Get(Locales, key)
  }

  /** `reverseLocaleLookup(locale)`: the CMS id shown as `locale`, or `undefined`. */
  function ReverseLocaleLookup(locale: string): Option<string> {
    KeyOf(Locales, locale)
  }

  /** A key found by `KeyOf` maps back to the value searched for. */
  lemma {:induction false} KeyOfIsSound(table: LocaleTable, value: string)
    requires KeysDistinct(table)
    requires KeyOf(table, value).Some?
    ensures Get(table, KeyOf(table, value).value) == Some(value)
  {
    if table[0].1 != value {
      assert KeysDistinct(table[1..]) by {
        forall i, j | 0 <= i < j < |table[1..]| ensures table[1..][i].0 != table[1..][j].0 {
          assert table[1..][i] == table[i + 1] && table[1..][j] == table[j + 1];
        }
      }
      KeyOfIsSound(table[1..], value);
      var k := KeyOf(table[1..], value).value;
      var i :| 0 <= i < |table[1..]| && table[1..][i] == (k, value);
      assert table[i + 1].0 == k;
    }
  }

  /** Round trip: looking a key's value up again gives the key back. */
  lemma {:induction false} KeyOfGet(table: LocaleTable, key: string)
    requires ValuesDistinct(table)
    requires Get(table, key).Some?
    ensures KeyOf(table, Get(table, key).value) == Some(key)
  {
    var v := Get(table, key).value;
    if table[0].0 != key {
      assert ValuesDistinct(table[1..]) by {
        forall i, j | 0 <= i < j < |table[1..]| ensures table[1..][i].1 != table[1..][j].1 {
          assert table[1..][i] == table[i + 1] && table[1..][j] == table[j + 1];
        }
      }
      KeyOfGet(table[1..], key);
      var i :| 0 <= i < |table[1..]| && table[1..][i] == (key, v);
      assert table[0].1 != v by { assert table[i + 1].1 == v; }
    }
  }

  /** `reverseLocaleLookup` knows exactly "en" and "pl". */
  lemma ReverseLocaleLookupCases(locale: string)
    ensures ReverseLocaleLookup(locale) ==
      if locale == "en" then Some("en-us") else if locale == "pl" then Some("pl") else None
  {
  }

  /** A defined result `r` of `reverseLocaleLookup(l)` satisfies `LOCALES[r] == l`. */
  lemma ReverseLocaleLookupSound(locale: string)
    requires ReverseLocaleLookup(locale).Some?
    ensures LocaleOf(ReverseLocaleLookup(locale).value) == Some(locale)
  {
    KeyOfIsSound(Locales, locale);
  }

  /** For every key `k` of `LOCALES`: `reverseLocaleLookup(LOCALES[k]) == k`. */
  lemma ReverseLocaleLookupRoundTrip(key: string)
    requires LocaleOf(key).Some?
    ensures ReverseLocaleLookup(LocaleOf(key).value) == Some(key)
  {
    KeyOfGet(Locales, key);
  }

  /** `^/(v1|v2|...)(\/|$)` over the values `vs`: the first path segment is one of them. */
  predicate StartsWithSegment(path: string, vs: seq<string>) {
    exists i :: 0 <= i < |vs| && (path == "/" + vs[i] || "/" + vs[i] + "/" <= path)
  }

  function Values(table: LocaleTable): (vs: seq<string>)
    ensures |vs| == |table| && forall i :: 0 <= i < |table| ==> vs[i] == table[i].1
  {
    seq(|table|, i requires 0 <= i < |table| => table[i].1)
  }

  /** `pathnameHasLocale`, given the request's pathname. */
  predicate PathnameHasLocale(path: string) {
    StartsWithSegment(path, Values(Locales))
  }

  /** The locale must be a whole first segment: "/en" and "/en/..." match, "/english" does not. */
  lemma PathnameHasLocaleCases(path: string)
    ensures PathnameHasLocale(path) <==>
      path == "/en" || path == "/pl" || "/en/" <= path || "/pl/" <= path
  {
    var vs := Values(Locales);
    assert vs == ["en", "pl"];
    if path == "/en" || "/en/" <= path {
      assert "/en" == "/" + vs[0] && "/en/" == "/" + vs[0] + "/";
    } else if path == "/pl" || "/pl/" <= path {
      assert "/pl" == "/" + vs[1] && "/pl/" == "/" + vs[1] + "/";
    }
  }
}
