/** The sitemap of app/sitemap.ts: every static page in every locale, each
    entry carrying the hreflang alternates of its page. */
module Sitemap {
  import Routing

  datatype ChangeFrequency = Weekly | Monthly | Yearly

  /** A static page; the priority is kept in tenths (1.0 is 10). */
  datatype StaticPage = StaticPage(path: string, changeFrequency: ChangeFrequency, priorityTenths: nat)

  /** One sitemap entry; `lastModified` is the instant the sitemap was built. */
  datatype Entry = Entry(
    url: string,
    lastModified: int,
    changeFrequency: ChangeFrequency,
    priorityTenths: nat,
    languages: map<string, string>)

  /** The sitemap's own copy of the locale list. */
  const Locales: seq<string> := ["en", "fr", "es", "it"]
  const DefaultLocale: string := "en"
  const BaseUrl: string := "https://wheelx.bike"
  const XDefault: string := "x-default"

  const StaticPages: seq<StaticPage> := [
    StaticPage("", Weekly, 10),
    StaticPage("/privacy", Monthly, 5),
    StaticPage("/terms", Monthly, 5),
    StaticPage("/contact", Yearly, 8)
  ]

  /** The url of a page in a locale: no prefix for the default locale. */
  function LocaleUrl(locale: string, path: string): string {
    if locale == DefaultLocale then BaseUrl + path else BaseUrl + "/" + locale + path
  }

  /** `alternates.languages` of every entry of a page. */
  function Alternates(path: string): map<string, string> {
    (map l | l in Locales :: LocaleUrl(l, path))[XDefault := BaseUrl + path]
  }

  function EntryFor(page: StaticPage, locale: string, lastModified: int): Entry {
    Entry(LocaleUrl(locale, page.path), lastModified, page.changeFrequency, page.priorityTenths,
          Alternates(page.path))
  }

  /** The entry at position i: pages are the outer loop, locales the inner one. */
  function EntryAt(i: nat, lastModified: int): Entry
    requires i < |StaticPages| * |Locales|
  {
    EntryFor(StaticPages[i / |Locales|], Locales[i % |Locales|], lastModified)
  }

  lemma PositionOf(p: nat, q: nat)
    requires q < 4
    ensures (p * 4 + q) / 4 == p && (p * 4 + q) % 4 == q
  {
  }

  /** The innermost loop of sitemap(): one alternate per locale, then x-default. */
  method BuildAlternates(path: string) returns (languages: map<string, string>)
    ensures languages == Alternates(path)
  {
    languages := map[];
    for a := 0 to |Locales|
      invariant languages.Keys == set j | 0 <= j < a :: Locales[j]
      invariant forall j :: 0 <= j < a ==> languages[Locales[j]] == LocaleUrl(Locales[j], path)
    {
      var altLocale := Locales[a];
      var altUrl := if altLocale == DefaultLocale then BaseUrl + path else BaseUrl + "/" + altLocale + path;
      languages := languages[altLocale := altUrl];
    }
    LocaleMap(languages, path);
    languages := languages[XDefault := BaseUrl + path];
  }

  /** A map that holds the URL of every locale, and only those, is the map
      Alternates starts from. */
  lemma LocaleMap(m: map<string, string>, path: string)
    requires m.Keys == set j | 0 <= j < |Locales| :: Locales[j]
    requires forall j :: 0 <= j < |Locales| ==> m[Locales[j]] == LocaleUrl(Locales[j], path)
    ensures m == map l | l in Locales :: LocaleUrl(l, path)
  {
    var want := map l | l in Locales :: LocaleUrl(l, path);
    forall l | l in Locales
      ensures l in m.Keys && m[l] == want[l]
    {
      var j :| 0 <= j < |Locales| && Locales[j] == l;
    }
    assert m.Keys == want.Keys;
  }

  /** The body of the inner loop: the entry of one page in one locale. */
  method BuildEntry(page: StaticPage, locale: string, lastModified: int) returns (entry: Entry)
    ensures entry == EntryFor(page, locale, lastModified)
  {
    var url := if locale == DefaultLocale then BaseUrl + page.path else BaseUrl + "/" + locale + page.path;
    var alternates := BuildAlternates(page.path);
    entry := Entry(url, lastModified, page.changeFrequency, page.priorityTenths, alternates);
  }

  /** sitemap(): the nested loops push one entry per page and locale. */
  method BuildSitemap(lastModified: int) returns (entries: seq<Entry>)
    ensures |entries| == |StaticPages| * |Locales| == 16
    ensures forall i :: 0 <= i < |entries| ==> entries[i] == EntryAt(i, lastModified)
  {
    entries := [];
    for p := 0 to |StaticPages|
      invariant |entries| == p * 4
      invariant forall i :: 0 <= i < |entries| ==> entries[i] == EntryAt(i, lastModified)
    {
      var page := StaticPages[p];
      for q := 0 to |Locales|
        invariant |entries| == p * 4 + q
        invariant forall i :: 0 <= i < |entries| ==> entries[i] == EntryAt(i, lastModified)
      {
        var entry := BuildEntry(page, Locales[q], lastModified);
        PositionOf(p, q);
        assert EntryAt(p * 4 + q, lastModified) == entry;
        entries := entries + [entry];
      }
    }
  }

  /** The alternates name exactly the four locales and x-default. */
  lemma AlternateKeys(path: string)
    ensures Alternates(path).Keys == {"en", "fr", "es", "it", "x-default"}
  {
  }

  /** x-default is the url of the default locale. */
  lemma XDefaultIsDefaultLocale(path: string)
    ensures Alternates(path)[XDefault] == Alternates(path)[DefaultLocale] == BaseUrl + path
  {
  }

  /** Each entry lists itself among its alternates, the four entries of a
      page share one alternates map, and page fields are copied over. */
  lemma EntryProperties(i: nat, j: nat, lastModified: int)
    requires i < 16 && j < 16
    ensures EntryAt(i, lastModified).url == EntryAt(i, lastModified).languages[Locales[i % 4]]
    ensures i / 4 == j / 4 ==> EntryAt(i, lastModified).languages == EntryAt(j, lastModified).languages
    ensures EntryAt(i, lastModified).changeFrequency == StaticPages[i / 4].changeFrequency
    ensures EntryAt(i, lastModified).priorityTenths == StaticPages[i / 4].priorityTenths
    ensures EntryAt(i, lastModified).lastModified == lastModified
  {
  }

  /** The home page in English carries no prefix; other locales do. */
  lemma UrlExamples(lastModified: int)
    ensures EntryAt(0, lastModified).url == "https://wheelx.bike"
    ensures EntryAt(5, lastModified).url == "https://wheelx.bike/fr/privacy"
    ensures EntryAt(15, lastModified).url == "https://wheelx.bike/it/contact"
    ensures EntryAt(15, lastModified).languages[XDefault] == "https://wheelx.bike/contact"
  {
    assert 5 / 4 == 1 && 5 % 4 == 1 && 15 / 4 == 3 && 15 % 4 == 3;
    assert Locales[1] != DefaultLocale by { assert Locales[1][0] != DefaultLocale[0]; }
    assert Locales[3] != DefaultLocale by { assert Locales[3][0] != DefaultLocale[0]; }
    assert EntryAt(5, lastModified).url == BaseUrl + "/" + "fr" + "/privacy";
    assert EntryAt(15, lastModified).url == BaseUrl + "/" + "it" + "/contact";
  }

  /** The sitemap's locales are the ones the router serves. */
  lemma SameLocalesAsRouter()
    ensures Locales == Routing.Locales && DefaultLocale == Routing.DefaultLocale
  {
  }
}
