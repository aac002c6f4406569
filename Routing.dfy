/** The locale list of navigation.ts and the two path tests middleware.ts
    and proxy.ts share: whether a path is an admin page, and which locale
    the login page is served in. */
module Routing {
  import opened Js

  const Locales: seq<string> := ["en", "fr", "es", "it"]
  const DefaultLocale: string := "en"

  /** `locales.some(l => p.startsWith('/' + l + '/private')) || p.startsWith('/private')` */
  predicate IsPrivatePage(pathname: string) {
    || (exists i :: 0 <= i < |Locales| && StartsWith(pathname, "/" + Locales[i] + "/private"))
    || StartsWith(pathname, "/private")
  }

  /** `locales.find(l => p.startsWith('/' + l)) || defaultLocale`, scanning from index i. */
  function FindLocale(pathname: string, i: nat): (r: string)
    requires i <= |Locales|
    ensures r == DefaultLocale || r in Locales[i..]
    ensures forall j :: i <= j < |Locales| && StartsWith(pathname, "/" + Locales[j]) ==>
      exists m :: i <= m <= j && r == Locales[m] && StartsWith(pathname, "/" + Locales[m])
    decreases |Locales| - i
  {
    if i == |Locales| then DefaultLocale
    else if StartsWith(pathname, "/" + Locales[i]) then Locales[i]
    else FindLocale(pathname, i + 1)
  }

  function LoginLocale(pathname: string): (r: string)
    ensures r in Locales
  {
    FindLocale(pathname, 0)
  }

  /** `/${locale}/auth/login` */
  function LoginPath(pathname: string): string {
    "/" + LoginLocale(pathname) + "/auth/login"
  }

  /** Locales are two letters, so no locale is a prefix of another and a
      path that starts with "/l" for a locale l is served in l. */
  lemma {:induction false} LoginLocaleOf(l: string, rest: string)
    requires l in Locales
    ensures LoginLocale("/" + l + rest) == l
  {
    var p := "/" + l + rest;
    assert p[..3] == "/" + l;
    var i :| 0 <= i < |Locales| && Locales[i] == l;
    assert StartsWith(p, "/" + Locales[i]);
    forall j | 0 <= j < |Locales| && j != i
      ensures !StartsWith(p, "/" + Locales[j])
    {
      assert Locales[j] != Locales[i] && |Locales[j]| == 2;
      assert "/" + Locales[j] != "/" + l by {
        assert ("/" + Locales[j])[1..] == Locales[j];
        assert ("/" + l)[1..] == l;
      }
    }
  }

  /** Every admin page: "/l/private..." is served in l, a bare "/private..." in en. */
  lemma {:induction false} PrivateLoginLocale(pathname: string)
    requires IsPrivatePage(pathname)
    ensures StartsWith(pathname, "/private") ==> LoginLocale(pathname) == DefaultLocale
    ensures forall l :: l in Locales && StartsWith(pathname, "/" + l + "/private") ==> LoginLocale(pathname) == l
  {
    if StartsWith(pathname, "/private") {
      forall j | 0 <= j < |Locales|
        ensures !StartsWith(pathname, "/" + Locales[j])
      {
        assert pathname[1] == 'p';
      }
    }
    forall l | l in Locales && StartsWith(pathname, "/" + l + "/private")
      ensures LoginLocale(pathname) == l
    {
      assert pathname == "/" + l + pathname[3..];
      LoginLocaleOf(l, pathname[3..]);
    }
  }

  /** The test is on prefixes, not on path segments: "/en/privateer" counts
      as an admin page, while "/en/privacy" and "/fr" do not. */
  lemma PrivateIsAPrefixTest()
    ensures IsPrivatePage("/en/private")
    ensures IsPrivatePage("/private/users")
    ensures IsPrivatePage("/en/privateer")
    ensures !IsPrivatePage("/en/privacy")
    ensures !IsPrivatePage("/fr")
  {
    assert StartsWith("/en/private", "/" + Locales[0] + "/private");
    assert StartsWith("/en/privateer", "/" + Locales[0] + "/private");
    var p := "/en/privacy";
    forall i | 0 <= i < |Locales|
      ensures !StartsWith(p, "/" + Locales[i] + "/private")
    {
      assert |"/" + Locales[i] + "/private"| == 11;
      assert p[10] == 'y';
    }
  }
}
