/** Shortener detection, written identically in front/server.py and front/model.py:
    `SHORTENED_DOMAINS` and `is_shortened_url`. */
module Shorteners {
  import Text
  import Urls

  /** `SHORTENED_DOMAINS`. */
  const ShortenedDomains: seq<string> := ["qrco.de", "bit.ly", "goo.gl", "t.co", "tinyurl.com"]

  /** `is_shortened_url`: some listed shortener occurs anywhere in the netloc. This is a
      substring test, not a domain match: "notbit.ly.com" and "bat.com" both qualify. */
  function IsShortenedUrl(url: string): (r: bool)
    ensures r <==> exists k :: 0 <= k < |ShortenedDomains| && Text.Contains(Urls.Netloc(url), ShortenedDomains[k])
  {
    Text.ContainsAnyIff(Urls.Netloc(url), ShortenedDomains);
    Text.ContainsAny(Urls.Netloc(url), ShortenedDomains)
  }

  /** A netloc with no '.' is never shortened, since every listed shortener has one. */
  lemma NoDotNotShortened(url: string)
    requires '.' !in Urls.Netloc(url)
    ensures !IsShortenedUrl(url)
  {
    Text.ContainsAnyNeedsChar(Urls.Netloc(url), ShortenedDomains, '.');
  }

  /** A URL of the form "scheme://host..." is shortened as soon as a listed shortener
      occurs anywhere in the host. */
  lemma ShortenedWhenHostContains(scheme: string, host: string, rest: string, k: nat, at: nat)
    requires scheme != [] && forall i :: 0 <= i < |scheme| ==> Urls.IsAsciiLetter(scheme[i])
    requires forall i :: 0 <= i < |host| ==> host[i] !in Urls.NetlocStops
    requires rest == [] || rest[0] in Urls.NetlocStops
    requires k < |ShortenedDomains| && Text.OccursAt(host, ShortenedDomains[k], at)
    ensures IsShortenedUrl(scheme + "://" + host + rest)
  {
    Urls.NetlocOfAuthority(scheme, host, rest);
    Text.ContainsIff(host, ShortenedDomains[k]);
  }

  /** A listed shortener is shortened: "https://bit.ly/abc". */
  lemma ShortenerHostIsShortened()
    ensures IsShortenedUrl("https://bit.ly/abc")
  {
    assert "https://bit.ly/abc" == "https" + "://" + "bit.ly" + "/abc";
    ShortenedWhenHostContains("https", "bit.ly", "/abc", 1, 0);
  }

  /** A host that merely contains a shortener's name is shortened too: "https://notbit.ly.com". */
  lemma LookalikeHostIsShortened()
    ensures IsShortenedUrl("https://notbit.ly.com")
  {
    assert "https://notbit.ly.com" == "https" + "://" + "notbit.ly.com" + "";
    ShortenedWhenHostContains("https", "notbit.ly.com", "", 1, 3);
  }

  /** So is a host that contains "t.co" by accident: "https://bat.com/page". */
  lemma AccidentalMatchIsShortened()
    ensures IsShortenedUrl("https://bat.com/page")
  {
    assert "https://bat.com/page" == "https" + "://" + "bat.com" + "/page";
    ShortenedWhenHostContains("https", "bat.com", "/page", 3, 2);
  }

  /** Without a scheme, "bit.ly/abc" has no netloc and is not shortened. */
  lemma BareHostNotShortened()
    ensures !IsShortenedUrl("bit.ly/abc")
  {
    Urls.NoNetlocWithoutAuthority("bit.ly/abc");
    NoDotNotShortened("bit.ly/abc");
  }
}
