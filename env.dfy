/** What the scraper borrows from its surroundings: library behaviour the
    model leaves abstract, and the HTTP fetcher. */
module Env {
  import opened Text
  import opened Html

  /** `urllib.parse.urljoin`, `str.title()` and `str.upper()` are taken as
      given functions, and so are the character classes of `Chars`.
      `urlJoin` gives None where `urljoin` raises `ValueError` (a malformed
      reference such as an unclosed IPv6 host). */
  datatype Lib = Lib(
    chars: Chars,
    urlJoin: (string, string) -> Option<string>,
    titleCase: string -> string,
    upper: string -> string)

  /** The site all three scrapers resolve links against. */
  const BaseUrl: string := "https://trouverunlogement.lescrous.fr"

  /** `main_search_url`: the search page of one of the site's tools (b.py
      and c.py use tool 42, main.py tool 41). */
  function ToolSearchUrl(tool: nat): string {
    BaseUrl + "/tools/" + NatToString(tool) + "/search"
  }

  /** A search URL carries no query string yet, so `?page=N` can be
      appended to it. */
  lemma ToolSearchUrlHasNoQuery(tool: nat)
    ensures var u := ToolSearchUrl(tool);
            forall k :: 0 <= k < |u| ==> u[k] != '?' && u[k] != '&'
  {
    var u := ToolSearchUrl(tool);
    var a := BaseUrl + "/tools/";
    var d := NatToString(tool);
    assert forall k :: 0 <= k < |a| ==> a[k] != '?' && a[k] != '&';
    forall k | 0 <= k < |u|
      ensures u[k] != '?' && u[k] != '&'
    {
      if |a| <= k < |a| + |d| {
        assert u[k] == d[k - |a|] && IsDigit(d[k - |a|]);
      }
    }
  }

  /** `target_city.strip().lower()`, as every scraper's constructor stores
      the city. */
  function TargetCity(cs: Chars, raw: string): string {
    Lower(cs, Strip(raw))
  }

  /** `base + "?page=" + str(n)`, the address of result page `n`. */
  function PageUrl(base: string, n: nat): string {
    base + "?page=" + NatToString(n)
  }

  /** The HTTP side (`fetch_page_content`, or the inline `session.get` of
      c.py): `site` says what a GET of each URL yields — a parsed page, or
      None for a network error, a timeout or a non-2xx status — and
      `requested` records, in order, every URL asked for. */
  class Fetcher {
    const site: string -> Option<Page>
    var requested: seq<string>

    constructor (site: string -> Option<Page>)
      ensures this.site == site && requested == []
    {
      this.site := site;
      requested := [];
    }

    method Fetch(url: string) returns (page: Option<Page>)
      modifies this
      ensures requested == old(requested) + [url]
      ensures page == site(url)
    {
      requested := requested + [url];
      page := site(url);
    }
  }
}
