/** b.py `CROUSScraper`, the strict scraper: a page counts only when the city
    occurs in its text and the postal-code check accepts that text, and
    each mention is kept only when the check accepts the text of the
    element around it. */
module StrictScraper {
  import opened Text
  import opened Html
  import opened Postal
  import opened Env
  import opened Snippet
  import opened FirstSeen
  import opened Pagination
  import opened Alert

  /** `main_search_url`. */
  const SearchUrl: string := ToolSearchUrl(42)

  /** One dictionary built by `extract_city_context`. */
  datatype Mention = Mention(title: string, link: string, context: string, pageUrl: string)

  /** The same dictionary once the scan has set its `page_number`. */
  datatype Found = Found(title: string, link: string, context: string, pageUrl: string, pageNumber: nat)

  // ---------------------------------------------------------------------
  // check_for_city_anywhere

  /** The page text names the city as a whole word, ignoring case, and the
      postal-code check accepts the whole text. */
  predicate CityOnPage(cs: Chars, city: string, doc: Doc) {
    var text := GetText(doc, 0);
    HasWord(cs, text, city) && IsValidCityMatch(cs, city, text)
  }

  /** Cleans the soup in place, then checks the page. */
  method CheckForCityAnywhere(lib: Lib, city: string, soup: Soup) returns (found: bool)
    requires soup.Valid()
    modifies soup
    ensures soup.Valid() && soup.View() == Cleaned(old(soup.View()))
    ensures found == CityOnPage(lib.chars, city, soup.View())
  {
    soup.RemoveOnlySearchElements();
    var text := GetText(soup.View(), 0);
    if !HasWord(lib.chars, text, city) {
      return false;
    }
    found := IsValidCityMatch(lib.chars, city, text);
  }

  // ---------------------------------------------------------------------
  // extract_city_context

  /** `soup.find('link', rel='canonical')['href'] if ... else ""`: the empty
      string without such a link, its `href` with one, and None when the
      link has no `href` — the subscript then raises `KeyError`. */
  function CanonicalUrl(doc: Doc): Option<string> {
    var l := Find(doc, 0, TagWithRel("link", "canonical"));
    if l.None? then Some("")
    else if doc.nodes[l.value].href.Some? then Some(doc.nodes[l.value].href.value)
    else None
  }

  /** The entry built for the string `s` (with `url` as its `page_url`):
      none when `s` has no parent, when the check rejects the parent's text,
      or when the context is 10 characters or shorter. */
  function EntryFor(lib: Lib, city: string, doc: Doc, s: nat, url: string): Option<Mention> {
    var parent := if s < |doc.nodes| then doc.nodes[s].parent else None;
    if parent.None? then None
    else
      var p := parent.value;
      var text := GetStrippedText(doc, p);
      var context := ContextOf(text);
      if IsValidCityMatch(lib.chars, city, text) && |context| > 10 then
        Some(Mention(TitleOf(doc, p), UrlOrEmpty(LinkOf(lib, doc, p)), context, url))
      else None
  }

  /** `urljoin` raises on the link of `s`'s parent, which the check
      accepted. */
  predicate LinkFails(lib: Lib, city: string, doc: Doc, s: nat) {
    var parent := if s < |doc.nodes| then doc.nodes[s].parent else None;
    parent.Some? && IsValidCityMatch(lib.chars, city, GetStrippedText(doc, parent.value))
    && LinkOf(lib, doc, parent.value).None?
  }

  /** Building the entry for `s` raises: `urljoin` fails on its link, or it
      yields an entry and the canonical link has no `href` (`KeyError`). */
  predicate RaisesAt(lib: Lib, city: string, doc: Doc, s: nat) {
    LinkFails(lib, city, doc, s) || (EntryFor(lib, city, doc, s, "").Some? && CanonicalUrl(doc).None?)
  }

  /** Some string of `ss` raises: the `except` then returns `[]`. */
  predicate Raises(lib: Lib, city: string, doc: Doc, ss: seq<nat>) {
    exists k :: 0 <= k < |ss| && RaisesAt(lib, city, doc, ss[k])
  }

  /** The entries of the strings `ss`, in order. */
  function EntriesOf(lib: Lib, city: string, doc: Doc, ss: seq<nat>, url: string): seq<Mention> {
    if ss == [] then []
    else
      var e := EntryFor(lib, city, doc, ss[|ss| - 1], url);
      EntriesOf(lib, city, doc, ss[..|ss| - 1], url) + (if e.Some? then [e.value] else [])
  }

  /** Two entries are duplicates when their titles and the first 100
      characters of their contexts agree. */
  function MentionKey(m: Mention): (string, string) {
    (m.title, Take(m.context, 100))
  }

  /** The strings of the page that name the city. */
  function CityStrings(lib: Lib, city: string, doc: Doc): seq<nat> {
    FindAll(doc, 0, TextWithWord(lib.chars, city))
  }

  /** What `extract_city_context` returns for an already cleaned page: the
      first five entries after de-duplication, or nothing at all when
      building an entry raises. */
  function Extracted(lib: Lib, city: string, doc: Doc): seq<Mention> {
    var ss := CityStrings(lib, city, doc);
    if Raises(lib, city, doc, ss) then []
    else Take(Dedup(EntriesOf(lib, city, doc, ss, UrlOrEmpty(CanonicalUrl(doc))), MentionKey), 5)
  }

  /** The entries of a prefix of the strings are a prefix of the entries. */
  lemma {:induction false} EntriesOfPrefix(lib: Lib, city: string, doc: Doc, ss: seq<nat>, i: nat, url: string)
    requires i <= |ss|
    ensures EntriesOf(lib, city, doc, ss[..i], url) <= EntriesOf(lib, city, doc, ss, url)
    decreases |ss| - i
  {
    if i < |ss| {
      EntriesOfPrefix(lib, city, doc, ss[..|ss| - 1], i, url);
      assert ss[..|ss| - 1][..i] == ss[..i];
    } else {
      assert ss[..i] == ss;
    }
  }

  /** Each entry comes from one of the strings: its parent's text passes
      the postal-code check, and the entry carries that element's title,
      link and context. */
  lemma {:induction false} EntriesOfMember(lib: Lib, city: string, doc: Doc, ss: seq<nat>, url: string, m: Mention)
    requires m in EntriesOf(lib, city, doc, ss, url)
    ensures exists k :: 0 <= k < |ss| && EntryFor(lib, city, doc, ss[k], url) == Some(m)
  {
    var init := ss[..|ss| - 1];
    if m in EntriesOf(lib, city, doc, init, url) {
      EntriesOfMember(lib, city, doc, init, url, m);
      var k :| 0 <= k < |init| && EntryFor(lib, city, doc, init[k], url) == Some(m);
      assert init[k] == ss[k];
    }
  }

  lemma EntriesOfStep(lib: Lib, city: string, doc: Doc, ss: seq<nat>, i: nat, url: string)
    requires i < |ss|
    ensures EntriesOf(lib, city, doc, ss[..i + 1], url)
         == EntriesOf(lib, city, doc, ss[..i], url)
            + (if EntryFor(lib, city, doc, ss[i], url).Some? then [EntryFor(lib, city, doc, ss[i], url).value] else [])
  {
    assert ss[..i + 1][..i] == ss[..i];
  }

  /** A string whose entry exists leaves the entries of the whole page
      non-empty. */
  lemma EntriesNonEmpty(lib: Lib, city: string, doc: Doc, ss: seq<nat>, i: nat, url: string)
    requires i < |ss| && EntryFor(lib, city, doc, ss[i], url).Some?
    ensures EntriesOf(lib, city, doc, ss, url) != []
  {
    EntriesOfStep(lib, city, doc, ss, i, url);
    EntriesOfPrefix(lib, city, doc, ss, i + 1, url);
  }

  /** The extraction raises exactly when `urljoin` fails on the link of a
      string whose parent passes the check, or when there is an entry and
      the canonical link has no `href`. */
  lemma RaisesIff(lib: Lib, city: string, doc: Doc, ss: seq<nat>)
    ensures Raises(lib, city, doc, ss) <==>
              (exists k :: 0 <= k < |ss| && LinkFails(lib, city, doc, ss[k]))
              || (EntriesOf(lib, city, doc, ss, UrlOrEmpty(CanonicalUrl(doc))) != [] && CanonicalUrl(doc).None?)
  {
    var u := UrlOrEmpty(CanonicalUrl(doc));
    if Raises(lib, city, doc, ss) {
      var k :| 0 <= k < |ss| && RaisesAt(lib, city, doc, ss[k]);
      if !LinkFails(lib, city, doc, ss[k]) {
        assert u == "";
        EntriesNonEmpty(lib, city, doc, ss, k, u);
      }
    }
    var entries := EntriesOf(lib, city, doc, ss, u);
    if entries != [] && CanonicalUrl(doc).None? {
      EntriesOfMember(lib, city, doc, ss, u, entries[0]);
      var k :| 0 <= k < |ss| && EntryFor(lib, city, doc, ss[k], u) == Some(entries[0]);
      assert RaisesAt(lib, city, doc, ss[k]);
    }
  }

  /** The loop body for one string: the entry it yields, or `raised` when
      building it raises. */
  method BuildEntry(lib: Lib, city: string, doc: Doc, s: nat) returns (entry: Option<Mention>, raised: bool)
    requires s < |doc.nodes|
    ensures raised <==> RaisesAt(lib, city, doc, s)
    ensures !raised ==> entry == EntryFor(lib, city, doc, s, UrlOrEmpty(CanonicalUrl(doc)))
  {
    ghost var expected := EntryFor(lib, city, doc, s, UrlOrEmpty(CanonicalUrl(doc)));
    entry, raised := None, false;
    var parent := doc.nodes[s].parent;
    if parent.Some? {
      var p := parent.value;
      var elementText := GetStrippedText(doc, p);
      var valid := IsValidCityMatch(lib.chars, city, elementText);
      if valid {
        var title := FindTitle(doc, p);
        var link := LinkOf(lib, doc, p);
        if link.None? {
          return None, true;
        }
        var context := ContextOf(elementText);
        if |context| > 10 {
          var pageUrl := CanonicalUrl(doc);
          assert expected == Some(Mention(title, link.value, context, UrlOrEmpty(pageUrl)));
          if pageUrl.None? {
            return None, true;
          }
          entry := Some(Mention(title, link.value, context, pageUrl.value));
        } else {
          assert expected.None?;
        }
      } else {
        assert expected.None?;
      }
    } else {
      assert expected.None?;
    }
  }

  /** The extraction loop, on the soup the check already cleaned (it cleans
      again, which changes nothing more). */
  method ExtractCityContext(lib: Lib, city: string, soup: Soup) returns (r: seq<Mention>)
    requires soup.Valid()
    modifies soup
    ensures soup.Valid() && soup.View() == Cleaned(old(soup.View()))
    ensures r == Extracted(lib, city, soup.View())
  {
    soup.RemoveOnlySearchElements();
    var contexts, raised := CollectEntries(lib, city, soup.View());
    if raised {
      return [];
    }
    var unique := DedupByKey(contexts, MentionKey);
    r := Take(unique, 5);
  }

  /** `all_elements = soup.find_all(string=city_pattern)` and the loop over
      them. */
  method CollectEntries(lib: Lib, city: string, doc: Doc) returns (contexts: seq<Mention>, raised: bool)
    ensures var ss := CityStrings(lib, city, doc);
            (raised <==> Raises(lib, city, doc, ss))
            && (!raised ==> contexts == EntriesOf(lib, city, doc, ss, UrlOrEmpty(CanonicalUrl(doc))))
  {
    var all := FindAll(doc, 0, TextWithWord(lib.chars, city));
    contexts, raised := CollectFrom(lib, city, doc, all);
  }

  /** The `for text in all_elements` loop: the entries in page order, or
      `raised` when building one of them raises. */
  method CollectFrom(lib: Lib, city: string, doc: Doc, all: seq<nat>) returns (contexts: seq<Mention>, raised: bool)
    requires forall k :: 0 <= k < |all| ==> all[k] < |doc.nodes|
    ensures raised <==> Raises(lib, city, doc, all)
    ensures !raised ==> contexts == EntriesOf(lib, city, doc, all, UrlOrEmpty(CanonicalUrl(doc)))
  {
    ghost var u := UrlOrEmpty(CanonicalUrl(doc));
    contexts := [];
    var i := 0;
    while i < |all|
      invariant 0 <= i <= |all|
      invariant contexts == EntriesOf(lib, city, doc, all[..i], u)
      invariant forall k :: 0 <= k < i ==> !RaisesAt(lib, city, doc, all[k])
    {
      EntriesOfStep(lib, city, doc, all, i, u);
      var entry, stop := BuildEntry(lib, city, doc, all[i]);
      if stop {
        RaisesWitness(lib, city, doc, all, i);
        return [], true;
      }
      NoRaiseStep(lib, city, doc, all, i);
      if entry.Some? {
        contexts := contexts + [entry.value];
      }
      i := i + 1;
    }
    assert all[..i] == all;
    raised := false;
  }

  /** The strings before `i + 1` raise nothing when those before `i` and
      the `i`-th raise nothing. */
  lemma NoRaiseStep(lib: Lib, city: string, doc: Doc, ss: seq<nat>, i: nat)
    requires i < |ss| && !RaisesAt(lib, city, doc, ss[i])
    requires forall k :: 0 <= k < i ==> !RaisesAt(lib, city, doc, ss[k])
    ensures forall k :: 0 <= k < i + 1 ==> !RaisesAt(lib, city, doc, ss[k])
  {
  }

  /** One string that raises makes the whole loop raise. */
  lemma RaisesWitness(lib: Lib, city: string, doc: Doc, ss: seq<nat>, i: nat)
    requires i < |ss| && RaisesAt(lib, city, doc, ss[i])
    ensures Raises(lib, city, doc, ss)
  {
  }

  /** At most five entries, no two alike. */
  lemma ExtractedBounded(lib: Lib, city: string, doc: Doc)
    ensures |Extracted(lib, city, doc)| <= 5
    ensures UniqueKeys(Extracted(lib, city, doc), MentionKey)
  {
    var url := CanonicalUrl(doc);
    var entries := EntriesOf(lib, city, doc, CityStrings(lib, city, doc), UrlOrEmpty(url));
    DedupKeys(entries, MentionKey);
  }

  /** `m` describes element `p`: the postal-code check accepts its text, and
      `m` carries its title, its link and its context. */
  predicate FromElement(lib: Lib, city: string, doc: Doc, p: nat, m: Mention) {
    IsValidCityMatch(lib.chars, city, GetStrippedText(doc, p))
    && m.context == ContextOf(GetStrippedText(doc, p))
    && m.title == TitleOf(doc, p) && LinkOf(lib, doc, p) == Some(m.link)
  }

  /** Every extracted entry describes a live string naming the city whose
      parent element's text passes the postal-code check: the entry holds
      that element's title and link, and its context is that text cut to
      400 characters with its whitespace collapsed: more than 10 and at
      most 400 characters, single-spaced, with no space at either end. */
  lemma ExtractedEntry(lib: Lib, city: string, doc: Doc, m: Mention)
    requires m in Extracted(lib, city, doc)
    ensures exists s: nat :: LiveHit(doc, s, TextWithWord(lib.chars, city))
              && doc.nodes[s].parent.Some? && FromElement(lib, city, doc, doc.nodes[s].parent.value, m)
    ensures 10 < |m.context| <= 400 && Normalized(m.context)
    ensures CanonicalUrl(doc) == Some(m.pageUrl)
  {
    var url := CanonicalUrl(doc);
    var ss := CityStrings(lib, city, doc);
    var entries := EntriesOf(lib, city, doc, ss, UrlOrEmpty(url));
    assert m in Dedup(entries, MentionKey);
    DedupSubset(entries, MentionKey);
    EntriesOfMember(lib, city, doc, ss, UrlOrEmpty(url), m);
    var k :| 0 <= k < |ss| && EntryFor(lib, city, doc, ss[k], UrlOrEmpty(url)) == Some(m);
    var s := ss[k];
    assert !RaisesAt(lib, city, doc, s);
    EntryFrom(lib, city, doc, s, UrlOrEmpty(url), m);
    ContextShape(GetStrippedText(doc, doc.nodes[s].parent.value));
  }

  /** An entry built without raising describes the parent of its string. */
  lemma EntryFrom(lib: Lib, city: string, doc: Doc, s: nat, url: string, m: Mention)
    requires EntryFor(lib, city, doc, s, url) == Some(m) && !LinkFails(lib, city, doc, s)
    ensures s < |doc.nodes| && doc.nodes[s].parent.Some?
    ensures FromElement(lib, city, doc, doc.nodes[s].parent.value, m)
    ensures m.pageUrl == url && EntryFor(lib, city, doc, s, "").Some?
  {
  }

  /** Unless building an entry raises, the result is the first five of the
      entries that are the first of their key, in page order; if it raises,
      the result is empty. */
  lemma ExtractedIsFirsts(lib: Lib, city: string, doc: Doc)
    ensures var ss := CityStrings(lib, city, doc);
            var entries := EntriesOf(lib, city, doc, ss, UrlOrEmpty(CanonicalUrl(doc)));
            Extracted(lib, city, doc)
              == if Raises(lib, city, doc, ss) then [] else Take(Firsts(entries, MentionKey, |entries|), 5)
  {
    var entries := EntriesOf(lib, city, doc, CityStrings(lib, city, doc), UrlOrEmpty(CanonicalUrl(doc)));
    DedupIsFirsts(entries, MentionKey, |entries|);
    assert entries[..|entries|] == entries;
  }

  // ---------------------------------------------------------------------
  // scan_for_city_accommodations

  /** The entries with their page number set. */
  function Stamp(ms: seq<Mention>, n: nat): (r: seq<Found>)
    ensures |r| == |ms|
    ensures forall k :: 0 <= k < |ms| ==>
              r[k] == Found(ms[k].title, ms[k].link, ms[k].context, ms[k].pageUrl, n)
  {
    seq(|ms|, k requires 0 <= k < |ms| => Found(ms[k].title, ms[k].link, ms[k].context, ms[k].pageUrl, n))
  }

  /** What a fetched page contributes: its entries, numbered `n`, when the
      page passes the check on its cleaned text. */
  ghost function PageFinds(lib: Lib, city: string, page: Page, n: nat): seq<Found> {
    var doc := Cleaned(Doc(page, {}));
    if CityOnPage(lib.chars, city, doc) then Stamp(Extracted(lib, city, doc), n) else []
  }

  /** Page `n` fetched at `?page=N`: a failed fetch adds nothing. */
  ghost function NumberedPageFinds(lib: Lib, city: string, site: string -> Option<Page>, n: nat): seq<Found> {
    var page := site(PageUrl(SearchUrl, n));
    if page.Some? then PageFinds(lib, city, page.value, n) else []
  }

  /** Pages 2 to `last`. */
  ghost function LaterPages(lib: Lib, city: string, site: string -> Option<Page>, last: int): seq<Found>
    decreases last
  {
    if last < 2 then [] else LaterPages(lib, city, site, last - 1) + NumberedPageFinds(lib, city, site, last)
  }

  /** The URLs of pages 2 to `last`. */
  function LaterUrls(last: int): (r: seq<string>)
    ensures |r| == if last < 2 then 0 else last - 1
    decreases last
  {
    if last < 2 then [] else LaterUrls(last - 1) + [PageUrl(SearchUrl, last)]
  }

  /** The k-th later URL (from 0) asks for page k + 2. */
  lemma {:induction false} LaterUrlsAt(last: int)
    ensures forall k :: 0 <= k < |LaterUrls(last)| ==> LaterUrls(last)[k] == PageUrl(SearchUrl, k + 2)
    decreases last
  {
    if last >= 2 {
      LaterUrlsAt(last - 1);
    }
  }

  /** `min(max_pages, get_total_pages(first page))`. */
  function PagesToScan(cs: Chars, first: Page, maxPages: int): int {
    var total := TotalPages(cs, Doc(first, {}));
    if maxPages < total then maxPages else total
  }

  /** What the scan returns for the site's answers: None when the first
      page cannot be fetched or nothing is found. */
  ghost function ScanResult(lib: Lib, city: string, site: string -> Option<Page>, maxPages: int): Option<seq<Found>> {
    var first := site(SearchUrl);
    if first.None? then None
    else
      var all := PageFinds(lib, city, first.value, 1)
                 + LaterPages(lib, city, site, PagesToScan(lib.chars, first.value, maxPages));
      if all == [] then None else Some(all)
  }

  /** The URLs the scan requests, in order. */
  function ScanRequests(cs: Chars, site: string -> Option<Page>, maxPages: int): seq<string> {
    var first := site(SearchUrl);
    [SearchUrl] + if first.None? then [] else LaterUrls(PagesToScan(cs, first.value, maxPages))
  }

  /** One page: clean and check it, and extract its entries when it passes. */
  method ScanPage(lib: Lib, city: string, page: Page, n: nat) returns (finds: seq<Found>)
    ensures finds == PageFinds(lib, city, page, n)
  {
    var soup := new Soup(page);
    var found := CheckForCityAnywhere(lib, city, soup);
    finds := [];
    if found {
      CleanedIdempotent(Doc(page, {}));
      var contexts := ExtractCityContext(lib, city, soup);
      finds := Stamp(contexts, n);
    }
  }

  method ScanForCityAccommodations(lib: Lib, city: string, fetcher: Fetcher, maxPages: int)
      returns (r: Option<seq<Found>>)
    modifies fetcher
    ensures r == ScanResult(lib, city, fetcher.site, maxPages)
    ensures fetcher.requested == old(fetcher.requested) + ScanRequests(lib.chars, fetcher.site, maxPages)
  {
    ghost var before := fetcher.requested;
    var first := fetcher.Fetch(SearchUrl);
    if first.None? {
      NothingWithoutFirst(lib, city, fetcher.site, maxPages);
      return None;
    }
    ghost var later := LaterUrls(PagesToScan(lib.chars, first.value, maxPages));
    RequestsWithFirst(lib.chars, fetcher.site, maxPages, first.value);
    r := ScanFrom(lib, city, fetcher, maxPages, first.value);
    AppendAssoc(before, [SearchUrl], later);
  }

  /** Without the first page there is no result and no further request. */
  lemma NothingWithoutFirst(lib: Lib, city: string, site: string -> Option<Page>, maxPages: int)
    requires site(SearchUrl).None?
    ensures ScanResult(lib, city, site, maxPages).None?
    ensures ScanRequests(lib.chars, site, maxPages) == [SearchUrl]
  {
  }

  /** With the first page in, the requests are the search URL and then the
      later pages. */
  lemma RequestsWithFirst(cs: Chars, site: string -> Option<Page>, maxPages: int, first: Page)
    requires site(SearchUrl) == Some(first)
    ensures ScanRequests(cs, site, maxPages) == [SearchUrl] + LaterUrls(PagesToScan(cs, first, maxPages))
  {
  }

  /** Everything after the first page came back. */
  method ScanFrom(lib: Lib, city: string, fetcher: Fetcher, maxPages: int, first: Page)
      returns (r: Option<seq<Found>>)
    requires fetcher.site(SearchUrl) == Some(first)
    modifies fetcher
    ensures r == ScanResult(lib, city, fetcher.site, maxPages)
    ensures fetcher.requested == old(fetcher.requested) + LaterUrls(PagesToScan(lib.chars, first, maxPages))
  {
    var total := GetTotalPages(lib.chars, Doc(first, {}));
    var pagesToScan := if maxPages < total then maxPages else total;
    var results := ScanPage(lib, city, first, 1);
    var later := ScanLaterPages(lib, city, fetcher, pagesToScan);
    results := results + later;
    ScanComposed(lib, city, fetcher.site, maxPages, first, pagesToScan);
    return if results != [] then Some(results) else None;
  }

  /** The scan once the first page is in: page 1, then pages 2 to
      `pagesToScan`. */
  lemma ScanComposed(lib: Lib, city: string, site: string -> Option<Page>, maxPages: int, first: Page, pagesToScan: int)
    requires site(SearchUrl) == Some(first)
    requires pagesToScan == (var total := TotalPages(lib.chars, Doc(first, {})); if maxPages < total then maxPages else total)
    ensures var all := PageFinds(lib, city, first, 1) + LaterPages(lib, city, site, pagesToScan);
            ScanResult(lib, city, site, maxPages) == if all == [] then None else Some(all)
    ensures ScanRequests(lib.chars, site, maxPages) == [SearchUrl] + LaterUrls(pagesToScan)
  {
  }

  /** `for page_num in range(2, pages_to_scan + 1)`. */
  method ScanLaterPages(lib: Lib, city: string, fetcher: Fetcher, pagesToScan: int)
      returns (results: seq<Found>)
    modifies fetcher
    ensures results == LaterPages(lib, city, fetcher.site, pagesToScan)
    ensures fetcher.requested == old(fetcher.requested) + LaterUrls(pagesToScan)
  {
    results := [];
    var pageNum := 2;
    while pageNum <= pagesToScan
      invariant 2 <= pageNum && (pageNum == 2 || pageNum - 1 <= pagesToScan)
      invariant results == LaterPages(lib, city, fetcher.site, pageNum - 1)
      invariant fetcher.requested == old(fetcher.requested) + LaterUrls(pageNum - 1)
    {
      var finds := FetchAndScan(lib, city, fetcher, pageNum);
      results := results + finds;
      LaterStep(lib, city, fetcher.site, pageNum);
      assert results == LaterPages(lib, city, fetcher.site, pageNum);
      assert fetcher.requested == old(fetcher.requested) + LaterUrls(pageNum);
      pageNum := pageNum + 1;
    }
  }

  /** One more page appends that page's finds and its URL. */
  lemma LaterStep(lib: Lib, city: string, site: string -> Option<Page>, n: int)
    requires n >= 2
    ensures LaterPages(lib, city, site, n) == LaterPages(lib, city, site, n - 1) + NumberedPageFinds(lib, city, site, n)
    ensures LaterUrls(n) == LaterUrls(n - 1) + [PageUrl(SearchUrl, n)]
  {
  }

  /** One iteration: fetch `?page=N` and scan it when the fetch succeeds. */
  method FetchAndScan(lib: Lib, city: string, fetcher: Fetcher, n: nat) returns (finds: seq<Found>)
    modifies fetcher
    ensures finds == NumberedPageFinds(lib, city, fetcher.site, n)
    ensures fetcher.requested == old(fetcher.requested) + [PageUrl(SearchUrl, n)]
  {
    var page := fetcher.Fetch(PageUrl(SearchUrl, n));
    finds := [];
    if page.Some? {
      finds := ScanPage(lib, city, page.value, n);
    }
  }

  // ---------------------------------------------------------------------
  // Properties of the scan

  /** The entries of page `n` carry its number and are at most five. */
  lemma PageFindsShape(lib: Lib, city: string, page: Page, n: nat)
    ensures |PageFinds(lib, city, page, n)| <= 5
    ensures forall k :: 0 <= k < |PageFinds(lib, city, page, n)| ==> PageFinds(lib, city, page, n)[k].pageNumber == n
  {
    ExtractedBounded(lib, city, Cleaned(Doc(page, {})));
  }

  /** All entries of `fs` are numbered between `lo` and `hi`, in order. */
  predicate NumberedWithin(fs: seq<Found>, lo: int, hi: int) {
    (forall k :: 0 <= k < |fs| ==> lo <= fs[k].pageNumber <= hi)
    && forall i, j :: 0 <= i < j < |fs| ==> fs[i].pageNumber <= fs[j].pageNumber
  }

  lemma NumberedConcat(a: seq<Found>, b: seq<Found>, lo: int, mid: int, hi: int)
    requires NumberedWithin(a, lo, mid) && NumberedWithin(b, mid, hi) && lo <= mid <= hi
    ensures NumberedWithin(a + b, lo, hi)
  {
    var c := a + b;
    forall i, j | 0 <= i < j < |c| ensures c[i].pageNumber <= c[j].pageNumber {
      if j < |a| {
        assert c[i] == a[i] && c[j] == a[j];
      } else if i < |a| {
        assert c[i] == a[i] && c[j] == b[j - |a|];
      } else {
        assert c[i] == b[i - |a|] && c[j] == b[j - |a|];
      }
    }
  }

  /** Entries on the later pages are numbered 2 to `last`, in page order. */
  lemma {:induction false} LaterPagesOrdered(lib: Lib, city: string, site: string -> Option<Page>, last: int)
    ensures NumberedWithin(LaterPages(lib, city, site, last), 2, if last < 2 then 2 else last)
    decreases last
  {
    if last >= 2 {
      LaterPagesOrdered(lib, city, site, last - 1);
      var page := site(PageUrl(SearchUrl, last));
      var a := LaterPages(lib, city, site, last - 1);
      var b := NumberedPageFinds(lib, city, site, last);
      if page.Some? {
        PageFindsShape(lib, city, page.value, last);
      }
      assert NumberedWithin(b, last, last);
      NumberedConcat(a, b, 2, last, last);
    }
  }

  /** Every result names the page it came from: page 1, or a page from 2 up
      to both `max_pages` and the announced total, and the results are in
      page order. */
  lemma ScanPagesInRange(lib: Lib, city: string, site: string -> Option<Page>, maxPages: int)
    requires ScanResult(lib, city, site, maxPages).Some?
    ensures var rs := ScanResult(lib, city, site, maxPages).value;
            forall k :: 0 <= k < |rs| ==>
              rs[k].pageNumber == 1
              || (2 <= rs[k].pageNumber <= maxPages
                  && rs[k].pageNumber <= TotalPages(lib.chars, Doc(site(SearchUrl).value, {})))
    ensures var rs := ScanResult(lib, city, site, maxPages).value;
            forall i, j :: 0 <= i < j < |rs| ==> rs[i].pageNumber <= rs[j].pageNumber
  {
    var first := site(SearchUrl).value;
    var last := PagesToScan(lib.chars, first, maxPages);
    PageFindsShape(lib, city, first, 1);
    LaterPagesOrdered(lib, city, site, last);
    var a := PageFinds(lib, city, first, 1);
    var b := LaterPages(lib, city, site, last);
    assert NumberedWithin(a, 1, 1);
    assert last < 2 ==> b == [];
    FirstThenLater(a, b, last, maxPages, TotalPages(lib.chars, Doc(first, {})));
  }

  /** Page 1's entries followed by those of pages 2 to `last`, where `last`
      is at most both `max_pages` and the total, are numbered 1 or within
      both bounds, in page order. */
  lemma FirstThenLater(a: seq<Found>, b: seq<Found>, last: int, maxPages: int, total: int)
    requires NumberedWithin(a, 1, 1)
    requires NumberedWithin(b, 2, if last < 2 then 2 else last)
    requires last < 2 ==> b == []
    requires last <= maxPages && last <= total
    ensures forall k :: 0 <= k < |a + b| ==>
              (a + b)[k].pageNumber == 1
              || (2 <= (a + b)[k].pageNumber <= maxPages && (a + b)[k].pageNumber <= total)
    ensures forall i, j :: 0 <= i < j < |a + b| ==> (a + b)[i].pageNumber <= (a + b)[j].pageNumber
  {
    NumberedConcat(a, b, 1, 2, if last < 2 then 2 else last);
    forall k | 0 <= k < |a + b|
      ensures (a + b)[k].pageNumber == 1
              || (2 <= (a + b)[k].pageNumber <= maxPages && (a + b)[k].pageNumber <= total)
    {
      if k >= |a| {
        assert (a + b)[k] == b[k - |a|];
      }
    }
  }

  /** Every later request reads back, through the `page=` pattern that
      `get_total_pages` uses on links, as the number of the page it asks
      for. */
  lemma ScanRequestsNumbered(cs: Chars, site: string -> Option<Page>, maxPages: int)
    ensures var rq := ScanRequests(cs, site, maxPages);
            rq[0] == SearchUrl
            && forall k :: 1 <= k < |rq| ==> Search(cs, PageParam, rq[k]) == Some(k + 1)
  {
    var rq := ScanRequests(cs, site, maxPages);
    if site(SearchUrl).Some? {
      var first := site(SearchUrl).value;
      var later := LaterUrls(PagesToScan(cs, first, maxPages));
      RequestsWithFirst(cs, site, maxPages, first);
      LaterUrlsAt(PagesToScan(cs, first, maxPages));
      ToolSearchUrlHasNoQuery(42);
      forall k | 1 <= k < |rq|
        ensures Search(cs, PageParam, rq[k]) == Some(k + 1)
      {
        assert rq[k] == later[k - 1] == PageUrl(SearchUrl, k + 1);
        PageParamRoundTrip(cs, SearchUrl, k + 1);
      }
    } else {
      assert rq == [SearchUrl];
    }
  }

  // ---------------------------------------------------------------------
  // format_telegram_message

  /** The block of the `i`-th result. */
  function EntryText(i: nat, f: Found): string {
    Block(i, f.title, f.link, f.context, f.pageNumber)
  }

  function AlertHeader(cityName: string, count: nat): string {
    "\U{1F3E0} <b>CROUS Housing Alert for " + cityName + "!</b>\n\n"
    + "Found " + NatToString(count) + " mention(s) of " + cityName + ":\n\n"
  }

  /** The alert; `checkedAt` is the formatted current time. */
  function AlertMessage(lib: Lib, city: string, rs: seq<Found>, checkedAt: string): string {
    AlertHeader(lib.titleCase(city), |rs|) + Blocks(rs, EntryText) + Footer(checkedAt)
  }

  method FormatTelegramMessage(lib: Lib, city: string, results: seq<Found>, checkedAt: string)
      returns (message: string)
    ensures message == AlertMessage(lib, city, results, checkedAt)
  {
    var entries := "";
    var i := 0;
    while i < |results|
      invariant 0 <= i <= |results|
      invariant entries == Blocks(results[..i], EntryText)
    {
      BlocksStep(results, EntryText, i);
      entries := entries + EntryText(i + 1, results[i]);
      i := i + 1;
    }
    assert results[..i] == results;
    message := AlertHeader(lib.titleCase(city), |results|) + entries + Footer(checkedAt);
  }
}
