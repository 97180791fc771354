/** main.py `CROUSScraper`, the scraper behind the GUI: a page counts when
    its cleaned text names the city as a whole word (no postal-code check),
    every string naming the city yields a mention, and only the first and
    second result pages are scanned. */
module GuiScraper {
  import opened Text
  import opened Html
  import opened Env
  import opened Snippet
  import opened FirstSeen
  import opened Pagination
  import opened Alert

  /** `main_search_url`. */
  const SearchUrl: string := ToolSearchUrl(41)

  /** One dictionary built by `extract_city_context`. */
  datatype Mention = Mention(title: string, link: string, context: string, elementType: string)

  /** The dictionary `scan_single_url` returns. */
  datatype UrlScan = UrlScan(foundCity: bool, contexts: seq<Mention>, url: string)

  // ---------------------------------------------------------------------
  // check_for_city_anywhere

  /** The page text names the city as a whole word, ignoring case. */
  predicate CityOnPage(cs: Chars, city: string, doc: Doc) {
    HasWord(cs, GetText(doc, 0), city)
  }

  /** Cleans the soup in place, then searches its text. */
  method CheckForCityAnywhere(lib: Lib, city: string, soup: Soup) returns (found: bool)
    requires soup.Valid()
    modifies soup
    ensures soup.Valid() && soup.View() == Cleaned(old(soup.View()))
    ensures found == CityOnPage(lib.chars, city, soup.View())
  {
    soup.RemoveOnlySearchElements();
    var allText := GetText(soup.View(), 0);
    found := HasWord(lib.chars, allText, city);
  }

  // ---------------------------------------------------------------------
  // extract_city_context

  /** `parent.name or 'text'`. */
  function ElementType(doc: Doc, p: nat): string {
    if p < |doc.nodes| && doc.nodes[p].Element? && doc.nodes[p].name != "" then doc.nodes[p].name
    else "text"
  }

  /** The entry built for the string `s`: none when `s` has no parent or
      when the context is 10 characters or shorter. */
  function EntryFor(lib: Lib, doc: Doc, s: nat): Option<Mention> {
    var parent := if s < |doc.nodes| then doc.nodes[s].parent else None;
    if parent.None? then None
    else
      var p := parent.value;
      var context := ContextOf(GetStrippedText(doc, p));
      if |context| > 10 then Some(Mention(TitleOf(doc, p), UrlOrEmpty(LinkOf(lib, doc, p)), context, ElementType(doc, p)))
      else None
  }

  /** Building the entry for `s` raises: `urljoin` fails on the link of its
      parent. */
  predicate RaisesAt(lib: Lib, doc: Doc, s: nat) {
    var parent := if s < |doc.nodes| then doc.nodes[s].parent else None;
    parent.Some? && LinkOf(lib, doc, parent.value).None?
  }

  /** Some string of `ss` raises: the `except` then returns `[]`. */
  predicate Raises(lib: Lib, doc: Doc, ss: seq<nat>) {
    exists k :: 0 <= k < |ss| && RaisesAt(lib, doc, ss[k])
  }

  /** What each of the strings `ss` yields, in order. */
  function EntrySeq(lib: Lib, doc: Doc, ss: seq<nat>): (r: seq<Option<Mention>>)
    ensures |r| == |ss|
  {
    seq(|ss|, k requires 0 <= k < |ss| => EntryFor(lib, doc, ss[k]))
  }

  /** The strings of the page that name the city. */
  function CityStrings(lib: Lib, city: string, doc: Doc): seq<nat> {
    FindAll(doc, 0, TextWithWord(lib.chars, city))
  }

  /** The `contexts` list, before de-duplication. */
  function Entries(lib: Lib, city: string, doc: Doc): seq<Mention> {
    Somes(EntrySeq(lib, doc, CityStrings(lib, city, doc)))
  }

  /** Two entries are duplicates when the first 100 characters of their
      contexts agree; the title plays no part. */
  function ContextKey(m: Mention): string {
    Take(m.context, 100)
  }

  /** What `extract_city_context` returns for an already cleaned page:
      the entries after de-duplication, or nothing at all when building an
      entry raises. */
  function Extracted(lib: Lib, city: string, doc: Doc): seq<Mention> {
    if Raises(lib, doc, CityStrings(lib, city, doc)) then []
    else Dedup(Entries(lib, city, doc), ContextKey)
  }

  /** The loop body for the `i`-th string: its entry, or `raised` when
      building it raises. */
  method BuildEntry(lib: Lib, doc: Doc, ss: seq<nat>, i: nat) returns (entry: Option<Mention>, raised: bool)
    requires i < |ss|
    ensures raised <==> RaisesAt(lib, doc, ss[i])
    ensures !raised ==> entry == EntrySeq(lib, doc, ss)[i]
  {
    assert EntrySeq(lib, doc, ss)[i] == EntryFor(lib, doc, ss[i]);
    entry, raised := None, false;
    var s := ss[i];
    var parent := if s < |doc.nodes| then doc.nodes[s].parent else None;
    if parent.Some? {
      var p := parent.value;
      var elementText := GetStrippedText(doc, p);
      var title := FindTitle(doc, p);
      var link := LinkOf(lib, doc, p);
      if link.None? {
        return None, true;
      }
      var context := ContextOf(elementText);
      if |context| > 10 {
        entry := Some(Mention(title, link.value, context, ElementType(doc, p)));
      }
    }
  }

  /** `all_elements` and the loop over it. */
  method CollectEntries(lib: Lib, city: string, doc: Doc) returns (contexts: seq<Mention>, raised: bool)
    ensures raised <==> Raises(lib, doc, CityStrings(lib, city, doc))
    ensures !raised ==> contexts == Entries(lib, city, doc)
  {
    var all := FindAll(doc, 0, TextWithWord(lib.chars, city));
    contexts, raised := CollectFrom(lib, doc, all);
  }

  /** The `for text in all_elements` loop: the entries in page order, or
      `raised` when building one of them raises. */
  method CollectFrom(lib: Lib, doc: Doc, all: seq<nat>) returns (contexts: seq<Mention>, raised: bool)
    ensures raised <==> Raises(lib, doc, all)
    ensures !raised ==> contexts == Somes(EntrySeq(lib, doc, all))
  {
    ghost var es := EntrySeq(lib, doc, all);
    contexts := [];
    var i := 0;
    while i < |all|
      invariant 0 <= i <= |all|
      invariant contexts + Somes(es[i..]) == Somes(es)
      invariant forall k :: 0 <= k < i ==> !RaisesAt(lib, doc, all[k])
    {
      SomesAccumulate(contexts, es, i);
      var entry, stop := BuildEntry(lib, doc, all, i);
      if stop {
        RaisesWitness(lib, doc, all, i);
        return [], true;
      }
      NoRaiseStep(lib, doc, all, i);
      if entry.Some? {
        contexts := contexts + [entry.value];
      }
      i := i + 1;
    }
    assert es[i..] == [];
    raised := false;
  }

  /** The strings before `i + 1` raise nothing when those before `i` and
      the `i`-th raise nothing. */
  lemma NoRaiseStep(lib: Lib, doc: Doc, ss: seq<nat>, i: nat)
    requires i < |ss| && !RaisesAt(lib, doc, ss[i])
    requires forall k :: 0 <= k < i ==> !RaisesAt(lib, doc, ss[k])
    ensures forall k :: 0 <= k < i + 1 ==> !RaisesAt(lib, doc, ss[k])
  {
  }

  /** One string that raises makes the whole loop raise. */
  lemma RaisesWitness(lib: Lib, doc: Doc, ss: seq<nat>, i: nat)
    requires i < |ss| && RaisesAt(lib, doc, ss[i])
    ensures Raises(lib, doc, ss)
  {
  }

  /** The extraction, on the soup the check already cleaned (it cleans
      again, which changes nothing more). */
  method ExtractCityContext(lib: Lib, city: string, soup: Soup) returns (r: seq<Mention>)
    requires soup.Valid()
    modifies soup
    ensures soup.Valid() && soup.View() == Cleaned(old(soup.View()))
    ensures r == Extracted(lib, city, soup.View())
  {
    soup.RemoveOnlySearchElements();
    var contexts, raised := CollectEntries(lib, city, soup.View());
    if raised {
      return [];
    }
    r := DedupByKey(contexts, ContextKey);
  }

  /** `m` describes element `p`: it carries its title, its link, its context
      and its tag name. */
  predicate FromElement(lib: Lib, doc: Doc, p: nat, m: Mention) {
    m.context == ContextOf(GetStrippedText(doc, p))
    && m.title == TitleOf(doc, p) && LinkOf(lib, doc, p) == Some(m.link)
    && m.elementType == ElementType(doc, p)
  }

  /** Every extracted entry describes a live string naming the city: the
      entry holds its parent element's title, link and tag name, and its
      context is that element's text cut to 400 characters with its
      whitespace collapsed, more than 10 characters long. */
  lemma ExtractedEntry(lib: Lib, city: string, doc: Doc, m: Mention)
    requires m in Extracted(lib, city, doc)
    ensures exists s: nat :: LiveHit(doc, s, TextWithWord(lib.chars, city))
              && doc.nodes[s].parent.Some? && FromElement(lib, doc, doc.nodes[s].parent.value, m)
    ensures 10 < |m.context| <= 400 && Normalized(m.context)
  {
    var ss := CityStrings(lib, city, doc);
    var es := EntrySeq(lib, doc, ss);
    DedupSubset(Somes(es), ContextKey);
    SomesFrom(es, m);
    var k :| 0 <= k < |es| && es[k] == Some(m);
    assert !RaisesAt(lib, doc, ss[k]);
    assert EntryFor(lib, doc, ss[k]) == Some(m);
    var p := doc.nodes[ss[k]].parent.value;
    assert FromElement(lib, doc, p, m);
    ContextShape(GetStrippedText(doc, p));
  }

  /** No two extracted entries share their first 100 context characters, and
      unless building an entry raises, no key is lost: every entry has its
      key among the extracted ones. The result is then exactly the entries
      that are the first of their key, in page order, with no cap on their
      number; when building an entry raises it is empty. */
  lemma ExtractedKeys(lib: Lib, city: string, doc: Doc)
    ensures UniqueKeys(Extracted(lib, city, doc), ContextKey)
    ensures var raises := Raises(lib, doc, CityStrings(lib, city, doc));
            KeysOf(Extracted(lib, city, doc), ContextKey)
              == if raises then {} else KeysOf(Entries(lib, city, doc), ContextKey)
    ensures var es := Entries(lib, city, doc);
            Extracted(lib, city, doc)
              == if Raises(lib, doc, CityStrings(lib, city, doc)) then [] else Firsts(es, ContextKey, |es|)
  {
    var es := Entries(lib, city, doc);
    DedupKeys(es, ContextKey);
    DedupIsFirsts(es, ContextKey, |es|);
    assert es[..|es|] == es;
  }

  // ---------------------------------------------------------------------
  // scan_single_url and scan_for_city_accommodations

  /** What `scan_single_url` returns for the page the fetch of `url` gave:
      not found and no contexts when the fetch failed, the contexts of the
      cleaned page when the city is on it. */
  ghost function ScanOf(lib: Lib, city: string, url: string, page: Option<Page>): UrlScan {
    if page.None? then UrlScan(false, [], url)
    else
      var doc := Cleaned(Doc(page.value, {}));
      var found := CityOnPage(lib.chars, city, doc);
      UrlScan(found, if found then Extracted(lib, city, doc) else [], url)
  }

  method ScanSingleUrl(lib: Lib, city: string, fetcher: Fetcher, url: string) returns (r: UrlScan)
    modifies fetcher
    ensures r == ScanOf(lib, city, url, fetcher.site(url))
    ensures fetcher.requested == old(fetcher.requested) + [url]
  {
    var page := fetcher.Fetch(url);
    if page.None? {
      return UrlScan(false, [], url);
    }
    var soup := new Soup(page.value);
    var found := CheckForCityAnywhere(lib, city, soup);
    var contexts := [];
    if found {
      CleanedIdempotent(Doc(page.value, {}));
      contexts := ExtractCityContext(lib, city, soup);
    }
    r := UrlScan(found, contexts, url);
  }

  /** `urls_to_check`: the search page and its second page. */
  const UrlsToCheck: seq<string> := [SearchUrl, PageUrl(SearchUrl, 2)]

  /** The scan of each of `urls`, in order. */
  ghost function Scans(lib: Lib, city: string, site: string -> Option<Page>, urls: seq<string>): (r: seq<UrlScan>)
    ensures |r| == |urls|
  {
    seq(|urls|, k requires 0 <= k < |urls| => ScanOf(lib, city, urls[k], site(urls[k])))
  }

  /** The scans that found the city, in order. */
  function FoundOnly(rs: seq<UrlScan>): seq<UrlScan> {
    if rs == [] then []
    else FoundOnly(rs[..|rs| - 1]) + (if rs[|rs| - 1].foundCity then [rs[|rs| - 1]] else [])
  }

  /** What `scan_for_city_accommodations` returns. */
  ghost function ScanResult(lib: Lib, city: string, site: string -> Option<Page>): seq<UrlScan> {
    FoundOnly(Scans(lib, city, site, UrlsToCheck))
  }

  method ScanForCityAccommodations(lib: Lib, city: string, fetcher: Fetcher) returns (results: seq<UrlScan>)
    modifies fetcher
    ensures results == ScanResult(lib, city, fetcher.site)
    ensures fetcher.requested == old(fetcher.requested) + UrlsToCheck
  {
    results := ScanUrls(lib, city, fetcher, UrlsToCheck);
  }

  /** The `for url in urls_to_check` loop. */
  method ScanUrls(lib: Lib, city: string, fetcher: Fetcher, urls: seq<string>) returns (results: seq<UrlScan>)
    modifies fetcher
    ensures results == FoundOnly(Scans(lib, city, fetcher.site, urls))
    ensures fetcher.requested == old(fetcher.requested) + urls
  {
    ghost var scans := Scans(lib, city, fetcher.site, urls);
    ghost var r0 := fetcher.requested;
    results := [];
    var i := 0;
    while i < |urls|
      invariant 0 <= i <= |urls|
      invariant results == FoundOnly(scans[..i])
      invariant fetcher.requested == r0 + urls[..i]
    {
      var result := ScanUrlAt(lib, city, fetcher, urls, i, scans);
      FoundOnlyStep(scans, i);
      if result.foundCity {
        results := results + [result];
      }
      AppendPrefixStep(r0, urls, i);
      i := i + 1;
    }
    assert urls[..i] == urls && scans[..i] == scans;
  }

  /** One iteration: the scan of the `i`-th URL. */
  method ScanUrlAt(lib: Lib, city: string, fetcher: Fetcher, urls: seq<string>, i: nat, ghost scans: seq<UrlScan>)
      returns (r: UrlScan)
    requires i < |urls| && scans == Scans(lib, city, fetcher.site, urls)
    modifies fetcher
    ensures r == scans[i]
    ensures fetcher.requested == old(fetcher.requested) + [urls[i]]
  {
    r := ScanSingleUrl(lib, city, fetcher, urls[i]);
  }

  /** One more scan is kept exactly when it found the city. */
  lemma FoundOnlyStep(rs: seq<UrlScan>, i: nat)
    requires i < |rs|
    ensures FoundOnly(rs[..i + 1]) == FoundOnly(rs[..i]) + (if rs[i].foundCity then [rs[i]] else [])
  {
    assert rs[..i + 1][..i] == rs[..i];
  }

  /** The kept scans are exactly those that found the city: each of them is
      one of `rs`, and every scan of `rs` that found the city is kept. */
  lemma {:induction false} FoundOnlyExact(rs: seq<UrlScan>)
    ensures forall r :: r in FoundOnly(rs) <==> r in rs && r.foundCity
  {
    if rs != [] {
      var init := rs[..|rs| - 1];
      FoundOnlyExact(init);
      assert rs == init + [rs[|rs| - 1]];
    }
  }

  /** The report lists, in this order, the first page and then the second
      page, each exactly when its scan found the city. */
  lemma ScanReportsFoundPages(lib: Lib, city: string, site: string -> Option<Page>)
    ensures var a := ScanOf(lib, city, UrlsToCheck[0], site(UrlsToCheck[0]));
            var b := ScanOf(lib, city, UrlsToCheck[1], site(UrlsToCheck[1]));
            ScanResult(lib, city, site) == (if a.foundCity then [a] else []) + (if b.foundCity then [b] else [])
  {
    var scans := Scans(lib, city, site, UrlsToCheck);
    FoundOnlyStep(scans, 0);
    FoundOnlyStep(scans, 1);
    assert scans[..0] == [] && scans[..2] == scans;
  }

  /** The second URL asks for page 2: read back through the `page=` pattern
      it gives 2, and the first URL carries no page number at all. */
  lemma SecondUrlIsPageTwo(cs: Chars)
    ensures Search(cs, PageParam, UrlsToCheck[1]) == Some(2)
    ensures forall k :: 0 <= k < |UrlsToCheck[0]| ==> UrlsToCheck[0][k] != '?'
  {
    ToolSearchUrlHasNoQuery(41);
    PageParamRoundTrip(cs, SearchUrl, 2);
  }

  // ---------------------------------------------------------------------
  // format_telegram_message

  /** `sum(len(result['contexts']) for result in results)`. */
  function TotalMentions(rs: seq<UrlScan>): nat {
    if rs == [] then 0 else TotalMentions(rs[..|rs| - 1]) + |rs[|rs| - 1].contexts|
  }

  /** The one line sent when nothing was found. */
  function NothingFound(lib: Lib, city: string): string {
    "No " + lib.titleCase(city) + " mentions found on the CROUS housing website."
  }

  function Header(lib: Lib, city: string, rs: seq<UrlScan>): string {
    var cityName := lib.titleCase(city);
    "\U{1F3E0} <b>" + lib.upper(cityName) + " FOUND!</b>\n\n"
    + "Found " + cityName + " mentioned " + NatToString(TotalMentions(rs))
    + " time(s) on " + NatToString(|rs|) + " page(s):\n\n"
  }

  /** `🔗 <a href='…'>View Details</a>`, only with a link. */
  function DetailsLine(link: string): string {
    if link != "" then "\U{1F517} <a href='" + link + "'>View Details</a>\n" else ""
  }

  /** `📝 <first 250 characters of the context>...`. */
  function ContextLine(context: string): string {
    "\U{1F4DD} " + Take(context, 250) + "...\n"
  }

  /** The block of the `j`-th mention of a page. */
  function MentionBlock(j: nat, m: Mention): string {
    "\n<b>" + NatToString(j) + ". " + m.title + "</b>\n" + DetailsLine(m.link) + ContextLine(m.context)
  }

  /** `... and N more mentions`. */
  function MoreLine(n: nat): string {
    "\n... and " + NatToString(n) + " more mentions\n"
  }

  /** What a page with the mentions `ms` lists: a count line, the first three
      mentions, and how many more there are. */
  function MentionsPart(ms: seq<Mention>): string {
    if ms == [] then ""
    else
      "<b>\U{1F50D} Found " + NatToString(|ms|) + " mention(s):</b>\n"
      + Blocks(Take(ms, 3), MentionBlock)
      + (if |ms| > 3 then MoreLine(|ms| - 3) else "")
  }

  function PageLink(url: string): string {
    "\U{1F517} <a href='" + url + "'>View Page</a>\n\n"
  }

  const Separator: string := "\n\U{2796}\U{2796}\U{2796}\U{2796}\U{2796}\U{2796}\U{2796}\U{2796}\U{2796}\U{2796}\n\n"

  /** The section of the `i`-th page: numbered by its position among the
      results, not by its page number. */
  function PageSection(i: nat, r: UrlScan): string {
    "<b>\U{1F4CD} Page " + NatToString(i) + ":</b>\n" + PageLink(r.url) + MentionsPart(r.contexts) + Separator
  }

  function AlertMessage(lib: Lib, city: string, rs: seq<UrlScan>): string {
    if rs == [] then NothingFound(lib, city) else Header(lib, city, rs) + Blocks(rs, PageSection)
  }

  /** The mentions of one page: the count line, the `contexts[:3]` loop and
      the remainder line. */
  method FormatMentions(ms: seq<Mention>) returns (s: string)
    ensures s == MentionsPart(ms)
  {
    s := "";
    if ms != [] {
      var shown := Take(ms, 3);
      var blocks := "";
      var j := 0;
      while j < |shown|
        invariant 0 <= j <= |shown|
        invariant blocks == Blocks(shown[..j], MentionBlock)
      {
        BlocksStep(shown, MentionBlock, j);
        blocks := blocks + MentionBlock(j + 1, shown[j]);
        j := j + 1;
      }
      assert shown[..j] == shown;
      s := "<b>\U{1F50D} Found " + NatToString(|ms|) + " mention(s):</b>\n" + blocks;
      if |ms| > 3 {
        s := s + MoreLine(|ms| - 3);
      }
    }
  }

  method FormatTelegramMessage(lib: Lib, city: string, results: seq<UrlScan>) returns (message: string)
    ensures message == AlertMessage(lib, city, results)
  {
    if results == [] {
      return NothingFound(lib, city);
    }
    var sections := "";
    var i := 0;
    while i < |results|
      invariant 0 <= i <= |results|
      invariant sections == Blocks(results[..i], PageSection)
    {
      BlocksStep(results, PageSection, i);
      var mentions := FormatMentions(results[i].contexts);
      sections := sections + ("<b>\U{1F4CD} Page " + NatToString(i + 1) + ":</b>\n" + PageLink(results[i].url) + mentions + Separator);
      i := i + 1;
    }
    assert results[..i] == results;
    message := Header(lib, city, results) + sections;
  }

  /** The total counts every mention of every reported page. */
  lemma {:induction false} TotalMentionsSplit(a: seq<UrlScan>, b: seq<UrlScan>)
    ensures TotalMentions(a + b) == TotalMentions(a) + TotalMentions(b)
    decreases |b|
  {
    if b == [] {
      assert a + b == a;
    } else {
      var init := b[..|b| - 1];
      TotalMentionsSplit(a, init);
      assert (a + b)[..|a + b| - 1] == a + init;
    }
  }

  /** A page shows at most its first three mentions, each with its number,
      and says how many it leaves out. */
  lemma MentionsPartShape(ms: seq<Mention>, j: nat)
    requires j < |ms| && j < 3
    ensures IsSubstring(MentionBlock(j + 1, ms[j]), MentionsPart(ms))
    ensures |ms| > 3 ==> IsSubstring(MoreLine(|ms| - 3), MentionsPart(ms))
  {
    var shown := Take(ms, 3);
    var head := "<b>\U{1F50D} Found " + NatToString(|ms|) + " mention(s):</b>\n";
    var more := if |ms| > 3 then MoreLine(|ms| - 3) else "";
    assert shown[j] == ms[j];
    InMessage(head, shown, MentionBlock, more, j);
    var s := head + Blocks(shown, MentionBlock);
    SubAtConcat(s, more, more, 0);
  }

  /** With results, the message holds the section of each reported page, in
      order, and each section links the page and shows its mentions. */
  lemma AlertContents(lib: Lib, city: string, rs: seq<UrlScan>, k: nat)
    requires k < |rs|
    ensures IsSubstring(PageSection(k + 1, rs[k]), AlertMessage(lib, city, rs))
    ensures IsSubstring(PageLink(rs[k].url), PageSection(k + 1, rs[k]))
    ensures IsSubstring(MentionsPart(rs[k].contexts), PageSection(k + 1, rs[k]))
  {
    InMessage(Header(lib, city, rs), rs, PageSection, "", k);
    assert Header(lib, city, rs) + Blocks(rs, PageSection) + "" == AlertMessage(lib, city, rs);
    var s0 := "<b>\U{1F4CD} Page " + NatToString(k + 1) + ":</b>\n";
    var s1 := s0 + PageLink(rs[k].url);
    var s2 := s1 + MentionsPart(rs[k].contexts);
    SubAtConcat(s0, PageLink(rs[k].url), PageLink(rs[k].url), 0);
    SubAtConcat(s1, MentionsPart(rs[k].contexts), PageLink(rs[k].url), |s0|);
    SubAtConcat(s2, Separator, PageLink(rs[k].url), |s0|);
    SubAtConcat(s2, Separator, MentionsPart(rs[k].contexts), |s1|);
    assert s2 + Separator == PageSection(k + 1, rs[k]);
  }
}
