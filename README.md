# CROUS housing scraper — a Dafny model

The repository holds three variants of one scraper for the CROUS student
housing site (`trouverunlogement.lescrous.fr`). Each variant has a
`CROUSScraper` class that fetches the search result pages, looks for a
target city and builds a Telegram alert from what it finds.

- **b.py**, the strict scraper. A page counts only when its cleaned text
  names the city as a whole word and a postal-code check accepts it. Each
  mention of the city becomes an entry only when the text of the element
  around it passes the same check. Entries are de-duplicated on (title,
  first 100 context characters) and capped at five per page. The number of
  pages to scan comes from `get_total_pages`.
- **c.py**, the simple scraper. It picks listing elements with three
  fallbacks: listing links, then `<article>`, then `<div>`s with listing
  classes. A listing is kept when its text holds the city and the
  département prefix, or holds a five-digit code starting with the prefix.
  Listings whose link was already seen on the page are skipped.
- **main.py**, the GUI scraper. It checks the city word alone, with no
  postal code, and extracts every mention longer than 10 characters. These
  are de-duplicated on the first 100 context characters. It scans exactly
  the search page and its page 2.

The model is split into these modules:

| file | module | contents |
|---|---|---|
| `text.dfy` | `Text` | Strings: case folding, `\b` word matching, `strip`, `split`/`join`, digits and `str(n)` |
| `postal.dfy` | `Postal` | b.py's postal-code extraction and city validation |
| `html.dfy` | `Html` | The parsed page and the searches the scrapers use; `remove_only_search_elements` as a `Soup` class that decomposes nodes in place |
| `env.dfy` | `Env` | Library functions taken as given, the site URLs, and the fetcher |
| `snippet.dfy` | `Snippet` | Title, link and context of the element around a mention (b.py and main.py) |
| `pagination.dfy` | `Pagination` | b.py `get_total_pages` |
| `dedup.dfy` | `FirstSeen` | The `seen`-set de-duplication loops |
| `alert.dfy` | `Alert` | The alert layout shared by b.py and c.py |
| `strict.dfy` | `StrictScraper` | The b.py pipeline |
| `simple.dfy` | `SimpleScraper` | The c.py pipeline |
| `gui.dfy` | `GuiScraper` | The main.py pipeline |

Every loop of the source is a method with loop invariants, proved against a
function that states what the loop computes. The in-place cleaning of the
soup is a class whose methods say how its `gone` set grows.

## Model

| member | source | states |
|---|---|---|
| Text.LowerKeepsWord | b.py:214 | when lower-casing is idempotent and keeps word characters apart from the rest, a case-insensitive whole-word search finds the city in `text.lower()` exactly when it finds it in `text` |
| Text.Take | b.py:280 | a slice `s[:n]` is a prefix of `s`, of length `min(n, len(s))` |
| Text.Strip | b.py:265 | `strip()` gives a slice `s[i:j]` with no whitespace at either end, where everything before `i` and from `j` on is whitespace |
| Text.CollapseNormalized | b.py:266 | `' '.join(s.split())` has no leading or trailing whitespace, only single plain spaces, no two adjacent |
| Text.CollapseShrinks | b.py:266 | `' '.join(s.split())` is never longer than `s` |
| Text.WordsOfJoin | b.py:266 | `split()` gives back the words that `' '.join` put together, when no word is empty or holds whitespace |
| Text.CollapseKeepsWords | b.py:266 | `' '.join(s.split())` has the same words as `s`, so collapsing twice is collapsing once |
| Text.NatToString | b.py:309 | `str(n)` of a natural number is a non-empty run of digits |
| Text.DigitsValueOfNatToString | b.py:309 | reading `str(n)` back as a decimal number gives `n` |
| Text.FirstSomeIsFirst | b.py:254-259 | the first-present search finds nothing iff every entry is absent, and otherwise the entry at the first present position |
| Postal.PrefixesAreCodes | c.py:29-43 | every département prefix of the table is two digits |
| Postal.FirstPostalFrom | b.py:184 | the leftmost position from `from` where a standalone five-digit code matches, and no match before it |
| Postal.ExtractPostalCode | b.py:182-187 | None iff no standalone five-digit code exists; otherwise five digits, the leftmost such code |
| Postal.ValidForMappedCity | b.py:189-210 | a city of the table is accepted iff the first postal code exists and starts with the city's prefix |
| Postal.ValidForUnmappedCity | b.py:212-215 | any other city is accepted iff its name is a whole word of the lower-cased text and some postal code is present |
| Postal.NoPostalCodeRejects | b.py:203-205 | without a postal code every city is rejected |
| Postal.FirstCodeDecides | b.py:192-202 | a first code with a foreign prefix rejects a mapped city whatever codes follow |
| Postal.PostalAtIsolated | b.py:184 | five digits match iff their neighbours are not word characters, so "1975013" and "75013Paris" hold no code |
| Html.FindAll | b.py:239-240 | `find_all` returns exactly the live matches below the root, in document order |
| Html.FindAllEmpty | c.py:99 | `find_all` is empty iff nothing matches |
| Html.Find | c.py:149 | `find` gives the first match in document order, and None iff nothing matches |
| Html.FindPrevious | b.py:255 | `find_previous` gives the nearest live match before the node, and None iff there is none |
| Html.FindNext | b.py:256 | `find_next` gives the nearest live match after the node, and None iff there is none |
| Html.FindParent | b.py:261 | `find_parent` gives the nearest proper ancestor that matches, and None exactly when no proper ancestor matches |
| Html.CleanedRemovesExactly | b.py:146-168 | after cleaning, a node is gone iff it was gone before or lies under an element matching one of the twelve search selectors |
| Html.CleanedNoMatchUnchanged | b.py:146-168 | cleaning a page with no matching element changes nothing |
| Html.CleanedIdempotent | b.py:237 | cleaning an already cleaned page again changes nothing |
| Html.Soup.Decompose | b.py:166 | `decompose()` removes the element and its whole subtree, and nothing else |
| Html.Soup.DecomposeAll | b.py:165-166 | decomposing a list removes the union of the subtrees |
| Html.Soup.RemoveOnlySearchElements | b.py:146-168 | the in-place loop over the selectors leaves the soup equal to the cleaned page |
| Env.ToolSearchUrlHasNoQuery | b.py:29 | the search URL has no `?` or `&`, so `?page=N` can be appended |
| Env.Fetcher.Fetch | b.py:79-87 | a fetch returns what the site gives for the URL and records the request |
| Snippet.HeadingNearChoice | b.py:255-256 | `find or find_previous or find_next` finds a heading iff some live heading other than the element exists; a descendant wins over a preceding one, and a preceding one over a following one |
| Snippet.TitleRule | b.py:254-259 | the first level with a heading anywhere decides; no heading at any level gives "Unknown" |
| Snippet.FindTitle | b.py:251-259 | the title loop computes that title |
| Snippet.LinkSource | b.py:261-263 | a link other than the empty one is the result of `urljoin` on the `href` of an anchor inside or around the element, which is None where `urljoin` raises |
| Snippet.ContextShape | b.py:265-266 | a context is at most 400 characters, single-spaced, with no space at either end |
| Pagination.GetTotalPages | b.py:89-144 | the method returns what the four patterns decide, the first present one winning |
| Pagination.NavSignal | b.py:109-119 | the selector loop returns what the widget pattern decides |
| Pagination.WidgetLabels | b.py:110-117 | one selector gives the numeric labels inside its first element |
| Pagination.CollectLabels | b.py:113-117 | the label loop collects the all-digit labels, in order |
| Pagination.MaxParam | b.py:130-142 | the `max_page` loop gives the largest `page=N` parameter, or 1 |
| Pagination.EstimateIsCeiling | b.py:126-127 | the estimate is the number of 20-result pages, rounded up and capped at 10 |
| Pagination.ResultCountDecides | b.py:121-127 | with the title and the widgets silent, a result count decides, and the total is at most 10 |
| Pagination.FirstMaxIsFirst | b.py:109-119 | the widget signal (`NavTotal` is `FirstMax` over each selector's labels, in selector order) is the largest label of the first selector that has any, and every earlier selector has none |
| Pagination.ParamTotalIsMax | b.py:129-142 | the `page=` answer is at least 1 and at least every parameter found, and it is 1 or one of the parameters |
| Pagination.NoSignalMeansOnePage | b.py:142 | with no signal at all the page count is 1 |
| Pagination.SearchFindsFirst | b.py:96 | `re.search` returns the leftmost match |
| Pagination.PageParamRoundTrip | b.py:309 | `base?page=N` reads back as N through the `[?&]page=(\d+)` pattern |
| FirstSeen.KeysOfMember | b.py:278-283 | a key is seen iff some entry has it |
| FirstSeen.DedupKeys | b.py:277-283 | the kept entries have distinct keys, and exactly the keys of the input |
| FirstSeen.DedupSubset | b.py:277-283 | every kept entry comes from the input |
| FirstSeen.DedupIsFirsts | b.py:277-283 | the loop keeps exactly the first entry of each key, in input order |
| FirstSeen.DedupOfUnique | b.py:277-283 | input with distinct keys is kept whole |
| FirstSeen.DedupIdempotent | b.py:277-283 | de-duplicating twice changes nothing more |
| FirstSeen.DedupByKey | b.py:277-283 | the `seen`-set loop computes that de-duplication |
| Alert.BlockShape | b.py:333-337 | each block shows the title, the context cut to 200 characters and the page line, plus the link line when there is a link |
| Alert.EveryResultListed | b.py:332-337 | every result has its own block, numbered from 1 |
| Alert.InMessage | b.py:328-341 | the alert holds the block of every result |
| StrictScraper.CheckForCityAnywhere | b.py:217-231 | the soup is cleaned in place, and the answer is whether the cleaned text names the city and passes the postal-code check |
| StrictScraper.BuildEntry | b.py:242-275 | one string yields the entry of its parent when that passes the check and has more than 10 characters of context; it raises exactly when `urljoin` fails on a checked parent's link, or when it yields an entry and the canonical link has no `href` |
| StrictScraper.CollectEntries | b.py:239-275 | the strings naming the city, then their entries in page order, or a stop exactly when one of them raises |
| StrictScraper.CollectFrom | b.py:242-275 | the loop collects the entries of the given strings in page order, or stops exactly when some string raises (a failing `urljoin` or the `KeyError`) |
| StrictScraper.ExtractCityContext | b.py:233-288 | the cleaned soup, and the first five de-duplicated entries, or nothing when building an entry raises |
| StrictScraper.EntriesOfMember | b.py:242-275 | every entry comes from one of the strings that name the city |
| StrictScraper.ExtractedBounded | b.py:277-285 | at most five entries, no two with the same title and context start |
| StrictScraper.ExtractedEntry | b.py:242-275 | every entry describes a live string naming the city whose parent's text passes the check; the context is 11 to 400 characters, normalised; the page URL is the canonical one |
| StrictScraper.RaisesIff | b.py:261-273 | the extraction raises exactly when `urljoin` fails on the link of a string whose parent passes the check, or when there is an entry and the canonical link has no `href` |
| StrictScraper.ExtractedIsFirsts | b.py:277-288 | the result is nothing when some string raises, and otherwise the first five entries that are first of their key |
| StrictScraper.ScanPage | b.py:302-306 | a page gives its entries, numbered, when it passes the check, and nothing otherwise |
| StrictScraper.ScanForCityAccommodations | b.py:290-324 | None when the first page cannot be fetched or nothing is found; otherwise page 1 then pages 2 to `min(max_pages, total)`; the requests are exactly those URLs |
| StrictScraper.ScanLaterPages | b.py:308-319 | the page loop collects pages 2 to the last and requests each `?page=N` once, in order |
| StrictScraper.FetchAndScan | b.py:309-319 | a failed fetch adds nothing |
| StrictScraper.PageFindsShape | b.py:285 | a page contributes at most five entries, all numbered with that page |
| StrictScraper.ScanPagesInRange | b.py:299-319 | every result is from page 1 or a page between 2 and both `max_pages` and the announced total, and results come in page order |
| StrictScraper.ScanRequestsNumbered | b.py:308-310 | the first request is the search page, and the k-th later request reads back as page k+1 |
| StrictScraper.FormatTelegramMessage | b.py:326-341 | the message is the header, one block per result and the footer |
| SimpleScraper.ListingSelection | c.py:96-104 | listings are the listing links when there are any, else the articles, else the listing divs, in document order |
| SimpleScraper.PrefixedCodeIsPostal | c.py:118-119 | the prefixed-code pattern matches iff a standalone five-digit code starts with the prefix there |
| SimpleScraper.AcceptRule | c.py:113-122 | a listing is accepted iff its text names the city and holds the prefix anywhere, or holds a standalone code starting with the prefix |
| SimpleScraper.LooserThanStrict | c.py:113-122 | "Paris 1975" is accepted here although b.py's check rejects it: the bare prefix need not start a postal code |
| SimpleScraper.ResolveLinkShape | c.py:136-140 | a resolved link starts with "http", an http link is kept, any other is joined to the site with one slash, and resolving twice changes nothing |
| SimpleScraper.ListingLinkSource | c.py:128-140 | an anchor listing links to its own `href`; otherwise the first anchor with an `href` inside it decides; with neither the link is empty |
| SimpleScraper.HasInnerIff | c.py:149-150 | `listing.find(tag)` finds something iff some `tag` element lies inside |
| SimpleScraper.ListingTitleDefault | c.py:124-152 | with no heading inside the listing, the title is "Logement trouvé" |
| SimpleScraper.ListingTitleFirst | c.py:148-152 | otherwise the first heading of the first level that has one inside the listing is the title |
| SimpleScraper.FindListingTitle | c.py:148-152 | the title loop computes that title |
| SimpleScraper.ListingContextShape | c.py:155 | the context is a prefix of the collapsed text, at most 400 characters, with no leading space and single plain spaces |
| SimpleScraper.KeepNewLinksSound | c.py:142-145 | every kept listing was a candidate, its link was not seen before, and no two kept listings share a non-empty link |
| SimpleScraper.KeepNewLinksComplete | c.py:142-145 | a candidate with no link, or with a new link not used earlier, is kept |
| SimpleScraper.PageListingsShape | c.py:108-164 | every result of a page is an accepted listing's entry, numbered with the page, with at most 400 context characters and a link used once |
| SimpleScraper.ScanListings | c.py:96-164 | the listing loop of one page computes those results |
| SimpleScraper.FilterListings | c.py:108-164 | the `seen_links` loop keeps exactly the accepted listings with new links, in order |
| SimpleScraper.Visit | c.py:111-164 | one listing is kept when accepted and its link is new, and its link joins `seen_links` |
| SimpleScraper.ScanForCityAccommodations | c.py:66-175 | an unmapped city gives None with no request; otherwise pages 1 to `max_pages` are fetched in order and None means nothing was found |
| SimpleScraper.ScanPages | c.py:79-169 | the page loop collects every page's results in order, and a failed page adds nothing |
| SimpleScraper.ScanPage | c.py:80-169 | page 1 is the bare URL and page N adds `?page=N` |
| SimpleScraper.PagesOrdered | c.py:161 | results carry page numbers from 1 to the last page, in order |
| SimpleScraper.ScanPlan | c.py:72-83 | an unmapped city makes no request; otherwise `max_pages` requests, the first the bare search URL and the k-th reading back as page k+1; a result is non-empty and in page order |
| SimpleScraper.FormatTelegramMessage | c.py:177-194 | the message is the header with the prefix, one block per result and the footer |
| SimpleScraper.AlertContents | c.py:180-190 | the alert shows the prefix ("??" for an unmapped city) and the block of every result |
| GuiScraper.CheckForCityAnywhere | main.py:75-83 | the soup is cleaned in place, and the answer is whether its text names the city as a whole word, with no postal-code check |
| GuiScraper.BuildEntry | main.py:94-121 | one string yields its parent's title, link, context and tag name when the context is longer than 10 characters, and raises exactly when `urljoin` fails on its parent's link |
| GuiScraper.CollectFrom | main.py:94-121 | the loop collects the entries of the strings in page order, or stops exactly when one of them raises |
| GuiScraper.CollectEntries | main.py:91-121 | the strings naming the city, then their entries, or a stop exactly when one of them raises |
| GuiScraper.ExtractCityContext | main.py:85-133 | the cleaned soup, and its entries de-duplicated on the first 100 context characters, or nothing when building an entry raises |
| GuiScraper.ExtractedEntry | main.py:94-121 | every entry describes a live string naming the city, with its parent's title, link and tag name, and a normalised context of 11 to 400 characters |
| GuiScraper.ExtractedKeys | main.py:123-133 | no two entries share a key; unless some string raises no key is lost and the result is the first entry of each key in page order, uncapped; when one raises the result is empty |
| GuiScraper.ScanSingleUrl | main.py:135-150 | a failed fetch gives not-found with no contexts; contexts are extracted only when the city is found |
| GuiScraper.ScanForCityAccommodations | main.py:152-165 | exactly the search URL and its page 2 are requested, and the scans that found the city are kept, in order |
| GuiScraper.ScanUrls | main.py:160-163 | the URL loop keeps the found scans in order and requests each URL once |
| GuiScraper.FoundOnlyExact | main.py:162-163 | a scan is kept iff it found the city |
| GuiScraper.ScanReportsFoundPages | main.py:152-165 | the report is the first page's scan and then page 2's, in that order, each kept exactly when that scan found the city (`ScanOf` finds it only on a fetched page whose cleaned text names it) |
| GuiScraper.SecondUrlIsPageTwo | main.py:155-158 | the second URL reads back as page 2, and the first carries no query |
| GuiScraper.FormatMentions | main.py:181-192 | a page lists the count, at most its first three mentions and the number left out |
| GuiScraper.FormatTelegramMessage | main.py:167-196 | no results give the single "No … mentions found" line; otherwise the header and one section per page |
| GuiScraper.TotalMentionsSplit | main.py:174 | the total counts the mentions of every page once |
| GuiScraper.MentionsPartShape | main.py:184-192 | each of the first three mentions appears with its number, and the "and N more" line appears when more than three exist |
| GuiScraper.AlertContents | main.py:177-194 | the message holds every page's section, each with its link and its mentions |

## Left out

- HTTP, the Telegram sending, the terminal and GUI front-ends, threads, settings files and logging are not modelled. A fetch is the `Fetcher`'s given `site` function: a page or None.
- `urljoin`, `str.title()` and `str.upper()` are given functions (`Lib`); `urljoin` may fail (None), which the extraction treats as its `ValueError`, and so are the word-character and lower-case functions of `Chars`. Unicode `\w`, `\d`, `\s` and length-changing case mappings are not interpreted. A digit is an ASCII digit.
- BeautifulSoup's parser is not modelled. A page is a sequence of nodes in document order with parent links. CSS selectors are the given `hits` set of each element. `get_text` joins the live strings below an element and does not drop scripts, styles or comments.
- Regular expressions are written out per pattern: each `\s+` and `\d+` is a maximal run, as Python's greedy matching takes it. Other regex engine behaviour is not modelled.
- `int()` is unbounded here. A digit string too long for Python, which would make `get_total_pages` return 1 through its `except`, is not modelled.
- The `try`/`except` blocks are modelled for these raises: `urljoin`'s `ValueError` on a malformed `href` in both extractions, b.py's `['href']` on a canonical link without one, and a failed fetch. c.py's per-page `except` is modelled as a failed fetch. Other exceptions, such as `int()` on a character Python counts as a digit but cannot convert, are not.
- `get_total_pages`: a pagination label such as `'²'` passes `str.isdigit()` but makes `int()` raise, so the source returns 1 (b.py:116-117, 143). The model counts only ASCII digits as digits, so it never takes that path.
- The time of the alert footer is a parameter (`checkedAt`), not read from a clock.
- b.py `is_false_positive` is not modelled: its exclusion table is empty and nothing calls it.
- The "Page Unknown" and "Page ?" defaults of the formatters are not modelled, since every result carries a page number.
- The progress lines c.py prints while scanning are left out. A `max_pages` below 1 scans nothing, as Python's empty `range` does.
- Text.LowerKeepsWord: takes as hypotheses that the given lower-case function is idempotent and keeps word characters word characters. This holds for ASCII text, but Python's full Unicode `str.lower()` is not checked against it.
