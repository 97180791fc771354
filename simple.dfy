/** c.py `CROUSScraper`, the simple scraper: it reads the listing elements of
    each result page straight from the parsed HTML (nothing is cleaned) and
    keeps a listing when its text holds the city's name and the city's
    two-digit prefix, or a five-digit postal code with that prefix. */
module SimpleScraper {
  import opened Text
  import opened Html
  import opened Postal
  import opened Env
  import opened Snippet
  import opened Pagination
  import opened Alert

  /** `main_search_url`. */
  const SearchUrl: string := ToolSearchUrl(42)

  /** One result dictionary. */
  datatype Listing = Listing(title: string, link: string, context: string, pageNumber: nat)

  // ---------------------------------------------------------------------
  // Listing selection

  /** The `href` fragments that mark a link to a listing. */
  const ListingPaths: seq<string> := ["/logement/", "/residence/"]

  /** The class fragments of the last-resort `div` search. */
  const ListingClasses: seq<string> := ["card", "listing", "residence", "logement"]

  /** `possible_listings`: the links to listings, else the `article`
      elements, else the `div`s with a listing-like class. */
  function ListingElements(cs: Chars, doc: Doc): seq<nat> {
    var links := FindAll(doc, 0, HrefContaining("a", ListingPaths));
    if links != [] then links
    else
      var articles := FindAll(doc, 0, Tag("article"));
      if articles != [] then articles
      else FindAll(doc, 0, ClassContaining(cs, "div", ListingClasses))
  }

  /** The three searches are tried in turn and the first that finds anything
      gives all of its elements, in document order. */
  lemma ListingSelection(cs: Chars, doc: Doc)
    ensures var ls := ListingElements(cs, doc);
            var links := HrefContaining("a", ListingPaths);
            var articles := Tag("article");
            var divs := ClassContaining(cs, "div", ListingClasses);
            (forall k, l :: 0 <= k < l < |ls| ==> ls[k] < ls[l])
            && ((exists j :: Hit(doc, 0, links, j)) ==>
                  forall j :: j in ls <==> Hit(doc, 0, links, j))
            && ((forall j :: !Hit(doc, 0, links, j)) && (exists j :: Hit(doc, 0, articles, j)) ==>
                  forall j :: j in ls <==> Hit(doc, 0, articles, j))
            && ((forall j :: !Hit(doc, 0, links, j)) && (forall j :: !Hit(doc, 0, articles, j)) ==>
                  forall j :: j in ls <==> Hit(doc, 0, divs, j))
  {
    var links := FindAll(doc, 0, HrefContaining("a", ListingPaths));
    var articles := FindAll(doc, 0, Tag("article"));
    if exists j :: Hit(doc, 0, HrefContaining("a", ListingPaths), j) {
      var j :| Hit(doc, 0, HrefContaining("a", ListingPaths), j);
      assert j in links;
    } else if exists j :: Hit(doc, 0, Tag("article"), j) {
      var j :| Hit(doc, 0, Tag("article"), j);
      assert j in articles;
      FindAllEmpty(doc, 0, HrefContaining("a", ListingPaths));
    } else {
      FindAllEmpty(doc, 0, HrefContaining("a", ListingPaths));
      FindAllEmpty(doc, 0, Tag("article"));
    }
  }

  // ---------------------------------------------------------------------
  // The acceptance rule

  /** `\b{prefix}\d{3}\b` matches at `i`. */
  predicate PrefixedCodeAt(cs: Chars, text: string, prefix: string, i: int) {
    0 <= i && i + |prefix| + 3 <= |text|
    && Boundary(cs, text, i)
    && SubAt(text, prefix, i)
    && AllDigits(text[i + |prefix|..i + |prefix| + 3])
    && Boundary(cs, text, i + |prefix| + 3)
  }

  /** `re.search(postal_code_pattern, listing_text)` succeeds. */
  predicate HasPrefixedCode(cs: Chars, text: string, prefix: string) {
    exists i :: 0 <= i <= |text| && PrefixedCodeAt(cs, text, prefix, i)
  }

  /** `(has_city and has_prefix) or has_full_postal`. */
  predicate Accepted(cs: Chars, city: string, prefix: string, text: string) {
    (HasWord(cs, text, city) && IsSubstring(prefix, text)) || HasPrefixedCode(cs, text, prefix)
  }

  /** For a two-digit prefix, the pattern matches exactly where a standalone
      five-digit postal code starts with that prefix. */
  lemma PrefixedCodeIsPostal(cs: Chars, text: string, prefix: string, i: int)
    requires |prefix| == 2 && AllDigits(prefix)
    ensures PrefixedCodeAt(cs, text, prefix, i) <==> PostalAt(cs, text, i) && SubAt(text, prefix, i)
  {
    if 0 <= i && i + 5 <= |text| && SubAt(text, prefix, i) {
      var code := text[i..i + 5];
      assert code[..2] == prefix && code[2..] == text[i + 2..i + 5];
      assert AllDigits(code) <==> AllDigits(text[i + 2..i + 5]) by {
        if AllDigits(text[i + 2..i + 5]) {
          forall k | 0 <= k < 5 ensures IsDigit(code[k]) {
            if k < 2 {
              assert code[k] == prefix[k];
            } else {
              assert code[k] == text[i + 2..i + 5][k - 2];
            }
          }
        }
        if AllDigits(code) {
          var tail := text[i + 2..i + 5];
          forall k | 0 <= k < 3 ensures IsDigit(tail[k]) {
            assert tail[k] == code[k + 2];
          }
        }
      }
    }
  }

  /** For a city of the table, a listing is accepted exactly when its text
      names the city as a whole word and holds the prefix anywhere (even
      inside a longer number), or holds a standalone postal code that starts
      with the prefix. */
  lemma AcceptRule(cs: Chars, city: string, text: string)
    requires city in Prefixes
    ensures var prefix := Prefixes[city];
            Accepted(cs, city, prefix, text)
            <==> (HasWord(cs, text, city) && IsSubstring(prefix, text))
                 || exists i :: PostalAt(cs, text, i) && SubAt(text, prefix, i)
  {
    var prefix := Prefixes[city];
    PrefixesAreCodes();
    forall i ensures PrefixedCodeAt(cs, text, prefix, i) <==> PostalAt(cs, text, i) && SubAt(text, prefix, i) {
      PrefixedCodeIsPostal(cs, text, prefix, i);
    }
  }

  /** The rule is looser than b.py's check: "Paris 1975" passes here on
      the name and the "75" inside "1975", while b.py's check rejects it for
      want of a postal code. */
  lemma LooserThanStrict(cs: Chars)
    requires Sane(cs)
    ensures Accepted(cs, "paris", "75", "Paris 1975")
    ensures !IsValidCityMatch(cs, "paris", "Paris 1975")
  {
    var t := "Paris 1975";
    assert IsAsciiWord(t[0]) && IsAscii(t[0]) && IsAscii('p');
    assert IsAsciiWord(t[4]) && IsAscii(t[4]) && !IsAsciiWord(t[5]) && IsAscii(t[5]);
    assert EqFold(cs, t[0..5], "paris");
    assert WordAt(cs, t, "paris", 0);
    assert SubAt(t, "75", 8);
    forall i ensures !PostalAt(cs, t, i) {
      if 0 <= i && i + 5 <= |t| {
        if i == 0 {
          assert t[i..i + 5][0] == 'P';
        } else {
          assert t[i..i + 5][5 - i] == ' ';
        }
      }
    }
  }

  // ---------------------------------------------------------------------
  // Links, titles and contexts

  /** `link`: an absolute `href` is kept, a rooted one is appended to the
      site, and any other is appended after a slash. */
  function ResolveLink(href: string): string {
    if StartsWith(href, "http") then href
    else if StartsWith(href, "/") then BaseUrl + href
    else BaseUrl + "/" + href
  }

  /** A resolved link is absolute, so resolving it again changes nothing;
      an `href` that is not already absolute is placed after the site and a
      single slash. */
  lemma ResolveLinkShape(href: string)
    ensures StartsWith(ResolveLink(href), "http")
    ensures ResolveLink(ResolveLink(href)) == ResolveLink(href)
    ensures StartsWith(href, "http") ==> ResolveLink(href) == href
    ensures !StartsWith(href, "http") ==>
              ResolveLink(href) == BaseUrl + "/" + (if StartsWith(href, "/") then href[1..] else href)
  {
    var r := ResolveLink(href);
    if !StartsWith(href, "http") {
      assert BaseUrl[0] == 'h' && BaseUrl[1] == 't' && BaseUrl[2] == 't' && BaseUrl[3] == 'p';
      assert BaseUrl[..4] == "http";
      if StartsWith(href, "/") {
        StartsWithConcat(BaseUrl, href, "http");
        assert href == "/" + href[1..];
        assert BaseUrl + href == BaseUrl + "/" + href[1..];
      } else {
        StartsWithConcat(BaseUrl, "/", "http");
        StartsWithConcat(BaseUrl + "/", href, "http");
      }
    }
    assert StartsWith(r, "http");
  }

  /** The `href` of node `a`, "" when it has none. */
  function HrefAt(doc: Doc, a: nat): string {
    if a < |doc.nodes| && doc.nodes[a].Element? && doc.nodes[a].href.Some? then doc.nodes[a].href.value else ""
  }

  predicate IsAnchor(doc: Doc, a: nat) {
    a < |doc.nodes| && doc.nodes[a].Element? && doc.nodes[a].name == "a"
  }

  /** `link_elem`: the listing itself when it is a link, else the first link
      with an `href` inside it. */
  function LinkElement(doc: Doc, p: nat): Option<nat> {
    if IsAnchor(doc, p) then Some(p) else Find(doc, p, TagWithHref("a"))
  }

  /** `link`: "" unless the link element has a non-empty `href`. */
  function ListingLink(doc: Doc, p: nat): string {
    var e := LinkElement(doc, p);
    if e.Some? && HrefAt(doc, e.value) != "" then ResolveLink(HrefAt(doc, e.value)) else ""
  }

  /** A listing that is a link with an `href` links to that `href`; any other
      listing links to the first link inside it, and to nothing when it holds
      none; a non-empty link always comes from a non-empty `href`. */
  lemma ListingLinkSource(doc: Doc, p: nat)
    ensures IsAnchor(doc, p) && HrefAt(doc, p) != "" ==> ListingLink(doc, p) == ResolveLink(HrefAt(doc, p))
    ensures !IsAnchor(doc, p) && (forall j :: !Hit(doc, p, TagWithHref("a"), j)) ==> ListingLink(doc, p) == ""
    ensures ListingLink(doc, p) != "" ==>
              exists a: nat :: (a == p || Hit(doc, p, TagWithHref("a"), a)) && IsAnchor(doc, a)
                && HrefAt(doc, a) != "" && ListingLink(doc, p) == ResolveLink(HrefAt(doc, a))
  {
    if ListingLink(doc, p) != "" {
      var a := LinkElement(doc, p).value;
      assert IsAnchor(doc, a);
    }
  }

  /** The title used when a listing holds no heading. */
  const DefaultTitle: string := "Logement trouv\U{E9}"

  /** What `listing.find(tag)` gives for each heading level, h1 first. */
  function InnerHeadings(doc: Doc, p: nat): (r: seq<Option<nat>>)
    ensures |r| == |HeadingTags|
    ensures forall l :: 0 <= l < |r| ==> r[l] == Find(doc, p, Tag(HeadingTags[l]))
  {
    seq(|HeadingTags|, l requires 0 <= l < |HeadingTags| => Find(doc, p, Tag(HeadingTags[l])))
  }

  function ListingTitle(doc: Doc, p: nat): string {
    match FirstSome(InnerHeadings(doc, p), 0)
    case None => DefaultTitle
    case Some(h) => GetStrippedText(doc, h)
  }

  /** `listing.find(tag)` finds something. */
  predicate HasInner(doc: Doc, p: nat, tag: string) {
    Find(doc, p, Tag(tag)).Some?
  }

  /** ... which is when some `tag` element lies inside `p`. */
  lemma HasInnerIff(doc: Doc, p: nat, tag: string)
    ensures HasInner(doc, p, tag) <==> exists j :: Hit(doc, p, Tag(tag), j)
  {
    FindAllEmpty(doc, p, Tag(tag));
  }

  /** With no heading inside the listing at any level the title is the
      default. */
  lemma ListingTitleDefault(doc: Doc, p: nat)
    requires forall l :: 0 <= l < |HeadingTags| ==> !HasInner(doc, p, HeadingTags[l])
    ensures ListingTitle(doc, p) == DefaultTitle
  {
    FirstSomeIsFirst(InnerHeadings(doc, p), 0);
  }

  /** Otherwise the first level with a heading inside the listing decides:
      its first such heading gives the title. */
  lemma ListingTitleFirst(doc: Doc, p: nat)
    requires exists l :: 0 <= l < |HeadingTags| && HasInner(doc, p, HeadingTags[l])
    ensures exists l :: 0 <= l < |HeadingTags| && HasInner(doc, p, HeadingTags[l])
              && (forall m :: 0 <= m < l ==> !HasInner(doc, p, HeadingTags[m]))
              && ListingTitle(doc, p) == GetStrippedText(doc, Find(doc, p, Tag(HeadingTags[l])).value)
  {
    var xs := InnerHeadings(doc, p);
    var l0 :| 0 <= l0 < |HeadingTags| && HasInner(doc, p, HeadingTags[l0]);
    var l := FirstPresent(xs, l0);
    forall m | 0 <= m < l ensures !HasInner(doc, p, HeadingTags[m]) {
      assert xs[m].None?;
    }
    assert HasInner(doc, p, HeadingTags[l]);
    assert ListingTitle(doc, p) == GetStrippedText(doc, xs[l].value);
  }

  /** The title loop. */
  method FindListingTitle(doc: Doc, p: nat) returns (title: string)
    ensures title == ListingTitle(doc, p)
  {
    ghost var levels := InnerHeadings(doc, p);
    title := DefaultTitle;
    var k := 0;
    while k < |HeadingTags|
      invariant 0 <= k <= |HeadingTags|
      invariant FirstSome(levels, 0) == FirstSome(levels, k)
      invariant title == DefaultTitle
    {
      var h := Find(doc, p, Tag(HeadingTags[k]));
      if h.Some? {
        title := GetStrippedText(doc, h.value);
        return;
      }
      k := k + 1;
    }
  }

  /** `' '.join(listing_text.split())[:400]`. */
  function ListingContext(text: string): string {
    Take(Collapse(text), 400)
  }

  /** The context is the start of the collapsed text, at most 400
      characters: no leading whitespace, and single plain spaces between
      words (the cut may leave one at the end). */
  lemma ListingContextShape(text: string)
    ensures var c := ListingContext(text);
            |c| <= 400 && c == Collapse(text)[..|c|]
            && (|c| > 0 ==> !IsSpace(c[0]))
            && (forall i :: 0 <= i < |c| && IsSpace(c[i]) ==> c[i] == ' ')
            && (forall i, j :: 0 <= i && j == i + 1 && j < |c| ==> !(IsSpace(c[i]) && IsSpace(c[j])))
  {
    var t := Collapse(text);
    var c := ListingContext(text);
    CollapseNormalized(text);
    forall i, j | 0 <= i && j == i + 1 && j < |c|
      ensures !(IsSpace(c[i]) && IsSpace(c[j]))
    {
      assert c[i] == t[i] && c[j] == t[j];
    }
    assert |c| > 0 ==> c[0] == t[0];
  }

  // ---------------------------------------------------------------------
  // One page

  /** What the listing `p` of page `n` yields when the rule accepts it. */
  function Candidate(cs: Chars, city: string, prefix: string, doc: Doc, p: nat, n: nat): Option<Listing> {
    var text := GetText(doc, p);
    if Accepted(cs, city, prefix, text) then
      Some(Listing(ListingTitle(doc, p), ListingLink(doc, p), ListingContext(text), n))
    else None
  }

  /** What each of the listings `ls` yields, in order. */
  function CandidateSeq(cs: Chars, city: string, prefix: string, doc: Doc, ls: seq<nat>, n: nat): (r: seq<Option<Listing>>)
    ensures |r| == |ls|
  {
    seq(|ls|, k requires 0 <= k < |ls| => Candidate(cs, city, prefix, doc, ls[k], n))
  }

  /** The `seen_links` filter: a listing whose non-empty link was already
      kept is dropped; listings without a link always pass. */
  function KeepNewLinks(xs: seq<Listing>, seen: set<string>): seq<Listing> {
    if xs == [] then []
    else if xs[0].link != "" && xs[0].link in seen then KeepNewLinks(xs[1..], seen)
    else [xs[0]] + KeepNewLinks(xs[1..], if xs[0].link != "" then seen + {xs[0].link} else seen)
  }

  /** The results of one fetched page. */
  function PageListings(cs: Chars, city: string, prefix: string, doc: Doc, n: nat): seq<Listing> {
    KeepNewLinks(Somes(CandidateSeq(cs, city, prefix, doc, ListingElements(cs, doc), n)), {})
  }

  /** The filter keeps listings of its input, no two kept listings share a
      link, and no kept link repeats one of `seen`. */
  lemma {:induction false} KeepNewLinksSound(xs: seq<Listing>, seen: set<string>)
    ensures forall x :: x in KeepNewLinks(xs, seen) ==> x in xs
    ensures forall x :: x in KeepNewLinks(xs, seen) && x.link != "" ==> x.link !in seen
    ensures forall k, l :: 0 <= k < l < |KeepNewLinks(xs, seen)| && KeepNewLinks(xs, seen)[k].link != "" ==>
              KeepNewLinks(xs, seen)[k].link != KeepNewLinks(xs, seen)[l].link
    decreases |xs|
  {
    if xs != [] {
      var x := xs[0];
      assert xs == [x] + xs[1..];
      if x.link != "" && x.link in seen {
        KeepNewLinksSound(xs[1..], seen);
      } else {
        var seen' := if x.link != "" then seen + {x.link} else seen;
        KeepNewLinksSound(xs[1..], seen');
        var t := KeepNewLinks(xs[1..], seen');
        assert [x] + t == KeepNewLinks(xs, seen);
        DistinctLinksCons(x, t);
      }
    }
  }

  /** Putting a listing in front of listings with distinct links keeps the
      links distinct when its own link, if any, is none of theirs. */
  lemma DistinctLinksCons(x: Listing, t: seq<Listing>)
    requires x.link != "" ==> forall y :: y in t ==> y.link != x.link
    requires forall k, l :: 0 <= k < l < |t| && t[k].link != "" ==> t[k].link != t[l].link
    ensures forall k, l :: 0 <= k < l < |[x] + t| && ([x] + t)[k].link != "" ==>
              ([x] + t)[k].link != ([x] + t)[l].link
  {
    var r := [x] + t;
    forall k, l | 0 <= k < l < |r| && r[k].link != ""
      ensures r[k].link != r[l].link
    {
      assert r[l] == t[l - 1] && r[l] in t;
      if k > 0 {
        assert r[k] == t[k - 1];
      }
    }
  }

  /** Nothing is lost but repeats: every listing without a link is kept,
      and so is the first listing with each link not in `seen`. */
  lemma {:induction false} KeepNewLinksComplete(xs: seq<Listing>, seen: set<string>, i: nat)
    requires i < |xs|
    requires xs[i].link == ""
             || (xs[i].link !in seen && forall j :: 0 <= j < i ==> xs[j].link != xs[i].link)
    ensures xs[i] in KeepNewLinks(xs, seen)
    decreases |xs|
  {
    if i > 0 {
      var x := xs[0];
      var seen' := if x.link != "" && x.link !in seen then seen + {x.link} else seen;
      assert xs[1..][i - 1] == xs[i];
      KeepNewLinksComplete(xs[1..], seen', i - 1);
    }
  }

  /** Every result of a page is the entry of one of its listings that the
      rule accepts, carries the page's number and a context of at most 400
      characters, and no two results of the page share a link. */
  lemma PageListingsShape(cs: Chars, city: string, prefix: string, doc: Doc, n: nat)
    ensures var r := PageListings(cs, city, prefix, doc, n);
            forall k :: 0 <= k < |r| ==>
              exists p :: p in ListingElements(cs, doc) && Candidate(cs, city, prefix, doc, p, n) == Some(r[k])
    ensures var r := PageListings(cs, city, prefix, doc, n);
            forall k :: 0 <= k < |r| ==> r[k].pageNumber == n && |r[k].context| <= 400
    ensures var r := PageListings(cs, city, prefix, doc, n);
            forall k, l :: 0 <= k < l < |r| && r[k].link != "" ==> r[k].link != r[l].link
  {
    var ls := ListingElements(cs, doc);
    var cands := CandidateSeq(cs, city, prefix, doc, ls, n);
    var r := PageListings(cs, city, prefix, doc, n);
    KeepNewLinksSound(Somes(cands), {});
    forall k | 0 <= k < |r|
      ensures exists p :: p in ls && Candidate(cs, city, prefix, doc, p, n) == Some(r[k])
    {
      SomesFrom(cands, r[k]);
      var i :| 0 <= i < |cands| && cands[i] == Some(r[k]);
      assert ls[i] in ls;
    }
  }

  /** The filter loop's step: visiting candidate `i` moves what it keeps
      from the remaining filter to the results. */
  lemma KeepAdvance(results: seq<Listing>, cands: seq<Option<Listing>>, i: nat, seen: set<string>,
                    kept: seq<Listing>, seen': set<string>)
    requires i < |cands|
    requires kept == (if cands[i].Some? && !(cands[i].value.link != "" && cands[i].value.link in seen)
                      then [cands[i].value] else [])
    requires seen' == if cands[i].Some? && cands[i].value.link != "" then seen + {cands[i].value.link} else seen
    ensures results + KeepNewLinks(Somes(cands[i..]), seen)
            == (results + kept) + KeepNewLinks(Somes(cands[i + 1..]), seen')
  {
    SomesStep(cands, i);
    KeepStep(cands[i], Somes(cands[i + 1..]), seen);
    assert results + KeepNewLinks(Somes(cands[i..]), seen)
        == results + (kept + KeepNewLinks(Somes(cands[i + 1..]), seen'));
  }

  lemma KeepStep(c: Option<Listing>, rest: seq<Listing>, seen: set<string>)
    ensures var kept := c.Some? && !(c.value.link != "" && c.value.link in seen);
            var seen' := if c.Some? && c.value.link != "" then seen + {c.value.link} else seen;
            KeepNewLinks((if c.Some? then [c.value] else []) + rest, seen)
            == (if kept then [c.value] else []) + KeepNewLinks(rest, seen')
  {
    if c.Some? {
      var xs := [c.value] + rest;
      assert xs[0] == c.value && xs[1..] == rest;
      if c.value.link != "" && c.value.link in seen {
        assert seen + {c.value.link} == seen;
        assert KeepNewLinks(xs, seen) == KeepNewLinks(rest, seen);
      } else {
        assert KeepNewLinks(xs, seen) == [c.value] + KeepNewLinks(rest, if c.value.link != "" then seen + {c.value.link} else seen);
      }
    } else {
      assert [] + rest == rest;
    }
  }

  /** The listing loop of one page, with its `seen_links` set. */
  method ScanListings(cs: Chars, city: string, prefix: string, doc: Doc, n: nat) returns (results: seq<Listing>)
    ensures results == PageListings(cs, city, prefix, doc, n)
  {
    var possible := FindAll(doc, 0, HrefContaining("a", ListingPaths));
    if possible == [] {
      possible := FindAll(doc, 0, Tag("article"));
    }
    if possible == [] {
      possible := FindAll(doc, 0, ClassContaining(cs, "div", ListingClasses));
    }
    results := FilterListings(cs, city, prefix, doc, possible, n);
    assert possible == ListingElements(cs, doc);
  }

  /** `for listing in possible_listings`, from an empty `seen_links`. */
  method FilterListings(cs: Chars, city: string, prefix: string, doc: Doc, possible: seq<nat>, n: nat)
      returns (results: seq<Listing>)
    ensures results == KeepNewLinks(Somes(CandidateSeq(cs, city, prefix, doc, possible, n)), {})
  {
    ghost var cands := CandidateSeq(cs, city, prefix, doc, possible, n);
    var seen: set<string> := {};
    results := [];
    var i := 0;
    while i < |possible|
      invariant 0 <= i <= |possible|
      invariant results + KeepNewLinks(Somes(cands[i..]), seen) == KeepNewLinks(Somes(cands), {})
    {
      var kept, seen' := Visit(cs, city, prefix, doc, possible, i, n, seen);
      KeepAdvance(results, cands, i, seen, kept, seen');
      results := results + kept;
      seen := seen';
      i := i + 1;
    }
    assert cands[i..] == [];
  }

  /** The loop body for the listing `p`: what it adds to the results, and
      the seen links after it. */
  method Visit(cs: Chars, city: string, prefix: string, doc: Doc, possible: seq<nat>, i: nat, n: nat, seen: set<string>)
      returns (kept: seq<Listing>, seen': set<string>)
    requires i < |possible|
    ensures var c := CandidateSeq(cs, city, prefix, doc, possible, n)[i];
            kept == (if c.Some? && !(c.value.link != "" && c.value.link in seen) then [c.value] else [])
            && seen' == if c.Some? && c.value.link != "" then seen + {c.value.link} else seen
  {
    var p := possible[i];
    assert CandidateSeq(cs, city, prefix, doc, possible, n)[i] == Candidate(cs, city, prefix, doc, p, n);
    kept, seen' := [], seen;
    var text := GetText(doc, p);
    var hasCity := HasWord(cs, text, city);
    var hasPrefix := IsSubstring(prefix, text);
    var hasFullPostal := HasPrefixedCode(cs, text, prefix);
    if (hasCity && hasPrefix) || hasFullPostal {
      var link := ListingLink(doc, p);
      if link != "" {
        if link in seen {
          return;
        }
        seen' := seen + {link};
      }
      var title := FindListingTitle(doc, p);
      kept := [Listing(title, link, Take(Collapse(text), 400), n)];
    }
  }

  // ---------------------------------------------------------------------
  // The page walk

  /** Page 1 is the bare search URL, page `n` adds `?page=n`. */
  function PageAddress(n: nat): string {
    if n == 1 then SearchUrl else PageUrl(SearchUrl, n)
  }

  /** The results of page `n`; nothing when its fetch fails. */
  function PageResults(cs: Chars, city: string, prefix: string, site: string -> Option<Page>, n: nat): seq<Listing> {
    var page := site(PageAddress(n));
    if page.Some? then PageListings(cs, city, prefix, Doc(page.value, {}), n) else []
  }

  /** Pages 1 to `last`, in order. */
  function PagesUpTo(cs: Chars, city: string, prefix: string, site: string -> Option<Page>, last: int): seq<Listing>
    decreases last
  {
    if last < 1 then [] else PagesUpTo(cs, city, prefix, site, last - 1) + PageResults(cs, city, prefix, site, last)
  }

  function PageAddresses(last: int): (r: seq<string>)
    ensures |r| == if last < 1 then 0 else last
    decreases last
  {
    if last < 1 then [] else PageAddresses(last - 1) + [PageAddress(last)]
  }

  /** The k-th request (from 0) is page k + 1. */
  lemma {:induction false} PageAddressesAt(last: int)
    ensures forall k :: 0 <= k < |PageAddresses(last)| ==> PageAddresses(last)[k] == PageAddress(k + 1)
    decreases last
  {
    if last >= 1 {
      PageAddressesAt(last - 1);
    }
  }

  /** What the scan returns: None for a city without a prefix, and None when
      no page yields anything. */
  function ScanResult(cs: Chars, city: string, site: string -> Option<Page>, maxPages: int): Option<seq<Listing>> {
    if city !in Prefixes then None
    else
      var all := PagesUpTo(cs, city, Prefixes[city], site, maxPages);
      if all == [] then None else Some(all)
  }

  /** The URLs the scan requests, in order. */
  function ScanRequests(city: string, maxPages: int): seq<string> {
    if city !in Prefixes then [] else PageAddresses(maxPages)
  }

  method ScanForCityAccommodations(lib: Lib, city: string, fetcher: Fetcher, maxPages: int)
      returns (r: Option<seq<Listing>>)
    modifies fetcher
    ensures r == ScanResult(lib.chars, city, fetcher.site, maxPages)
    ensures fetcher.requested == old(fetcher.requested) + ScanRequests(city, maxPages)
  {
    if city !in Prefixes {
      return None;
    }
    var results := ScanPages(lib.chars, city, Prefixes[city], fetcher, maxPages);
    return if results != [] then Some(results) else None;
  }

  /** `for page_num in range(1, max_pages + 1)`. */
  method ScanPages(cs: Chars, city: string, prefix: string, fetcher: Fetcher, maxPages: int)
      returns (results: seq<Listing>)
    modifies fetcher
    ensures results == PagesUpTo(cs, city, prefix, fetcher.site, maxPages)
    ensures fetcher.requested == old(fetcher.requested) + PageAddresses(maxPages)
  {
    results := [];
    var last := if maxPages < 1 then 0 else maxPages;
    ghost var site := fetcher.site;
    ghost var before := fetcher.requested;
    assert PagesUpTo(cs, city, prefix, site, maxPages) == PagesUpTo(cs, city, prefix, site, last);
    assert PageAddresses(maxPages) == PageAddresses(last);
    var done := 0;
    while done < last
      invariant 0 <= done <= last
      invariant results == PagesUpTo(cs, city, prefix, site, done)
      invariant fetcher.requested == before + PageAddresses(done)
    {
      var found := NextPage(cs, city, prefix, fetcher, done + 1);
      results := results + found;
      done := done + 1;
    }
  }

  /** One iteration: page `n` extends the results and the requests. */
  method NextPage(cs: Chars, city: string, prefix: string, fetcher: Fetcher, n: nat) returns (found: seq<Listing>)
    requires n >= 1
    modifies fetcher
    ensures PagesUpTo(cs, city, prefix, fetcher.site, n) == PagesUpTo(cs, city, prefix, fetcher.site, n - 1) + found
    ensures fetcher.requested == old(fetcher.requested) + [PageAddress(n)]
    ensures PageAddresses(n) == PageAddresses(n - 1) + [PageAddress(n)]
  {
    found := ScanPage(cs, city, prefix, fetcher, n);
    PagesStep(cs, city, prefix, fetcher.site, n);
  }

  lemma PagesStep(cs: Chars, city: string, prefix: string, site: string -> Option<Page>, n: int)
    requires n >= 1
    ensures PagesUpTo(cs, city, prefix, site, n)
            == PagesUpTo(cs, city, prefix, site, n - 1) + PageResults(cs, city, prefix, site, n)
    ensures PageAddresses(n) == PageAddresses(n - 1) + [PageAddress(n)]
  {
  }

  /** One page: fetch it and scan its listings when the fetch succeeds. */
  method ScanPage(cs: Chars, city: string, prefix: string, fetcher: Fetcher, n: nat) returns (found: seq<Listing>)
    modifies fetcher
    ensures found == PageResults(cs, city, prefix, fetcher.site, n)
    ensures fetcher.requested == old(fetcher.requested) + [PageAddress(n)]
  {
    var url := if n == 1 then SearchUrl else PageUrl(SearchUrl, n);
    var page := fetcher.Fetch(url);
    found := [];
    if page.Some? {
      found := ScanListings(cs, city, prefix, Doc(page.value, {}), n);
    }
  }

  // ---------------------------------------------------------------------
  // Properties of the scan

  predicate PagedWithin(rs: seq<Listing>, lo: int, hi: int) {
    (forall k :: 0 <= k < |rs| ==> lo <= rs[k].pageNumber <= hi)
    && forall i, j :: 0 <= i < j < |rs| ==> rs[i].pageNumber <= rs[j].pageNumber
  }

  lemma PagedConcat(a: seq<Listing>, b: seq<Listing>, lo: int, mid: int, hi: int)
    requires PagedWithin(a, lo, mid) && PagedWithin(b, mid, hi) && lo <= mid <= hi
    ensures PagedWithin(a + b, lo, hi)
  {
    var c := a + b;
    forall i, j | 0 <= i < j < |c| ensures c[i].pageNumber <= c[j].pageNumber {
      if j < |a| {
        assert c[i] == a[i] && c[j] == a[j];
      } else if i < |a| {
        assert c[i] == a[i] && c[j] == b[j - |a|];
      } else {
        assert c[i] == b[i - |a|] && c[j] == b[j - |a|];
      }
    }
  }

  /** Results of pages 1 to `last` are numbered within that range, in page
      order. */
  lemma {:induction false} PagesOrdered(cs: Chars, city: string, prefix: string, site: string -> Option<Page>, last: int)
    ensures PagedWithin(PagesUpTo(cs, city, prefix, site, last), 1, if last < 1 then 1 else last)
    decreases last
  {
    if last >= 1 {
      PagesOrdered(cs, city, prefix, site, last - 1);
      var page := site(PageAddress(last));
      var b := PageResults(cs, city, prefix, site, last);
      if page.Some? {
        PageListingsShape(cs, city, prefix, Doc(page.value, {}), last);
      }
      assert PagedWithin(b, last, last);
      PagedConcat(PagesUpTo(cs, city, prefix, site, last - 1), b, 1, last, last);
    }
  }

  /** A city without a prefix is given up before any request; otherwise
      `max_pages` pages are requested, page 1 at the bare search URL and
      page N at a URL whose `page` parameter reads back as N. A non-empty
      result lists its listings in page order, numbered 1 to `max_pages`. */
  lemma ScanPlan(cs: Chars, city: string, site: string -> Option<Page>, maxPages: int)
    ensures city !in Prefixes ==> ScanRequests(city, maxPages) == [] && ScanResult(cs, city, site, maxPages).None?
    ensures var rq := ScanRequests(city, maxPages);
            city in Prefixes ==>
              |rq| == (if maxPages < 1 then 0 else maxPages)
              && (maxPages >= 1 ==> rq[0] == SearchUrl)
              && forall k :: 1 <= k < |rq| ==> Search(cs, PageParam, rq[k]) == Some(k + 1)
    ensures var r := ScanResult(cs, city, site, maxPages);
            r.Some? ==> r.value != [] && PagedWithin(r.value, 1, maxPages)
  {
    if city in Prefixes {
      ToolSearchUrlHasNoQuery(42);
      var rq := ScanRequests(city, maxPages);
      PageAddressesAt(maxPages);
      forall k | 1 <= k < |rq| ensures Search(cs, PageParam, rq[k]) == Some(k + 1) {
        PageParamRoundTrip(cs, SearchUrl, k + 1);
      }
      PagesOrdered(cs, city, Prefixes[city], site, maxPages);
    }
  }

  // ---------------------------------------------------------------------
  // format_telegram_message

  /** `city_prefixes.get(target_city, '??')`. */
  function PrefixLabel(city: string): string {
    if city in Prefixes then Prefixes[city] else "??"
  }

  function ListingBlock(i: nat, l: Listing): string {
    Block(i, l.title, l.link, l.context, l.pageNumber)
  }

  function AlertHeader(cityName: string, count: nat, prefix: string): string {
    "\U{1F3E0} <b>CROUS Housing Alert for " + cityName + "!</b>\n\n"
    + "Found " + NatToString(count) + " listing(s) with " + cityName + " + postal code " + prefix + "xxx:\n\n"
  }

  /** The alert; `checkedAt` is the formatted current time. */
  function AlertMessage(lib: Lib, city: string, rs: seq<Listing>, checkedAt: string): string {
    AlertHeader(lib.titleCase(city), |rs|, PrefixLabel(city)) + Blocks(rs, ListingBlock) + Footer(checkedAt)
  }

  method FormatTelegramMessage(lib: Lib, city: string, results: seq<Listing>, checkedAt: string)
      returns (message: string)
    ensures message == AlertMessage(lib, city, results, checkedAt)
  {
    var entries := "";
    var i := 0;
    while i < |results|
      invariant 0 <= i <= |results|
      invariant entries == Blocks(results[..i], ListingBlock)
    {
      BlocksStep(results, ListingBlock, i);
      entries := entries + ListingBlock(i + 1, results[i]);
      i := i + 1;
    }
    assert results[..i] == results;
    var cityName := lib.titleCase(city);
    message := AlertHeader(cityName, |results|, PrefixLabel(city)) + entries + Footer(checkedAt);
  }

  /** The alert names the city's prefix ("??" for a city without one) and
      holds the block of every result. */
  lemma AlertContents(lib: Lib, city: string, rs: seq<Listing>, checkedAt: string, k: nat)
    requires k < |rs|
    ensures IsSubstring(PrefixLabel(city), AlertMessage(lib, city, rs, checkedAt))
    ensures IsSubstring(ListingBlock(k + 1, rs[k]), AlertMessage(lib, city, rs, checkedAt))
    ensures city !in Prefixes ==> PrefixLabel(city) == "??"
  {
    var name := lib.titleCase(city);
    var x := PrefixLabel(city);
    var s0 := "\U{1F3E0} <b>CROUS Housing Alert for " + name + "!</b>\n\n"
              + "Found " + NatToString(|rs|) + " listing(s) with " + name + " + postal code ";
    var h := AlertHeader(name, |rs|, x);
    var b := Blocks(rs, ListingBlock);
    var f := Footer(checkedAt);
    assert h == s0 + x + "xxx:\n\n";
    SubAtConcat(s0, x, x, 0);
    SubAtConcat(s0 + x, "xxx:\n\n", x, |s0|);
    SubAtConcat(h, b, x, |s0|);
    SubAtConcat(h + b, f, x, |s0|);
    assert SubAt(h + b + f, x, |s0|);
    InMessage(h, rs, ListingBlock, f, k);
  }
}
