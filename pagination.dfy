/** b.py `get_total_pages`: how many result pages the first page announces,
    read from four signals tried in turn — the `<title>`, a pagination
    widget, a "N résultats" count, and `page=N` parameters in links. */
module Pagination {
  import opened Text
  import opened Html

  /** The three regular expressions searched for. */
  datatype Pattern =
    | TitlePages   // page\s+\d+\s+(?:sur|of)\s+(\d+), ignoring case
    | ResultCount  // (\d+)\s+résultats?, ignoring case
    | PageParam    // [?&]page=(\d+)

  /** `page\s+\d+\s+(?:sur|of)\s+(\d+)` at `i`, ignoring case. Each `\s+`
      and `\d+` takes its whole run: the class that follows it is disjoint
      from it, so backtracking into a shorter run cannot succeed. */
  function TitleMatchAt(cs: Chars, t: string, i: nat): Option<nat>
    requires i <= |t|
  {
    if !FoldAt(cs, t, "page", i) then None
    else
      var s1 := SpaceRun(t, i + 4);
      if s1 == 0 then None
      else
        var d1 := DigitRun(t, i + 4 + s1);
        if d1 == 0 then None
        else
          var e := i + 4 + s1 + d1;
          var s2 := SpaceRun(t, e);
          if s2 == 0 then None
          else TotalAfterOf(cs, t, e + s2)
  }

  /** `(?:sur|of)\s+(\d+)` at `e`, ignoring case. */
  function TotalAfterOf(cs: Chars, t: string, e: nat): Option<nat>
    requires e <= |t|
  {
    var w := if FoldAt(cs, t, "sur", e) then 3 else if FoldAt(cs, t, "of", e) then 2 else 0;
    if w == 0 then None
    else
      var s3 := SpaceRun(t, e + w);
      var d2 := DigitRun(t, e + w + s3);
      if s3 == 0 || d2 == 0 then None
      else Some(DigitsValue(t[e + w + s3..e + w + s3 + d2]))
  }

  /** `(\d+)\s+résultats?` at `i`, ignoring case. */
  function CountMatchAt(cs: Chars, t: string, i: nat): Option<nat>
    requires i <= |t|
  {
    var d := DigitRun(t, i);
    if d == 0 then None
    else
      var s := SpaceRun(t, i + d);
      if s > 0 && FoldAt(cs, t, "r\U{E9}sultat", i + d + s) then Some(DigitsValue(t[i..i + d]))
      else None
  }

  /** `[?&]page=(\d+)` at `i`. */
  function ParamMatchAt(t: string, i: nat): Option<nat>
    requires i <= |t|
  {
    if i < |t| && (t[i] == '?' || t[i] == '&') && SubAt(t, "page=", i + 1) then
      var d := DigitRun(t, i + 6);
      if d > 0 then Some(DigitsValue(t[i + 6..i + 6 + d])) else None
    else None
  }

  /** The value of the captured group when `p` matches at `i`. */
  function MatchAt(cs: Chars, p: Pattern, t: string, i: nat): Option<nat>
    requires i <= |t|
  {
    match p
    case TitlePages => TitleMatchAt(cs, t, i)
    case ResultCount => CountMatchAt(cs, t, i)
    case PageParam => ParamMatchAt(t, i)
  }

  /** Whether, and with which group, `p` matches at each position of `t`. */
  function MatchesOf(cs: Chars, p: Pattern, t: string): (r: seq<Option<nat>>)
    ensures |r| == |t| + 1 && forall i :: 0 <= i <= |t| ==> r[i] == MatchAt(cs, p, t, i)
  {
    seq(|t| + 1, i requires 0 <= i <= |t| => MatchAt(cs, p, t, i))
  }

  /** `re.search`: the group of the leftmost match. */
  function Search(cs: Chars, p: Pattern, t: string): Option<nat> {
    FirstSome(MatchesOf(cs, p, t), 0)
  }

  // ---------------------------------------------------------------------
  // The four signals

  /** Pattern 1: "page X sur N" / "page X of N" in the `<title>`. */
  function TitleTotal(cs: Chars, doc: Doc): Option<nat> {
    var title := Find(doc, 0, Tag("title"));
    if title.None? then None else Search(cs, TitlePages, GetText(doc, title.value))
  }

  /** Pattern 2: the pagination widgets, tried in this order. */
  const PaginationSelectors: seq<string> := [
    ".pagination", "[class*=\"paging\"]", "[class*=\"pagination\"]",
    "nav[aria-label*=\"pagination\"]", ".page-numbers"]

  /** The elements whose labels may be page numbers. */
  const LabelTags: set<string> := {"a", "span", "button"}

  /** The values of the labels among `ids` whose stripped text is all
      digits, in order. */
  function DigitLabels(doc: Doc, ids: seq<nat>): seq<nat> {
    if ids == [] then []
    else
      var text := GetStrippedText(doc, ids[|ids| - 1]);
      DigitLabels(doc, ids[..|ids| - 1]) + (if IsDigitString(text) then [DigitsValue(text)] else [])
  }

  /** Python's `max` over a non-empty list. */
  function Max(xs: seq<nat>): (m: nat)
    requires xs != []
    ensures m in xs && forall k :: 0 <= k < |xs| ==> xs[k] <= m
  {
    if |xs| == 1 then xs[0]
    else
      var rest := Max(xs[1..]);
      assert forall k :: 1 <= k < |xs| ==> xs[k] == xs[1..][k - 1];
      if xs[0] >= rest then xs[0] else rest
  }

  /** The labels inside the first element `sel` selects. */
  function SelectorLabels(doc: Doc, sel: string): seq<nat> {
    var found := FindAll(doc, 0, Css(sel));
    if found == [] then [] else DigitLabels(doc, FindAll(doc, found[0], AnyTag(LabelTags)))
  }

  /** The labels of every selector, in order. */
  function AllSelectorLabels(doc: Doc): (r: seq<seq<nat>>)
    ensures |r| == |PaginationSelectors|
  {
    seq(|PaginationSelectors|, s requires 0 <= s < |PaginationSelectors| => SelectorLabels(doc, PaginationSelectors[s]))
  }

  /** The largest value of the first non-empty list from `k` on. */
  function FirstMax(ls: seq<seq<nat>>, k: nat): Option<nat>
    decreases |ls| - k
  {
    if k >= |ls| then None
    else if ls[k] != [] then Some(Max(ls[k])) else FirstMax(ls, k + 1)
  }

  /** The largest such label of the first selector, from `k` on, that
      yields one. */
  function NavTotal(doc: Doc, k: nat): Option<nat> {
    FirstMax(AllSelectorLabels(doc), k)
  }

  /** Pattern 3: the first "N résultat(s)" of the page text. */
  function ResultTotal(cs: Chars, doc: Doc): Option<nat> {
    Search(cs, ResultCount, GetText(doc, 0))
  }

  /** Twenty results to a page, at most ten pages. */
  function Estimate(results: nat): nat {
    var pages := (results + 19) / 20;
    if pages < 10 then pages else 10
  }

  function HrefOf(n: Node): string {
    if n.Element? && n.href.Some? then n.href.value else ""
  }

  /** The `page=N` parameter of node `id`'s `href`, if any. */
  function ParamOf(cs: Chars, doc: Doc, id: nat): Option<nat> {
    Search(cs, PageParam, if id < |doc.nodes| then HrefOf(doc.nodes[id]) else "")
  }

  /** `max_page` after the loop: the largest of the present values, and 1
      without any. */
  function MaxOrOne(ms: seq<Option<nat>>): nat {
    if ms == [] then 1
    else
      var sofar := MaxOrOne(ms[..|ms| - 1]);
      var m := ms[|ms| - 1];
      if m.Some? && m.value > sofar then m.value else sofar
  }

  /** The `page=N` parameters of the links `ids`, in order. */
  function Params(cs: Chars, doc: Doc, ids: seq<nat>): (r: seq<Option<nat>>)
    ensures |r| == |ids| && forall k :: 0 <= k < |ids| ==> r[k] == ParamOf(cs, doc, ids[k])
  {
    seq(|ids|, k requires 0 <= k < |ids| => ParamOf(cs, doc, ids[k]))
  }

  /** Pattern 4: the largest `page=N` among the links' `href`s, and 1
      without any. */
  function ParamTotal(cs: Chars, doc: Doc, ids: seq<nat>): nat {
    MaxOrOne(Params(cs, doc, ids))
  }

  /** What `get_total_pages` returns: the first signal present decides. */
  function TotalPages(cs: Chars, doc: Doc): nat {
    var title := TitleTotal(cs, doc);
    if title.Some? then title.value
    else
      var nav := NavTotal(doc, 0);
      if nav.Some? then nav.value
      else
        var results := ResultTotal(cs, doc);
        if results.Some? then Estimate(results.value)
        else ParamTotal(cs, doc, FindAll(doc, 0, TagWithHref("a")))
  }

  // ---------------------------------------------------------------------
  // The method

  method GetTotalPages(cs: Chars, doc: Doc) returns (n: nat)
    ensures n == TotalPages(cs, doc)
  {
    var title := TitleTotal(cs, doc);
    if title.Some? {
      return title.value;
    }
    var nav := NavSignal(doc);
    if nav.Some? {
      return nav.value;
    }
    var results := ResultTotal(cs, doc);
    if results.Some? {
      return Estimate(results.value);
    }
    var links := FindAll(doc, 0, TagWithHref("a"));
    var maxPage := MaxParam(cs, doc, links);
    ParamTotalIsMax(cs, doc, links);
    if maxPage > 1 {
      return maxPage;
    }
    return 1;
  }

  /** The loop of pattern 2 over the selectors. */
  method NavSignal(doc: Doc) returns (r: Option<nat>)
    ensures r == NavTotal(doc, 0)
  {
    var k := 0;
    while k < |PaginationSelectors|
      invariant 0 <= k <= |PaginationSelectors|
      invariant NavTotal(doc, 0) == NavTotal(doc, k)
    {
      var numbers := WidgetLabels(doc, PaginationSelectors[k]);
      if numbers != [] {
        return Some(Max(numbers));
      }
      k := k + 1;
    }
    return None;
  }

  /** Pattern 2 for one selector: the numeric labels inside the first
      element it selects. */
  method WidgetLabels(doc: Doc, sel: string) returns (numbers: seq<nat>)
    ensures numbers == SelectorLabels(doc, sel)
  {
    numbers := [];
    var pagination := FindAll(doc, 0, Css(sel));
    if pagination != [] {
      var links := FindAll(doc, pagination[0], AnyTag(LabelTags));
      numbers := CollectLabels(doc, links);
    }
  }

  /** The `page_numbers` loop of pattern 2. */
  method CollectLabels(doc: Doc, links: seq<nat>) returns (numbers: seq<nat>)
    ensures numbers == DigitLabels(doc, links)
  {
    numbers := [];
    var j := 0;
    while j < |links|
      invariant 0 <= j <= |links|
      invariant numbers == DigitLabels(doc, links[..j])
    {
      assert links[..j + 1][..j] == links[..j];
      var text := GetStrippedText(doc, links[j]);
      if IsDigitString(text) {
        numbers := numbers + [DigitsValue(text)];
      }
      j := j + 1;
    }
    assert links[..j] == links;
  }

  /** The `max_page` loop of pattern 4. */
  method MaxParam(cs: Chars, doc: Doc, links: seq<nat>) returns (maxPage: nat)
    requires forall k :: 0 <= k < |links| ==> Hit(doc, 0, TagWithHref("a"), links[k])
    ensures maxPage == ParamTotal(cs, doc, links)
  {
    ghost var params := Params(cs, doc, links);
    maxPage := 1;
    var j := 0;
    while j < |links|
      invariant 0 <= j <= |links|
      invariant maxPage == MaxOrOne(params[..j])
    {
      assert params[..j + 1][..j] == params[..j];
      var href := doc.nodes[links[j]].href.value;
      var m := Search(cs, PageParam, href);
      if m.Some? {
        maxPage := if m.value > maxPage then m.value else maxPage;
      }
      j := j + 1;
    }
    assert params[..j] == params;
  }

  // ---------------------------------------------------------------------
  // Properties

  /** The estimate is the number of 20-result pages needed, capped at ten:
      nothing for no results, enough pages for all of them below the cap,
      and no page more than needed. */
  lemma EstimateIsCeiling(results: nat)
    ensures Estimate(results) <= 10
    ensures Estimate(results) == 0 <==> results == 0
    ensures Estimate(results) < 10 ==> results <= 20 * Estimate(results)
    ensures Estimate(results) > 0 ==> 20 * (Estimate(results) - 1) < results
  {
  }

  /** With the title and the widgets silent, a result count decides through
      the estimate. */
  lemma ResultCountDecides(cs: Chars, doc: Doc)
    requires TitleTotal(cs, doc).None? && NavTotal(doc, 0).None?
    requires ResultTotal(cs, doc).Some?
    ensures TotalPages(cs, doc) == Estimate(ResultTotal(cs, doc).value)
    ensures TotalPages(cs, doc) <= 10
  {
    EstimateIsCeiling(ResultTotal(cs, doc).value);
  }

  /** List `s` is the first non-empty one from `k` on. */
  predicate FirstNonEmpty(ls: seq<seq<nat>>, k: nat, s: nat) {
    k <= s < |ls| && ls[s] != [] && forall s' :: k <= s' < s ==> ls[s'] == []
  }

  /** `FirstMax` is the maximum of the first non-empty list: with
      `AllSelectorLabels`, a widget's answer is the largest numeric label
      inside the first element of the first selector that has any, and
      every earlier selector has none. */
  lemma {:induction false} FirstMaxIsFirst(ls: seq<seq<nat>>, k: nat)
    requires FirstMax(ls, k).Some?
    ensures exists s: nat :: FirstNonEmpty(ls, k, s) && FirstMax(ls, k).value == Max(ls[s])
    decreases |ls| - k
  {
    if ls[k] == [] {
      FirstMaxIsFirst(ls, k + 1);
      var s: nat :| FirstNonEmpty(ls, k + 1, s) && FirstMax(ls, k + 1).value == Max(ls[s]);
      assert FirstNonEmpty(ls, k, s);
    } else {
      assert FirstNonEmpty(ls, k, k);
    }
  }

  /** The `page=` signal is the largest parameter found, and never below 1:
      it is 1 or one of the parameters, and no parameter exceeds it. */
  lemma {:induction false} MaxOrOneIsMax(ms: seq<Option<nat>>)
    ensures MaxOrOne(ms) >= 1
    ensures forall k :: 0 <= k < |ms| && ms[k].Some? ==> ms[k].value <= MaxOrOne(ms)
    ensures MaxOrOne(ms) == 1 || exists k :: 0 <= k < |ms| && ms[k] == Some(MaxOrOne(ms))
  {
    if ms != [] {
      var init := ms[..|ms| - 1];
      MaxOrOneIsMax(init);
      assert forall k :: 0 <= k < |init| ==> init[k] == ms[k];
    }
  }

  /** The `page=` signal is the largest parameter found, and never below 1:
      it is 1 or one of the parameters, and no parameter exceeds it. */
  lemma ParamTotalIsMax(cs: Chars, doc: Doc, ids: seq<nat>)
    ensures ParamTotal(cs, doc, ids) >= 1
    ensures forall k :: 0 <= k < |ids| && ParamOf(cs, doc, ids[k]).Some? ==>
              ParamOf(cs, doc, ids[k]).value <= ParamTotal(cs, doc, ids)
    ensures ParamTotal(cs, doc, ids) == 1
            || exists k :: 0 <= k < |ids| && ParamOf(cs, doc, ids[k]) == Some(ParamTotal(cs, doc, ids))
  {
    MaxOrOneIsMax(Params(cs, doc, ids));
  }

  /** No title count, no widget, no result count and no `page=` link: one
      page. */
  lemma NoSignalMeansOnePage(cs: Chars, doc: Doc)
    requires TitleTotal(cs, doc).None? && NavTotal(doc, 0).None? && ResultTotal(cs, doc).None?
    requires forall j: nat :: ParamOf(cs, doc, j).None?
    ensures TotalPages(cs, doc) == 1
  {
    ParamTotalIsMax(cs, doc, FindAll(doc, 0, TagWithHref("a")));
  }

  /** A search finds the leftmost match. */
  lemma SearchFindsFirst(cs: Chars, p: Pattern, t: string, i: nat)
    requires i <= |t| && MatchAt(cs, p, t, i).Some?
    requires forall k :: 0 <= k < i ==> MatchAt(cs, p, t, k).None?
    ensures Search(cs, p, t) == MatchAt(cs, p, t, i)
  {
    var ms := MatchesOf(cs, p, t);
    FirstSomeIsFirst(ms, 0);
  }

  /** A maximal digit run that reaches the end of the string. */
  lemma DigitRunToEnd(s: string, i: nat)
    requires i <= |s| && AllDigits(s[i..])
    ensures DigitRun(s, i) == |s| - i
  {
    var n := DigitRun(s, i);
    if i + n < |s| {
      assert s[i + n] == s[i..][n];
    }
  }

  /** The page URLs the scan builds read back, through the `page=`
      pattern, as the page number they were built from. */
  lemma PageParamRoundTrip(cs: Chars, base: string, n: nat)
    requires forall k :: 0 <= k < |base| ==> base[k] != '?' && base[k] != '&'
    ensures Search(cs, PageParam, base + "?page=" + NatToString(n)) == Some(n)
  {
    var t := base + "?page=" + NatToString(n);
    var b := |base|;
    forall i | 0 <= i < b
      ensures MatchAt(cs, PageParam, t, i).None?
    {
      assert t[i] == base[i];
      assert !(t[i] == '?' || t[i] == '&');
    }
    assert t[b] == '?';
    assert t[b + 1..b + 6] == "page=";
    assert t[b + 6..] == NatToString(n);
    DigitRunToEnd(t, b + 6);
    DigitsValueOfNatToString(n);
    var d := DigitRun(t, b + 6);
    assert t[b + 6..b + 6 + d] == NatToString(n);
    assert ParamMatchAt(t, b) == Some(n);
    SearchFindsFirst(cs, PageParam, t, b);
  }
}
