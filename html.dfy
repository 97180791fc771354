/** A parsed page as BeautifulSoup presents it to the scraper: a sequence of
    nodes in document order, each element or string pointing at its parent,
    plus the set of nodes `decompose()` has already removed. Searching
    (`find_all`, `find`, `select`, `find_previous`, `find_next`,
    `find_parent`), `get_text()` and the in-place search-UI cleaner
    (b.py `remove_only_search_elements`, identical in main.py) are defined
    over it. */
module Html {
  import opened Text

  /** An element carries its tag name, its `href` attribute when present,
      its `class` and `rel` values, and `hits`: the CSS selectors (other than
      bare tag names) it matches, which the model takes as given. */
  datatype Node =
    | Element(name: string, parent: Option<nat>, href: Option<string>,
              classes: seq<string>, rel: seq<string>, hits: set<string>)
    | Str(content: string, parent: Option<nat>)

  /** The `BeautifulSoup` object itself, always node 0. */
  const Root: Node := Element("[document]", None, None, [], [], {})

  /** Node 0 is the document; every other node has an element as parent,
      and parents precede their children in document order. */
  predicate WellFormed(nodes: seq<Node>) {
    |nodes| > 0 && nodes[0] == Root
    && forall i :: 0 < i < |nodes| ==>
         nodes[i].parent.Some? && nodes[i].parent.value < i
         && nodes[nodes[i].parent.value].Element?
  }

  /** What a fetch hands over: a freshly parsed, well-formed page. */
  type Page = nodes: seq<Node> | WellFormed(nodes) witness [Root]

  /** The parsed page in its current state: `gone` holds the nodes removed
      by `decompose()`. */
  datatype Doc = Doc(nodes: seq<Node>, gone: set<nat>)

  /** `a` is `d` itself or one of its ancestors. */
  predicate AncOrSelf(nodes: seq<Node>, a: nat, d: nat)
    decreases d
  {
    a == d
    || (d < |nodes| && nodes[d].parent.Some? && nodes[d].parent.value < d
        && AncOrSelf(nodes, a, nodes[d].parent.value))
  }

  /** `d` is a descendant of `root` (`root.descendants`). */
  predicate Within(nodes: seq<Node>, root: nat, d: nat) {
    d != root && AncOrSelf(nodes, root, d)
  }

  predicate Live(doc: Doc, i: nat) {
    i < |doc.nodes| && i !in doc.gone
  }

  lemma {:induction false} AncOrSelfTransitive(nodes: seq<Node>, a: nat, b: nat, c: nat)
    requires AncOrSelf(nodes, a, b) && AncOrSelf(nodes, b, c)
    ensures AncOrSelf(nodes, a, c)
    decreases c
  {
    if b != c {
      AncOrSelfTransitive(nodes, a, b, nodes[c].parent.value);
    }
  }

  lemma {:induction false} AncOrSelfOrder(nodes: seq<Node>, a: nat, d: nat)
    requires AncOrSelf(nodes, a, d)
    ensures a <= d
    decreases d
  {
    if a != d {
      AncOrSelfOrder(nodes, a, nodes[d].parent.value);
    }
  }

  lemma AncestorOfParent(nodes: seq<Node>, r: Option<nat>, x: nat)
    requires x < |nodes| && nodes[x].parent.Some? && nodes[x].parent.value < x
    requires r.Some? ==> Within(nodes, r.value, nodes[x].parent.value)
    ensures r.Some? ==> Within(nodes, r.value, x)
  {
    if r.Some? {
      AncOrSelfTransitive(nodes, r.value, nodes[x].parent.value, x);
      AncOrSelfOrder(nodes, r.value, nodes[x].parent.value);
    }
  }

  lemma {:induction false} UnderRoot(nodes: seq<Node>, d: nat)
    requires WellFormed(nodes) && 0 < d < |nodes|
    ensures Within(nodes, 0, d)
    decreases d
  {
    var p := nodes[d].parent.value;
    if p != 0 {
      UnderRoot(nodes, p);
    }
  }

  // ---------------------------------------------------------------------
  // Searching

  /** The searches the scraper performs. */
  datatype Query =
    | Tag(name: string)                         // find('h1'), find_all('article')
    | AnyTag(names: set<string>)                // find_all(['a', 'span', 'button'])
    | TagWithHref(name: string)                 // find('a', href=True)
    | TagWithRel(name: string, rel: string)     // find('link', rel='canonical')
    | Css(selector: string)                     // select(selector)
    | TextWithWord(cs: Chars, word: string)     // find_all(text=re.compile(r'\bword\b', re.I))
    | HrefContaining(name: string, needles: seq<string>)
                                                // find_all('a', href=re.compile('n1|n2'))
    | ClassContaining(cs: Chars, name: string, needles: seq<string>)
                                                // find_all('div', class_=re.compile('(n1|n2)', re.I))
    | AnyString                                 // the strings get_text() joins

  /** Bare tag-name selectors such as `script`; everything else is matched
      through the element's `hits`. */
  predicate IsTypeSelector(sel: string) {
    |sel| > 0 && forall k :: 0 <= k < |sel| ==> 'a' <= sel[k] <= 'z' || IsDigit(sel[k])
  }

  predicate Matches(n: Node, sel: string) {
    n.Element? && if IsTypeSelector(sel) then n.name == sel else sel in n.hits
  }

  /** The document node matches no selector. */
  lemma RootMatchesNothing(sel: string)
    ensures !Matches(Root, sel)
  {
    assert Root.name[0] == '[';
  }

  predicate Satisfies(n: Node, q: Query) {
    match q
    case Tag(name) => n.Element? && n.name == name
    case AnyTag(names) => n.Element? && n.name in names
    case TagWithHref(name) => n.Element? && n.name == name && n.href.Some?
    case TagWithRel(name, rel) => n.Element? && n.name == name && rel in n.rel
    case Css(sel) => Matches(n, sel)
    case TextWithWord(cs, word) => n.Str? && HasWord(cs, n.content, word)
    case HrefContaining(name, needles) =>
      n.Element? && n.name == name && n.href.Some?
      && exists k :: 0 <= k < |needles| && IsSubstring(needles[k], n.href.value)
    case ClassContaining(cs, name, needles) =>
      n.Element? && n.name == name
      && exists c, k :: c in n.classes && 0 <= k < |needles| && HasFold(cs, c, needles[k])
    case AnyString => n.Str?
  }

  predicate LiveHit(doc: Doc, j: nat, q: Query) {
    Live(doc, j) && Satisfies(doc.nodes[j], q)
  }

  predicate Hit(doc: Doc, root: nat, q: Query, j: nat) {
    LiveHit(doc, j, q) && Within(doc.nodes, root, j)
  }

  function FindAllFrom(doc: Doc, root: nat, q: Query, i: nat): (r: seq<nat>)
    ensures forall k :: 0 <= k < |r| ==> i <= r[k] && Hit(doc, root, q, r[k])
    ensures forall k, l :: 0 <= k < l < |r| ==> r[k] < r[l]
    ensures forall j :: i <= j && Hit(doc, root, q, j) ==> j in r
    decreases |doc.nodes| - i
  {
    if i >= |doc.nodes| then []
    else (if Hit(doc, root, q, i) then [i] else []) + FindAllFrom(doc, root, q, i + 1)
  }

  /** `root.find_all(q)`: the live descendants of `root` satisfying `q`, in
      document order, each once and all of them. */
  function FindAll(doc: Doc, root: nat, q: Query): (r: seq<nat>)
    ensures forall k :: 0 <= k < |r| ==> Hit(doc, root, q, r[k])
    ensures forall k, l :: 0 <= k < l < |r| ==> r[k] < r[l]
    ensures forall j :: Hit(doc, root, q, j) ==> j in r
  {
    FindAllFrom(doc, root, q, 0)
  }

  /** `find_all` comes back empty exactly when nothing matches. */
  lemma FindAllEmpty(doc: Doc, root: nat, q: Query)
    ensures FindAll(doc, root, q) == [] <==> forall j :: !Hit(doc, root, q, j)
  {
    var r := FindAll(doc, root, q);
    if r != [] {
      assert Hit(doc, root, q, r[0]);
    }
  }

  /** `root.find(q)`: the first of them. */
  function Find(doc: Doc, root: nat, q: Query): (r: Option<nat>)
    ensures r.Some? ==> Hit(doc, root, q, r.value)
    ensures r.Some? ==> forall j: nat :: j < r.value ==> !Hit(doc, root, q, j)
    ensures r.None? ==> forall j: nat :: !Hit(doc, root, q, j)
  {
    var all := FindAll(doc, root, q);
    if all == [] then None
    else
      assert forall j: nat :: j < all[0] ==> !Hit(doc, root, q, j);
      Some(all[0])
  }

  /** `x.find_previous(q)`: the nearest live node before `x` in document
      order (ancestors included) satisfying `q`. */
  function FindPrevious(doc: Doc, x: nat, q: Query): (r: Option<nat>)
    ensures r.Some? ==> r.value < x && LiveHit(doc, r.value, q)
    ensures r.Some? ==> forall j: nat :: r.value < j < x ==> !LiveHit(doc, j, q)
    ensures r.None? ==> forall j: nat :: j < x ==> !LiveHit(doc, j, q)
    decreases x
  {
    if x == 0 then None
    else if LiveHit(doc, x - 1, q) then Some(x - 1)
    else FindPrevious(doc, x - 1, q)
  }

  /** `x.find_next(q)`: the first live node after `x` in document order
      satisfying `q`. */
  function FindNext(doc: Doc, x: nat, q: Query): (r: Option<nat>)
    ensures r.Some? ==> x < r.value && LiveHit(doc, r.value, q)
    ensures r.Some? ==> forall j: nat :: x < j < r.value ==> !LiveHit(doc, j, q)
    ensures r.None? ==> forall j: nat :: x < j ==> !LiveHit(doc, j, q)
    decreases |doc.nodes| - x
  {
    if x + 1 >= |doc.nodes| then None
    else if LiveHit(doc, x + 1, q) then Some(x + 1)
    else FindNext(doc, x + 1, q)
  }

  /** The proper ancestors of `x` are its parent and the parent's proper
      ancestors, and none of them lies strictly below the parent. */
  lemma AncestorsOfChild(nodes: seq<Node>, x: nat)
    requires x < |nodes| && nodes[x].parent.Some? && nodes[x].parent.value < x
    ensures forall a: nat :: Within(nodes, a, x) ==>
              a == nodes[x].parent.value || Within(nodes, a, nodes[x].parent.value)
    ensures forall a: nat :: Within(nodes, a, x) ==> !Within(nodes, nodes[x].parent.value, a)
  {
    var p := nodes[x].parent.value;
    forall a: nat | Within(nodes, a, x) && Within(nodes, p, a) ensures false {
      AncOrSelfOrder(nodes, a, p);
      AncOrSelfOrder(nodes, p, a);
    }
  }

  /** `x.find_parent(q)`: the nearest proper ancestor satisfying `q`. */
  function FindParent(doc: Doc, x: nat, q: Query): (r: Option<nat>)
    ensures r.Some? ==> r.value < |doc.nodes| && Within(doc.nodes, r.value, x)
                        && Satisfies(doc.nodes[r.value], q)
    ensures r.Some? ==> forall a: nat ::
              a < |doc.nodes| && Within(doc.nodes, a, x) && Within(doc.nodes, r.value, a)
              ==> !Satisfies(doc.nodes[a], q)
    ensures r.None? ==> forall a: nat ::
              a < |doc.nodes| && Within(doc.nodes, a, x) ==> !Satisfies(doc.nodes[a], q)
    decreases x
  {
    if x >= |doc.nodes| || doc.nodes[x].parent.None? || doc.nodes[x].parent.value >= x then None
    else
      var p := doc.nodes[x].parent.value;
      AncestorsOfChild(doc.nodes, x);
      if Satisfies(doc.nodes[p], q) then Some(p)
      else
        var r := FindParent(doc, p, q);
        AncestorOfParent(doc.nodes, r, x);
        r
  }

  // ---------------------------------------------------------------------
  // Text

  function JoinStrings(nodes: seq<Node>, ids: seq<nat>, strip: bool): string {
    if ids == [] then ""
    else
      var n := if ids[0] < |nodes| && nodes[ids[0]].Str? then nodes[ids[0]].content else "";
      (if strip then Strip(n) else n) + JoinStrings(nodes, ids[1..], strip)
  }

  /** `root.get_text()`: the live strings below `root`, joined in document
      order. */
  function GetText(doc: Doc, root: nat): string {
    JoinStrings(doc.nodes, FindAll(doc, root, AnyString), false)
  }

  /** `root.get_text(strip=True)`: the same strings, each stripped of
      surrounding whitespace, joined with no separator. */
  function GetStrippedText(doc: Doc, root: nat): string {
    JoinStrings(doc.nodes, FindAll(doc, root, AnyString), true)
  }

  // ---------------------------------------------------------------------
  // The search-UI cleaner (b.py `remove_only_search_elements`)

  /** The selectors whose elements the cleaner decomposes, in order. */
  const SearchSelectors: seq<string> := [
    ".search-suggestions", ".autocomplete", ".search-form", ".search-bar",
    ".search-input", "input[type=\"search\"]", "[class*=\"search-suggestion\"]",
    "[class*=\"autocomplete\"]", "[id*=\"search-suggestion\"]",
    "[id*=\"autocomplete\"]", "script", "style"]

  predicate MatchesAny(n: Node, sels: seq<string>) {
    exists k :: 0 <= k < |sels| && Matches(n, sels[k])
  }

  /** Some ancestor-or-self of `d` matches one of `sels`. */
  predicate Doomed(nodes: seq<Node>, sels: seq<string>, d: nat)
    decreases d
  {
    d < |nodes|
    && (MatchesAny(nodes[d], sels)
        || (nodes[d].parent.Some? && nodes[d].parent.value < d
            && Doomed(nodes, sels, nodes[d].parent.value)))
  }

  ghost function DoomedSet(nodes: seq<Node>, sels: seq<string>): set<nat> {
    set d | 0 <= d < |nodes| && Doomed(nodes, sels, d)
  }

  function Subtree(nodes: seq<Node>, e: nat): set<nat> {
    set d | 0 <= d < |nodes| && AncOrSelf(nodes, e, d)
  }

  ghost predicate InSubtrees(nodes: seq<Node>, es: seq<nat>, d: nat) {
    exists m :: 0 <= m < |es| && AncOrSelf(nodes, es[m], d)
  }

  ghost function Subtrees(nodes: seq<Node>, es: seq<nat>): set<nat> {
    set d | 0 <= d < |nodes| && InSubtrees(nodes, es, d)
  }

  /** One more element adds its subtree. */
  lemma SubtreesStep(nodes: seq<Node>, es: seq<nat>, j: nat)
    requires j < |es|
    ensures Subtrees(nodes, es[..j + 1]) == Subtrees(nodes, es[..j]) + Subtree(nodes, es[j])
  {
    var p, q := es[..j + 1], es[..j];
    forall d | 0 <= d < |nodes|
      ensures InSubtrees(nodes, p, d) <==> InSubtrees(nodes, q, d) || AncOrSelf(nodes, es[j], d)
    {
      if InSubtrees(nodes, p, d) {
        var m :| 0 <= m < |p| && AncOrSelf(nodes, p[m], d);
        if m < j {
          assert q[m] == p[m];
        }
      }
      if InSubtrees(nodes, q, d) {
        var m :| 0 <= m < |q| && AncOrSelf(nodes, q[m], d);
        assert p[m] == q[m];
      }
      if AncOrSelf(nodes, es[j], d) {
        assert p[j] == es[j];
      }
    }
  }

  /** Removal is closed downwards: a removed node takes its subtree with it. */
  ghost predicate Closed(doc: Doc) {
    forall a, d :: a in doc.gone && AncOrSelf(doc.nodes, a, d) ==> d in doc.gone
  }

  /** The page after `remove_only_search_elements`. */
  ghost function Cleaned(doc: Doc): Doc {
    Doc(doc.nodes, doc.gone + DoomedSet(doc.nodes, SearchSelectors))
  }

  lemma {:induction false} DoomedByNothing(nodes: seq<Node>, d: nat)
    ensures !Doomed(nodes, [], d)
    decreases d
  {
    if d < |nodes| && nodes[d].parent.Some? && nodes[d].parent.value < d {
      DoomedByNothing(nodes, nodes[d].parent.value);
    }
  }

  lemma {:induction false} DoomedByAncestor(nodes: seq<Node>, sels: seq<string>, a: nat, d: nat)
    requires a < |nodes| && AncOrSelf(nodes, a, d) && MatchesAny(nodes[a], sels)
    ensures Doomed(nodes, sels, d)
    decreases d
  {
    if a != d {
      DoomedByAncestor(nodes, sels, a, nodes[d].parent.value);
    }
  }

  lemma {:induction false} DoomedWitness(nodes: seq<Node>, sels: seq<string>, d: nat) returns (a: nat)
    requires Doomed(nodes, sels, d)
    ensures a < |nodes| && AncOrSelf(nodes, a, d) && MatchesAny(nodes[a], sels)
    decreases d
  {
    if MatchesAny(nodes[d], sels) {
      a := d;
    } else {
      var p := nodes[d].parent.value;
      a := DoomedWitness(nodes, sels, p);
    }
  }

  /** What the cleaner removes: exactly the nodes already removed and the
      nodes lying in the subtree of an element matching one of the twelve
      selectors. */
  lemma CleanedRemovesExactly(doc: Doc, d: nat)
    requires d < |doc.nodes|
    ensures d in Cleaned(doc).gone
        <==> d in doc.gone
             || exists a: nat :: a < |doc.nodes| && AncOrSelf(doc.nodes, a, d)
                                 && MatchesAny(doc.nodes[a], SearchSelectors)
  {
    if d in Cleaned(doc).gone && d !in doc.gone {
      var a := DoomedWitness(doc.nodes, SearchSelectors, d);
    }
    if exists a: nat :: a < |doc.nodes| && AncOrSelf(doc.nodes, a, d)
                        && MatchesAny(doc.nodes[a], SearchSelectors) {
      var a: nat :| a < |doc.nodes| && AncOrSelf(doc.nodes, a, d)
               && MatchesAny(doc.nodes[a], SearchSelectors);
      DoomedByAncestor(doc.nodes, SearchSelectors, a, d);
    }
  }

  /** A page where no live element matches a search selector comes out of
      the cleaner unchanged. */
  lemma CleanedNoMatchUnchanged(doc: Doc)
    requires Closed(doc)
    requires forall j: nat :: Live(doc, j) ==> !MatchesAny(doc.nodes[j], SearchSelectors)
    ensures Cleaned(doc) == doc
  {
    forall d | d in DoomedSet(doc.nodes, SearchSelectors) ensures d in doc.gone {
      var a := DoomedWitness(doc.nodes, SearchSelectors, d);
      assert a in doc.gone;
    }
  }

  /** Cleaning twice is cleaning once. */
  lemma CleanedIdempotent(doc: Doc)
    ensures Cleaned(Cleaned(doc)) == Cleaned(doc)
  {
  }

  lemma {:induction false} MatchesAnySplit(n: Node, sels: seq<string>, k: nat)
    requires k < |sels|
    ensures MatchesAny(n, sels[..k + 1]) <==> MatchesAny(n, sels[..k]) || Matches(n, sels[k])
  {
    if Matches(n, sels[k]) {
      assert sels[..k + 1][k] == sels[k];
    }
    if MatchesAny(n, sels[..k + 1]) {
      var i :| 0 <= i < k + 1 && Matches(n, sels[..k + 1][i]);
      if i < k { assert sels[..k][i] == sels[i]; }
    }
    if MatchesAny(n, sels[..k]) {
      var i :| 0 <= i < k && Matches(n, sels[..k][i]);
      assert sels[..k + 1][i] == sels[i];
    }
  }

  lemma {:induction false} DoomedSplit(nodes: seq<Node>, sels: seq<string>, k: nat, d: nat)
    requires k < |sels|
    ensures Doomed(nodes, sels[..k + 1], d)
        <==> Doomed(nodes, sels[..k], d) || Doomed(nodes, [sels[k]], d)
    decreases d
  {
    if d < |nodes| {
      MatchesAnySplit(nodes[d], sels, k);
      assert MatchesAny(nodes[d], [sels[k]]) <==> Matches(nodes[d], sels[k]) by {
        assert [sels[k]][0] == sels[k];
      }
      if nodes[d].parent.Some? && nodes[d].parent.value < d {
        DoomedSplit(nodes, sels, k, nodes[d].parent.value);
      }
    }
  }

  /** Decomposing the live matches of one more selector extends the removed
      set by exactly what that selector dooms. */
  lemma SelectStep(nodes: seq<Node>, sels: seq<string>, g0: set<nat>, before: set<nat>, es: seq<nat>, k: nat)
    requires WellFormed(nodes) && k < |sels|
    requires Closed(Doc(nodes, before))
    requires before == g0 + DoomedSet(nodes, sels[..k])
    requires es == FindAll(Doc(nodes, before), 0, Css(sels[k]))
    ensures before + Subtrees(nodes, es) == g0 + DoomedSet(nodes, sels[..k + 1])
  {
    forall d | d in DoomedSet(nodes, sels[..k + 1])
      ensures d in before + Subtrees(nodes, es)
    {
      DoomedSplit(nodes, sels, k, d);
      if !Doomed(nodes, sels[..k], d) {
        NewlyDoomedSelected(nodes, sels[k], before, es, d);
      }
    }
    forall d | d in Subtrees(nodes, es)
      ensures d in DoomedSet(nodes, sels[..k + 1])
    {
      SelectedDoomed(nodes, sels[k], es, d);
      DoomedSplit(nodes, sels, k, d);
    }
    forall d | d in DoomedSet(nodes, sels[..k])
      ensures d in DoomedSet(nodes, sels[..k + 1])
    {
      DoomedSplit(nodes, sels, k, d);
    }
  }

  /** A node doomed by `sel` alone is already removed or lies under one of
      the live elements `sel` selects. */
  lemma NewlyDoomedSelected(nodes: seq<Node>, sel: string, before: set<nat>, es: seq<nat>, d: nat)
    requires WellFormed(nodes) && Closed(Doc(nodes, before))
    requires es == FindAll(Doc(nodes, before), 0, Css(sel))
    requires Doomed(nodes, [sel], d)
    ensures d in before || d in Subtrees(nodes, es)
  {
    var a := DoomedWitness(nodes, [sel], d);
    assert Matches(nodes[a], sel) by {
      assert Matches(nodes[a], [sel][0]);
    }
    if a !in before {
      RootMatchesNothing(sel);
      assert a != 0;
      UnderRoot(nodes, a);
      assert Hit(Doc(nodes, before), 0, Css(sel), a);
      var m :| 0 <= m < |es| && es[m] == a;
      assert InSubtrees(nodes, es, d);
    }
  }

  /** Every node under an element `sel` selects is doomed by `sel`. */
  lemma SelectedDoomed(nodes: seq<Node>, sel: string, es: seq<nat>, d: nat)
    requires forall m :: 0 <= m < |es| ==> es[m] < |nodes| && Matches(nodes[es[m]], sel)
    requires d in Subtrees(nodes, es)
    ensures Doomed(nodes, [sel], d)
  {
    var m :| 0 <= m < |es| && AncOrSelf(nodes, es[m], d);
    assert MatchesAny(nodes[es[m]], [sel]) by {
      assert [sel][0] == sel;
    }
    DoomedByAncestor(nodes, [sel], es[m], d);
  }

  /** The soup object: its node sequence is fixed at parse time, and
      `decompose()` removes nodes from it in place. */
  class Soup {
    const nodes: seq<Node>
    var gone: set<nat>

    ghost predicate Valid()
      reads this
    {
      WellFormed(nodes) && Closed(Doc(nodes, gone))
    }

    function View(): Doc
      reads this
    {
      Doc(nodes, gone)
    }

    constructor (page: Page)
      ensures Valid() && View() == Doc(page, {})
    {
      nodes := page;
      gone := {};
    }

    /** `element.decompose()`: the element and its whole subtree leave the
        tree. */
    method Decompose(e: nat)
      requires Valid() && e < |nodes|
      modifies this
      ensures Valid() && gone == old(gone) + Subtree(nodes, e)
    {
      gone := gone + Subtree(nodes, e);
      forall a, d | a in gone && AncOrSelf(nodes, a, d) ensures d in gone {
        if a in Subtree(nodes, e) {
          AncOrSelfTransitive(nodes, e, a, d);
        }
      }
    }

    /** Decompose each of `es` in turn. */
    method DecomposeAll(es: seq<nat>)
      requires Valid() && forall m :: 0 <= m < |es| ==> es[m] < |nodes|
      modifies this
      ensures Valid() && gone == old(gone) + Subtrees(nodes, es)
    {
      var j := 0;
      while j < |es|
        invariant 0 <= j <= |es|
        invariant Valid()
        invariant gone == old(gone) + Subtrees(nodes, es[..j])
      {
        Decompose(es[j]);
        SubtreesStep(nodes, es, j);
        j := j + 1;
      }
      assert es[..j] == es;
    }

    /** `remove_only_search_elements`: for each selector in turn, decompose
        every live element it selects. */
    method RemoveOnlySearchElements()
      requires Valid()
      modifies this
      ensures Valid() && View() == Cleaned(old(View()))
    {
      var k := 0;
      assert SearchSelectors[..0] == [];
      forall d: nat ensures !Doomed(nodes, [], d) {
        DoomedByNothing(nodes, d);
      }
      while k < |SearchSelectors|
        invariant 0 <= k <= |SearchSelectors|
        invariant Valid()
        invariant gone == old(gone) + DoomedSet(nodes, SearchSelectors[..k])
      {
        var elements := FindAll(View(), 0, Css(SearchSelectors[k]));
        ghost var before := gone;
        DecomposeAll(elements);
        SelectStep(nodes, SearchSelectors, old(gone), before, elements, k);
        k := k + 1;
      }
      assert SearchSelectors[..k] == SearchSelectors;
    }
  }
}
