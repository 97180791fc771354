/** How b.py and main.py describe the element around a city mention: its
    title (the nearest heading), its link (the nearest anchor) and its
    whitespace-normalised context. */
module Snippet {
  import opened Text
  import opened Html
  import opened Env

  /** The heading levels, tried in this order. */
  const HeadingTags: seq<string> := ["h1", "h2", "h3", "h4", "h5", "h6"]

  /** Some live node other than `p` is a `<t>` element. */
  ghost predicate HeadingExists(doc: Doc, p: nat, t: string) {
    exists j: nat :: j != p && LiveHit(doc, j, Tag(t))
  }

  /** `p.find(t) or p.find_previous(t) or p.find_next(t)`. */
  function HeadingNear(doc: Doc, p: nat, t: string): Option<nat> {
    var inside := Find(doc, p, Tag(t));
    if inside.Some? then inside
    else
      var before := FindPrevious(doc, p, Tag(t));
      if before.Some? then before else FindNext(doc, p, Tag(t))
  }

  /** The three searches together see every live `<t>` but `p` itself: one
      is found exactly when one exists, a descendant of `p` wins over a
      preceding one, and a preceding one (the nearest) over a following one. */
  lemma HeadingNearChoice(doc: Doc, p: nat, t: string)
    ensures HeadingNear(doc, p, t).Some? <==> HeadingExists(doc, p, t)
    ensures HeadingNear(doc, p, t).Some? ==>
              HeadingNear(doc, p, t).value != p && LiveHit(doc, HeadingNear(doc, p, t).value, Tag(t))
    ensures (exists j: nat :: Hit(doc, p, Tag(t), j)) ==>
              HeadingNear(doc, p, t) == Find(doc, p, Tag(t))
    ensures (forall j: nat :: !Hit(doc, p, Tag(t), j)) && (exists j: nat :: j < p && LiveHit(doc, j, Tag(t))) ==>
              HeadingNear(doc, p, t) == FindPrevious(doc, p, Tag(t))
  {
    var r := HeadingNear(doc, p, t);
    if HeadingExists(doc, p, t) {
      var j: nat :| j != p && LiveHit(doc, j, Tag(t));
      assert r.Some? by {
        if Find(doc, p, Tag(t)).None? && FindPrevious(doc, p, Tag(t)).None? {
          assert j > p;
        }
      }
    }
    if r.Some? && Find(doc, p, Tag(t)).Some? {
      assert Within(doc.nodes, p, r.value);
    }
  }

  /** What `HeadingNear` finds at each level, h1 first. */
  function Levels(doc: Doc, p: nat): (r: seq<Option<nat>>)
    ensures |r| == |HeadingTags|
    ensures forall l :: 0 <= l < |r| ==> r[l] == HeadingNear(doc, p, HeadingTags[l])
  {
    seq(|HeadingTags|, l requires 0 <= l < |HeadingTags| => HeadingNear(doc, p, HeadingTags[l]))
  }

  /** The heading the level loop settles on. */
  function ChosenHeading(doc: Doc, p: nat): Option<nat> {
    FirstSome(Levels(doc, p), 0)
  }

  /** `title`: the stripped text of the chosen heading, or "Unknown" without
      one. */
  function TitleOf(doc: Doc, p: nat): string {
    match ChosenHeading(doc, p)
    case None => "Unknown"
    case Some(h) => GetStrippedText(doc, h)
  }

  /** The first level that has a heading outside `p` decides: no heading is
      chosen exactly when no level has one, and otherwise the chosen one is
      what `HeadingNear` picks at the first level `l` that has one. */
  lemma TitleRule(doc: Doc, p: nat)
    ensures ChosenHeading(doc, p).None? <==>
              forall l :: 0 <= l < |HeadingTags| ==> !HeadingExists(doc, p, HeadingTags[l])
    ensures ChosenHeading(doc, p).Some? ==>
              exists l :: 0 <= l < |HeadingTags| && HeadingExists(doc, p, HeadingTags[l])
                && (forall m :: 0 <= m < l ==> !HeadingExists(doc, p, HeadingTags[m]))
                && ChosenHeading(doc, p) == HeadingNear(doc, p, HeadingTags[l])
  {
    var xs := Levels(doc, p);
    forall l | 0 <= l < |HeadingTags|
      ensures xs[l].Some? <==> HeadingExists(doc, p, HeadingTags[l])
    {
      HeadingNearChoice(doc, p, HeadingTags[l]);
    }
    FirstSomeIsFirst(xs, 0);
    if ChosenHeading(doc, p).Some? {
      var l :| 0 <= l < |xs| && xs[l].Some? && FirstSome(xs, 0) == xs[l]
               && forall m :: 0 <= m < l ==> xs[m].None?;
      assert HeadingExists(doc, p, HeadingTags[l]);
    }
  }

  /** The title loop itself. */
  method FindTitle(doc: Doc, p: nat) returns (title: string)
    ensures title == TitleOf(doc, p)
  {
    ghost var levels := Levels(doc, p);
    title := "Unknown";
    var k := 0;
    while k < |HeadingTags|
      invariant 0 <= k <= |HeadingTags|
      invariant ChosenHeading(doc, p) == FirstSome(levels, k)
      invariant title == "Unknown"
    {
      var h := HeadingNear(doc, p, HeadingTags[k]);
      if h.Some? {
        title := GetStrippedText(doc, h.value);
        return;
      }
      k := k + 1;
    }
  }

  /** `parent.find('a') or parent.find_parent('a')`. */
  function LinkElement(doc: Doc, p: nat): Option<nat> {
    var inside := Find(doc, p, Tag("a"));
    if inside.Some? then inside else FindParent(doc, p, Tag("a"))
  }

  /** `link`: the anchor's `href` resolved against the site, "" when there
      is no anchor or its `href` is missing or empty, and None when
      `urljoin` raises on that `href`. */
  function LinkOf(lib: Lib, doc: Doc, p: nat): Option<string> {
    var a := LinkElement(doc, p);
    if a.Some? && a.value < |doc.nodes| && doc.nodes[a.value].Element?
       && doc.nodes[a.value].href.Some? && doc.nodes[a.value].href.value != ""
    then lib.urlJoin(BaseUrl, doc.nodes[a.value].href.value)
    else Some("")
  }

  /** A link that is not "" (a joined one, or a failed join) comes from an
      `<a>` inside `p` or around it, and from nothing else: the anchor
      carries a non-empty `href` and the link is what joining that `href`
      to the site gives. */
  lemma LinkSource(lib: Lib, doc: Doc, p: nat)
    requires LinkOf(lib, doc, p) != Some("")
    ensures exists a: nat :: a < |doc.nodes| && doc.nodes[a].Element? && doc.nodes[a].name == "a"
              && (Within(doc.nodes, p, a) || Within(doc.nodes, a, p))
              && doc.nodes[a].href.Some? && doc.nodes[a].href.value != ""
              && LinkOf(lib, doc, p) == lib.urlJoin(BaseUrl, doc.nodes[a].href.value)
  {
    var a := LinkElement(doc, p).value;
    assert Within(doc.nodes, p, a) || Within(doc.nodes, a, p);
  }

  /** The text of an optional URL: "" for None. */
  function UrlOrEmpty(u: Option<string>): string {
    if u.Some? then u.value else ""
  }

  /** `' '.join(element_text[:400].strip().split())`. */
  function ContextOf(text: string): string {
    Collapse(Strip(Take(text, 400)))
  }

  /** A context is at most 400 characters, with single spaces between its
      words and none at either end. */
  lemma ContextShape(text: string)
    ensures |ContextOf(text)| <= 400
    ensures Normalized(ContextOf(text))
  {
    CollapseShrinks(Strip(Take(text, 400)));
    CollapseNormalized(Strip(Take(text, 400)));
  }
}
