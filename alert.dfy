/** The Telegram alert text that b.py and c.py build the same way: one
    block per result, numbered from 1, each with the title, the first 200
    characters of the context, a link line when there is a link, and the
    page number. */
module Alert {
  import opened Text

  /** `🔗 <a href='…'>View Details</a>`. */
  function LinkLine(link: string): string {
    "\U{1F517} <a href='" + link + "'>View Details</a>\n"
  }

  /** `📍 <first 200 characters of the context>...`. */
  function ContextLine(context: string): string {
    "\U{1F4CD} " + Take(context, 200) + "...\n"
  }

  /** `📄 Page N`. */
  function PageLine(page: nat): string {
    "\U{1F4C4} Page " + NatToString(page) + "\n\n"
  }

  /** The block of the `i`-th result. */
  function Block(i: nat, title: string, link: string, context: string, page: nat): string {
    "<b>" + NatToString(i) + ". " + title + "</b>\n"
    + ContextLine(context)
    + (if link != "" then LinkLine(link) else "")
    + PageLine(page)
  }

  /** The blocks of `rs`, numbered from 1, in order. */
  function Blocks<T>(rs: seq<T>, block: (nat, T) -> string): string {
    if rs == [] then "" else Blocks(rs[..|rs| - 1], block) + block(|rs|, rs[|rs| - 1])
  }

  /** `🕐 Checked at: …`; the time is given, not read from a clock. */
  function Footer(checkedAt: string): string {
    "\U{1F550} Checked at: " + checkedAt
  }

  /** The block shows the title, the context cut to 200 characters and the
      page number, and carries the link line when there is a link. */
  lemma BlockShape(i: nat, title: string, link: string, context: string, page: nat)
    ensures var b := Block(i, title, link, context, page);
            IsSubstring(title, b) && IsSubstring(ContextLine(context), b)
            && IsSubstring(PageLine(page), b)
            && (link != "" ==> IsSubstring(LinkLine(link), b))
  {
    var s0 := "<b>" + NatToString(i) + ". ";
    var s1 := s0 + title;
    var s2 := s1 + "</b>\n";
    var s3 := s2 + ContextLine(context);
    var l := if link != "" then LinkLine(link) else "";
    var s4 := s3 + l;
    var b := s4 + PageLine(page);
    assert b == Block(i, title, link, context, page);
    SubAtConcat(s0, title, title, 0);
    SubAtConcat(s1, "</b>\n", title, |s0|);
    SubAtConcat(s2, ContextLine(context), title, |s0|);
    SubAtConcat(s3, l, title, |s0|);
    SubAtConcat(s4, PageLine(page), title, |s0|);
    assert SubAt(b, title, |s0|);
    SubAtConcat(s3, l, ContextLine(context), |s2|);
    SubAtConcat(s4, PageLine(page), ContextLine(context), |s2|);
    assert SubAt(b, ContextLine(context), |s2|);
    SubAtConcat(s4, PageLine(page), l, |s3|);
    assert SubAt(b, l, |s3|);
    assert SubAt(b, PageLine(page), |s4|);
  }

  /** Every result has its own block, numbered by its position from 1. */
  lemma {:induction false} EveryResultListed<T>(rs: seq<T>, block: (nat, T) -> string, k: nat)
    requires k < |rs|
    ensures IsSubstring(block(k + 1, rs[k]), Blocks(rs, block))
  {
    var init := rs[..|rs| - 1];
    var e := block(|rs|, rs[|rs| - 1]);
    SubAtConcat(Blocks(init, block), e, e, 0);
    if k < |init| {
      EveryResultListed(init, block, k);
      assert init[k] == rs[k];
      var i :| 0 <= i <= |Blocks(init, block)| - |block(k + 1, rs[k])|
               && SubAt(Blocks(init, block), block(k + 1, rs[k]), i);
      SubAtConcat(Blocks(init, block), e, block(k + 1, rs[k]), i);
    }
  }

  /** A message made of a header, the blocks and a footer holds the block
      of every result. */
  lemma InMessage<T>(header: string, rs: seq<T>, block: (nat, T) -> string, footer: string, k: nat)
    requires k < |rs|
    ensures IsSubstring(block(k + 1, rs[k]), header + Blocks(rs, block) + footer)
  {
    EveryResultListed(rs, block, k);
    SubstringInMiddle(header, Blocks(rs, block), footer, block(k + 1, rs[k]));
  }

  /** Extending the results by one appends one block. */
  lemma BlocksStep<T>(rs: seq<T>, block: (nat, T) -> string, i: nat)
    requires i < |rs|
    ensures Blocks(rs[..i + 1], block) == Blocks(rs[..i], block) + block(i + 1, rs[i])
  {
    assert rs[..i + 1][..i] == rs[..i];
  }
}
