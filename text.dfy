/** Characters and strings as the scraper's regular expressions and string
    methods see them: word boundaries (`\b`), case-insensitive literal
    matching (`re.IGNORECASE`), Python whitespace (`str.split`, `str.strip`),
    ASCII digits (`\d`, `str.isdigit`, `int`, `str(n)`). */
module Text {

  datatype Option<T> = None | Some(value: T)

  /** What the model leaves to Python's Unicode database: `isWord` is the set
      of characters `\w` matches (it decides where `\b` sits) and `lower` is
      the per-character case mapping used by `str.lower()` and by
      `re.IGNORECASE`. */
  datatype Chars = Chars(isWord: char -> bool, lower: char -> char)

  predicate IsDigit(c: char) { '0' <= c <= '9' }

  predicate IsAscii(c: char) { c as int < 128 }

  predicate IsAsciiWord(c: char) {
    IsDigit(c) || 'a' <= c <= 'z' || 'A' <= c <= 'Z' || c == '_'
  }

  function AsciiLower(c: char): char {
    if 'A' <= c <= 'Z' then (c as int + 32) as char else c
  }

  /** Python's `str.isspace()`: general category Zs or bidirectional class
      B, S or WS. The same set is what `\s` matches and what `str.split()`
      and `str.strip()` treat as whitespace. */
  predicate IsSpace(c: char) {
    c == ' ' || '\t' <= c <= '\r' || '\U{1c}' <= c <= '\U{1f}'
    || c == '\U{85}' || c == '\U{a0}' || c == '\U{1680}'
    || '\U{2000}' <= c <= '\U{200a}' || c == '\U{2028}' || c == '\U{2029}'
    || c == '\U{202f}' || c == '\U{205f}' || c == '\U{3000}'
  }

  /** The facts about Python's `\w` and `str.lower()` that every ASCII text
      relies on: ASCII letters, digits and `_` are word characters, no other
      ASCII character and no whitespace is, and ASCII letters lower-case as
      usual. */
  ghost predicate Sane(cs: Chars) {
    (forall c :: IsAsciiWord(c) ==> cs.isWord(c))
    && (forall c :: IsAscii(c) && !IsAsciiWord(c) ==> !cs.isWord(c))
    && (forall c :: IsSpace(c) ==> !cs.isWord(c))
    && (forall c :: IsAscii(c) ==> cs.lower(c) == AsciiLower(c))
  }

  /** `s.lower()`, one character at a time. */
  function Lower(cs: Chars, s: string): (r: string)
    ensures |r| == |s|
    ensures forall k :: 0 <= k < |s| ==> r[k] == cs.lower(s[k])
  {
    seq(|s|, k requires 0 <= k < |s| => cs.lower(s[k]))
  }

  /** Two strings that `re.IGNORECASE` treats as equal. */
  predicate EqFold(cs: Chars, a: string, b: string) {
    |a| == |b| && forall k :: 0 <= k < |a| ==> cs.lower(a[k]) == cs.lower(b[k])
  }

  predicate WordCharAt(cs: Chars, s: string, i: int) {
    0 <= i < |s| && cs.isWord(s[i])
  }

  /** `\b` holds at position `i` (between `s[i-1]` and `s[i]`); positions
      outside `s` count as non-word characters. */
  predicate Boundary(cs: Chars, s: string, i: int) {
    WordCharAt(cs, s, i - 1) != WordCharAt(cs, s, i)
  }

  /** The pattern `\b<re.escape(w)>\b` with `re.IGNORECASE` matches at `i`. */
  predicate WordAt(cs: Chars, s: string, w: string, i: int) {
    0 <= i && i + |w| <= |s|
    && Boundary(cs, s, i)
    && EqFold(cs, s[i..i + |w|], w)
    && Boundary(cs, s, i + |w|)
  }

  /** `re.search(rf'\b{re.escape(w)}\b', s, re.IGNORECASE)` succeeds. */
  predicate HasWord(cs: Chars, s: string, w: string) {
    exists i :: 0 <= i <= |s| - |w| && WordAt(cs, s, w, i)
  }

  /** Matching at `i` sees only word-ness and lower-case forms, and
      lower-casing changes neither when `lower` is idempotent and keeps word
      characters apart from the rest. */
  lemma WordAtLower(cs: Chars, t: string, w: string, i: int)
    requires forall c :: cs.lower(cs.lower(c)) == cs.lower(c)
    requires forall c :: cs.isWord(cs.lower(c)) == cs.isWord(c)
    ensures WordAt(cs, Lower(cs, t), w, i) <==> WordAt(cs, t, w, i)
  {
    var u := Lower(cs, t);
    assert forall j :: 0 <= j < |t| ==> cs.isWord(u[j]) == cs.isWord(t[j]);
    if 0 <= i && i + |w| <= |t| {
      var a, b := u[i..i + |w|], t[i..i + |w|];
      assert forall k :: 0 <= k < |w| ==> cs.lower(a[k]) == cs.lower(b[k]);
    }
  }

  /** Searching a lower-cased text with `re.IGNORECASE` finds the same words
      as searching the text itself. */
  lemma {:induction false} LowerKeepsWord(cs: Chars, t: string, w: string)
    requires forall c :: cs.lower(cs.lower(c)) == cs.lower(c)
    requires forall c :: cs.isWord(cs.lower(c)) == cs.isWord(c)
    ensures HasWord(cs, Lower(cs, t), w) <==> HasWord(cs, t, w)
  {
    if HasWord(cs, Lower(cs, t), w) {
      var i :| 0 <= i <= |t| - |w| && WordAt(cs, Lower(cs, t), w, i);
      WordAtLower(cs, t, w, i);
    }
    if HasWord(cs, t, w) {
      var i :| 0 <= i <= |t| - |w| && WordAt(cs, t, w, i);
      WordAtLower(cs, t, w, i);
    }
  }

  predicate SubAt(s: string, p: string, i: int) {
    0 <= i && i + |p| <= |s| && s[i..i + |p|] == p
  }

  /** `p in s` for strings. */
  predicate IsSubstring(p: string, s: string) {
    exists i :: 0 <= i <= |s| - |p| && SubAt(s, p, i)
  }

  predicate FoldAt(cs: Chars, s: string, p: string, i: int) {
    0 <= i && i + |p| <= |s| && EqFold(cs, s[i..i + |p|], p)
  }

  /** `re.search(re.escape(p), s, re.IGNORECASE)` succeeds. */
  predicate HasFold(cs: Chars, s: string, p: string) {
    exists i :: 0 <= i <= |s| - |p| && FoldAt(cs, s, p, i)
  }

  predicate StartsWith(s: string, p: string) {
    |p| <= |s| && s[..|p|] == p
  }

  /** `s[:n]`. */
  function Take<T>(s: seq<T>, n: nat): (r: seq<T>)
    ensures |r| <= n && |r| <= |s|
    ensures r == s[..|r|]
    ensures |s| <= n ==> r == s
    ensures n <= |s| ==> |r| == n
  {
    if |s| <= n then s else s[..n]
  }

  // ---------------------------------------------------------------------
  // Whitespace: str.strip(), str.split(), ' '.join(...)

  function TrimLeft(s: string): (r: string)
    ensures |r| <= |s| && r == s[|s| - |r|..]
    ensures r != [] ==> !IsSpace(r[0])
    ensures forall k :: 0 <= k < |s| - |r| ==> IsSpace(s[k])
  {
    if s != [] && IsSpace(s[0]) then TrimLeft(s[1..]) else s
  }

  function TrimRight(s: string): (r: string)
    ensures |r| <= |s| && r == s[..|r|]
    ensures r != [] ==> !IsSpace(r[|r| - 1])
    ensures forall k :: |r| <= k < |s| ==> IsSpace(s[k])
  {
    if s != [] && IsSpace(s[|s| - 1]) then TrimRight(s[..|s| - 1]) else s
  }

  /** A prefix of a suffix of `s`, where both cut-off parts are whitespace,
      is a slice of `s` flanked by whitespace only. */
  lemma FlankedSlice(s: string, l: string, r: string)
    requires |l| <= |s| && l == s[|s| - |l|..]
    requires forall k :: 0 <= k < |s| - |l| ==> IsSpace(s[k])
    requires |r| <= |l| && r == l[..|r|]
    requires forall k :: |r| <= k < |l| ==> IsSpace(l[k])
    ensures exists i, j :: 0 <= i <= j <= |s| && r == s[i..j]
              && (forall k :: 0 <= k < i ==> IsSpace(s[k]))
              && (forall k :: j <= k < |s| ==> IsSpace(s[k]))
  {
    var i, j := |s| - |l|, |s| - |l| + |r|;
    forall k | j <= k < |s| ensures IsSpace(s[k]) {
      assert s[k] == l[k - i];
    }
    assert r == s[i..j];
  }

  /** `s.strip()`. */
  function Strip(s: string): (r: string)
    ensures |r| <= |s|
    ensures r != [] ==> !IsSpace(r[0]) && !IsSpace(r[|r| - 1])
    ensures exists i, j :: 0 <= i <= j <= |s| && r == s[i..j]
              && (forall k :: 0 <= k < i ==> IsSpace(s[k]))
              && (forall k :: j <= k < |s| ==> IsSpace(s[k]))
  {
    FlankedSlice(s, TrimLeft(s), TrimRight(TrimLeft(s)));
    TrimRight(TrimLeft(s))
  }

  predicate NoSpace(w: string) {
    forall k :: 0 <= k < |w| ==> !IsSpace(w[k])
  }

  /** Length of the longest prefix of `s` without whitespace. */
  function WordLen(s: string): (n: nat)
    ensures n <= |s| && NoSpace(s[..n])
    ensures n < |s| ==> IsSpace(s[n])
  {
    if s == [] || IsSpace(s[0]) then 0
    else
      var m := WordLen(s[1..]);
      assert s[..m + 1] == [s[0]] + s[1..][..m];
      m + 1
  }

  /** `s.split()`: the maximal runs of non-whitespace, in order. */
  function Words(s: string): (ws: seq<string>)
    decreases |s|
  {
    if s == [] then []
    else if IsSpace(s[0]) then Words(s[1..])
    else
      var n := WordLen(s);
      [s[..n]] + Words(s[n..])
  }

  /** `' '.join(ws)`. */
  function JoinSpace(ws: seq<string>): string {
    if ws == [] then ""
    else if |ws| == 1 then ws[0]
    else ws[0] + " " + JoinSpace(ws[1..])
  }

  /** `' '.join(s.split())`. */
  function Collapse(s: string): string {
    JoinSpace(Words(s))
  }

  /** No leading or trailing whitespace, every whitespace character is a
      plain space, and no two whitespace characters are adjacent. */
  ghost predicate Normalized(t: string) {
    (|t| > 0 ==> !IsSpace(t[0]) && !IsSpace(t[|t| - 1]))
    && (forall i :: 0 <= i < |t| && IsSpace(t[i]) ==> t[i] == ' ')
    && (forall i, j :: 0 <= i && j == i + 1 && j < |t| ==> !(IsSpace(t[i]) && IsSpace(t[j])))
  }

  lemma {:induction false} WordsShape(s: string)
    ensures forall w :: w in Words(s) ==> w != [] && NoSpace(w)
    decreases |s|
  {
    if s == [] {
    } else if IsSpace(s[0]) {
      WordsShape(s[1..]);
    } else {
      var n := WordLen(s);
      WordsShape(s[n..]);
    }
  }

  lemma {:induction false} JoinNormalized(ws: seq<string>)
    requires forall w :: w in ws ==> w != [] && NoSpace(w)
    ensures Normalized(JoinSpace(ws))
    ensures ws != [] ==> JoinSpace(ws) != []
  {
    if |ws| <= 1 {
    } else {
      var w, t := ws[0], JoinSpace(ws[1..]);
      assert ws[0] in ws;
      forall v | v in ws[1..] ensures v != [] && NoSpace(v) {
        assert v in ws;
      }
      JoinNormalized(ws[1..]);
      var r := w + " " + t;
      assert r == JoinSpace(ws);
      assert |r| > 0 ==> !IsSpace(r[0]) && !IsSpace(r[|r| - 1]) by {
        assert r[|r| - 1] == t[|t| - 1];
      }
      forall i | 0 <= i < |r| && IsSpace(r[i]) ensures r[i] == ' ' {
        if i > |w| { assert r[i] == t[i - |w| - 1]; }
      }
      forall i, j | 0 <= i && j == i + 1 && j < |r| ensures !(IsSpace(r[i]) && IsSpace(r[j])) {
        if j < |w| {
        } else if j == |w| {
          assert r[i] == w[|w| - 1];
        } else if i == |w| {
          assert r[j] == t[0];
        } else {
          assert r[i] == t[i - |w| - 1] && r[j] == t[j - |w| - 1];
        }
      }
    }
  }

  /** Collapsing whitespace yields normalized text. */
  lemma CollapseNormalized(s: string)
    ensures Normalized(Collapse(s))
  {
    WordsShape(s);
    JoinNormalized(Words(s));
  }

  lemma {:induction false} WordLenOfWord(w: string, t: string)
    requires NoSpace(w) && (t == [] || IsSpace(t[0]))
    ensures WordLen(w + t) == |w|
    decreases |w|
  {
    if w != [] {
      assert (w + t)[1..] == w[1..] + t;
      WordLenOfWord(w[1..], t);
    }
  }

  /** A word followed by nothing or by whitespace splits off as one word. */
  lemma WordsOfWordThen(w: string, t: string)
    requires w != [] && NoSpace(w) && (t == [] || IsSpace(t[0]))
    ensures Words(w + t) == [w] + Words(t)
  {
    WordLenOfWord(w, t);
    assert (w + t)[..|w|] == w;
    assert (w + t)[|w|..] == t;
  }

  /** `s.split()` undoes `' '.join(ws)` when no word is empty or holds
      whitespace. */
  lemma {:induction false} WordsOfJoin(ws: seq<string>)
    requires forall w :: w in ws ==> w != [] && NoSpace(w)
    ensures Words(JoinSpace(ws)) == ws
  {
    if ws == [] {
    } else if |ws| == 1 {
      assert ws[0] in ws;
      WordsOfWordThen(ws[0], []);
      assert ws[0] + [] == ws[0];
    } else {
      assert ws[0] in ws;
      forall v | v in ws[1..] ensures v != [] && NoSpace(v) {
        assert v in ws;
      }
      var t := " " + JoinSpace(ws[1..]);
      AppendAssoc(ws[0], " ", JoinSpace(ws[1..]));
      WordsOfWordThen(ws[0], t);
      assert t[1..] == JoinSpace(ws[1..]);
      WordsOfJoin(ws[1..]);
    }
  }

  /** Collapsing whitespace keeps the words, so collapsing twice is
      collapsing once. */
  lemma CollapseKeepsWords(s: string)
    ensures Words(Collapse(s)) == Words(s)
    ensures Collapse(Collapse(s)) == Collapse(s)
  {
    WordsShape(s);
    WordsOfJoin(Words(s));
  }

  /** Collapsing whitespace never makes a string longer. */
  lemma {:induction false} CollapseShrinks(s: string)
    ensures |Collapse(s)| <= |s|
    decreases |s|
  {
    if s == [] {
    } else if IsSpace(s[0]) {
      CollapseShrinks(s[1..]);
    } else {
      var n := WordLen(s);
      var rest := s[n..];
      assert Words(s) == [s[..n]] + Words(rest);
      if Words(rest) == [] {
        assert Collapse(s) == s[..n];
      } else {
        assert rest != [] && IsSpace(rest[0]);
        assert Words(rest) == Words(rest[1..]);
        CollapseShrinks(rest[1..]);
        assert ([s[..n]] + Words(rest))[1..] == Words(rest);
        assert Collapse(s) == s[..n] + " " + Collapse(rest[1..]);
      }
    }
  }

  // ---------------------------------------------------------------------
  // Decimal numbers: str(n), str.isdigit(), int(s)

  predicate AllDigits(s: string) {
    forall k :: 0 <= k < |s| ==> IsDigit(s[k])
  }

  /** `s.isdigit()` for ASCII text. */
  predicate IsDigitString(s: string) {
    |s| > 0 && AllDigits(s)
  }

  function DigitChar(d: nat): (c: char)
    requires d < 10
    ensures IsDigit(c)
  {
    ('0' as int + d) as char
  }

  /** `str(n)` for a non-negative integer. */
  function NatToString(n: nat): (s: string)
    ensures IsDigitString(s)
  {
    if n < 10 then [DigitChar(n)] else NatToString(n / 10) + [DigitChar(n % 10)]
  }

  /** `int(s)` for a string of ASCII digits. */
  function DigitsValue(s: string): nat
    requires AllDigits(s)
  {
    if s == [] then 0
    else DigitsValue(s[..|s| - 1]) * 10 + (s[|s| - 1] as int - '0' as int)
  }

  /** Reading back a formatted number gives the number. */
  lemma {:induction false} DigitsValueOfNatToString(n: nat)
    ensures DigitsValue(NatToString(n)) == n
  {
    if n >= 10 {
      DigitsValueOfNatToString(n / 10);
      var s := NatToString(n);
      assert s[..|s| - 1] == NatToString(n / 10);
    }
  }

  /** Length of the maximal run of ASCII digits starting at `i`. */
  function DigitRun(s: string, i: nat): (n: nat)
    requires i <= |s|
    ensures i + n <= |s|
    ensures AllDigits(s[i..i + n])
    ensures i + n < |s| ==> !IsDigit(s[i + n])
    decreases |s| - i
  {
    if i < |s| && IsDigit(s[i]) then
      var m := DigitRun(s, i + 1);
      assert s[i..i + 1 + m] == [s[i]] + s[i + 1..i + 1 + m];
      1 + m
    else 0
  }

  /** Length of the maximal run of whitespace starting at `i`. */
  function SpaceRun(s: string, i: nat): (n: nat)
    requires i <= |s|
    ensures i + n <= |s|
    ensures forall k :: i <= k < i + n ==> IsSpace(s[k])
    ensures i + n < |s| ==> !IsSpace(s[i + n])
    decreases |s| - i
  {
    if i < |s| && IsSpace(s[i]) then 1 + SpaceRun(s, i + 1) else 0
  }

  // ---------------------------------------------------------------------
  // First present entry

  /** The first present entry from `k` on: the `for ...: if found: break`
      loop, and the leftmost match of a search. */
  function FirstSome<T>(xs: seq<Option<T>>, k: nat): Option<T>
    decreases |xs| - k
  {
    if k >= |xs| then None else if xs[k].Some? then xs[k] else FirstSome(xs, k + 1)
  }

  /** `FirstSome` finds nothing exactly when every entry from `k` is absent,
      and otherwise gives the entry at the first present position. */
  lemma {:induction false} FirstSomeIsFirst<T>(xs: seq<Option<T>>, k: nat)
    requires k <= |xs|
    ensures FirstSome(xs, k).None? <==> forall l :: k <= l < |xs| ==> xs[l].None?
    ensures FirstSome(xs, k).Some? ==>
              exists l :: k <= l < |xs| && xs[l].Some? && FirstSome(xs, k) == xs[l]
                && forall m :: k <= m < l ==> xs[m].None?
    decreases |xs| - k
  {
    if k < |xs| && xs[k].None? {
      FirstSomeIsFirst(xs, k + 1);
      if FirstSome(xs, k).Some? {
        var l :| k + 1 <= l < |xs| && xs[l].Some? && FirstSome(xs, k + 1) == xs[l]
                 && forall m :: k + 1 <= m < l ==> xs[m].None?;
        assert forall m :: k <= m < l ==> xs[m].None?;
      }
    }
  }

  /** The first present entry, given that the entry at `l0` is present. */
  lemma FirstPresent<T>(xs: seq<Option<T>>, l0: nat) returns (l: nat)
    requires l0 < |xs| && xs[l0].Some?
    ensures l <= l0 && xs[l].Some? && FirstSome(xs, 0) == xs[l]
    ensures forall m :: 0 <= m < l ==> xs[m].None?
  {
    FirstSomeIsFirst(xs, 0);
    l :| 0 <= l < |xs| && xs[l].Some? && FirstSome(xs, 0) == xs[l]
         && forall m :: 0 <= m < l ==> xs[m].None?;
  }

  /** An occurrence stays where it is when text is appended, and the
      appended part occurs right after the original. */
  lemma SubAtConcat(a: string, b: string, p: string, i: int)
    ensures SubAt(a, p, i) ==> SubAt(a + b, p, i)
    ensures SubAt(a + b, b, |a|)
  {
    if SubAt(a, p, i) {
      assert (a + b)[i..i + |p|] == a[i..i + |p|];
    }
    assert (a + b)[|a|..|a| + |b|] == b;
  }

  /** A prefix stays a prefix when text is appended. */
  lemma StartsWithConcat(a: string, b: string, p: string)
    requires StartsWith(a, p)
    ensures StartsWith(a + b, p)
  {
    assert (a + b)[..|p|] == a[..|p|];
  }

  /** An occurrence moves right by the length of text put in front. */
  lemma SubAtPrepend(a: string, b: string, p: string, i: int)
    requires SubAt(b, p, i)
    ensures SubAt(a + b, p, |a| + i)
  {
    assert (a + b)[|a| + i..|a| + i + |p|] == b[i..i + |p|];
  }

  /** Text around a string keeps every occurrence in it. */
  lemma SubstringInMiddle(a: string, b: string, c: string, p: string)
    requires IsSubstring(p, b)
    ensures IsSubstring(p, a + b + c)
  {
    var i :| 0 <= i <= |b| - |p| && SubAt(b, p, i);
    SubAtPrepend(a, b, p, i);
    SubAtConcat(a + b, c, p, |a| + i);
  }

  /** Appending the next element of `s` extends `a + s[..i]` by one. */
  lemma AppendPrefixStep<T>(a: seq<T>, s: seq<T>, i: nat)
    requires i < |s|
    ensures (a + s[..i]) + [s[i]] == a + s[..i + 1]
  {
    assert s[..i + 1] == s[..i] + [s[i]];
  }

  /** Concatenation is associative. */
  lemma AppendAssoc<T>(a: seq<T>, b: seq<T>, c: seq<T>)
    ensures (a + b) + c == a + (b + c)
  {
  }

  /** The present entries of `xs`, in order. */
  function Somes<T>(xs: seq<Option<T>>): seq<T> {
    if xs == [] then [] else (if xs[0].Some? then [xs[0].value] else []) + Somes(xs[1..])
  }

  /** Every value of `Somes(xs)` is present in `xs`. */
  lemma {:induction false} SomesFrom<T>(xs: seq<Option<T>>, x: T)
    requires x in Somes(xs)
    ensures exists k :: 0 <= k < |xs| && xs[k] == Some(x)
  {
    if !(xs[0].Some? && xs[0].value == x) {
      SomesFrom(xs[1..], x);
      var k :| 0 <= k < |xs[1..]| && xs[1..][k] == Some(x);
      assert xs[k + 1] == Some(x);
    }
  }

  lemma SomesStep<T>(xs: seq<Option<T>>, i: nat)
    requires i < |xs|
    ensures Somes(xs[i..]) == (if xs[i].Some? then [xs[i].value] else []) + Somes(xs[i + 1..])
  {
    assert xs[i..][0] == xs[i] && xs[i..][1..] == xs[i + 1..];
  }

  /** One step of a loop that collects the present entries of `xs`. */
  lemma SomesAccumulate<T>(acc: seq<T>, xs: seq<Option<T>>, i: nat)
    requires i < |xs|
    ensures acc + Somes(xs[i..]) == (acc + (if xs[i].Some? then [xs[i].value] else [])) + Somes(xs[i + 1..])
  {
    SomesStep(xs, i);
  }
}
