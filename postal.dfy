/** Postal-code correlation (b.py `extract_postal_code`, `is_valid_city_match`):
    a city with a known two-digit département prefix is accepted only when the
    first standalone five-digit code of the text carries that prefix; any
    other city needs its name as a whole word and some five-digit code. */
module Postal {
  import opened Text

  /** The city → département prefix table. b.py keeps each entry as the
      pattern `NN\d{3}`, c.py as the bare prefix `NN`. */
  const Prefixes: map<string, string> := map[
    "paris" := "75", "lyon" := "69", "marseille" := "13", "toulouse" := "31",
    "nice" := "06", "nantes" := "44", "strasbourg" := "67",
    "montpellier" := "34", "bordeaux" := "33", "lille" := "59",
    "rennes" := "35", "reims" := "51", "grenoble" := "38"]

  /** Every prefix of the table is two ASCII digits. */
  lemma PrefixesAreCodes()
    ensures forall c :: c in Prefixes ==> |Prefixes[c]| == 2 && AllDigits(Prefixes[c])
  {
  }

  /** `\b(\d{5})\b` matches at `i`. */
  predicate PostalAt(cs: Chars, s: string, i: int) {
    0 <= i && i + 5 <= |s|
    && Boundary(cs, s, i)
    && AllDigits(s[i..i + 5])
    && Boundary(cs, s, i + 5)
  }

  /** The leftmost position at or after `from` where a postal code matches. */
  function FirstPostalFrom(cs: Chars, s: string, from: nat): (r: Option<nat>)
    ensures r.Some? ==> from <= r.value && PostalAt(cs, s, r.value)
    ensures r.Some? ==> forall k :: from <= k < r.value ==> !PostalAt(cs, s, k)
    ensures r.None? ==> forall k :: from <= k ==> !PostalAt(cs, s, k)
    decreases |s| - from
  {
    if from + 5 > |s| then None
    else if PostalAt(cs, s, from) then Some(from)
    else FirstPostalFrom(cs, s, from + 1)
  }

  /** `extract_postal_code`: the leftmost whole-word run of five digits. */
  function ExtractPostalCode(cs: Chars, s: string): (r: Option<string>)
    ensures r.None? <==> forall i :: !PostalAt(cs, s, i)
    ensures r.Some? ==> |r.value| == 5 && AllDigits(r.value)
    ensures r.Some? ==> exists i :: PostalAt(cs, s, i) && s[i..i + 5] == r.value
                               && forall k :: 0 <= k < i ==> !PostalAt(cs, s, k)
  {
    match FirstPostalFrom(cs, s, 0)
    case None => None
    case Some(i) => Some(s[i..i + 5])
  }

  /** `re.match(prefix + r'\d{3}', code)`. */
  predicate PatternMatch(prefix: string, code: string) {
    |prefix| + 3 <= |code| && StartsWith(code, prefix)
    && AllDigits(code[|prefix|..|prefix| + 3])
  }

  /** `is_valid_city_match` for the (already lower-cased) target city. */
  predicate IsValidCityMatch(cs: Chars, city: string, text: string) {
    var code := ExtractPostalCode(cs, text);
    if city == "paris" then
      code.Some? && StartsWith(code.value, "75")
    else if city in Prefixes && code.Some? then
      PatternMatch(Prefixes[city], code.value)
    else
      HasWord(cs, Lower(cs, text), city) && code.Some?
  }

  /** A city of the table, 'paris' included, is accepted exactly when a first
      postal code exists and starts with the city's prefix; the name itself is
      not looked at. */
  lemma ValidForMappedCity(cs: Chars, city: string, text: string)
    requires city in Prefixes
    ensures IsValidCityMatch(cs, city, text)
        <==> ExtractPostalCode(cs, text).Some?
             && ExtractPostalCode(cs, text).value[..2] == Prefixes[city]
  {
    var code := ExtractPostalCode(cs, text);
    if code.Some? && city != "paris" {
      var p := Prefixes[city];
      assert |p| == 2;
      assert PatternMatch(p, code.value) <==> code.value[..2] == p;
    }
  }

  /** A city outside the table is accepted exactly when its name occurs as a
      whole word of the lower-cased text and some postal code is present. */
  lemma ValidForUnmappedCity(cs: Chars, city: string, text: string)
    requires city !in Prefixes
    ensures IsValidCityMatch(cs, city, text)
        <==> HasWord(cs, Lower(cs, text), city) && exists i :: PostalAt(cs, text, i)
  {
  }

  /** Without a postal code every city is rejected. */
  lemma NoPostalCodeRejects(cs: Chars, city: string, text: string)
    requires forall i :: !PostalAt(cs, text, i)
    ensures !IsValidCityMatch(cs, city, text)
  {
  }

  /** Only the first code counts: a first code with a foreign prefix rejects
      a mapped city whatever codes follow it. */
  lemma FirstCodeDecides(cs: Chars, city: string, text: string, i: nat)
    requires city in Prefixes
    requires PostalAt(cs, text, i) && text[i..i + 2] != Prefixes[city]
    requires forall k :: 0 <= k < i ==> !PostalAt(cs, text, k)
    ensures !IsValidCityMatch(cs, city, text)
  {
    ValidForMappedCity(cs, city, text);
    var r := FirstPostalFrom(cs, text, 0);
    assert r == Some(i);
    assert ExtractPostalCode(cs, text).value[..2] == text[i..i + 2];
  }

  /** A matched code stands alone: the characters around it, when there are
      any, are neither ASCII letters, digits nor `_` ("1975013" and
      "75013Paris" hold no code). Conversely five digits with such
      neighbours always match. */
  lemma PostalAtIsolated(cs: Chars, s: string, i: int)
    requires Sane(cs)
    requires 0 <= i && i + 5 <= |s| && AllDigits(s[i..i + 5])
    ensures PostalAt(cs, s, i)
        <==> (i == 0 || !cs.isWord(s[i - 1])) && (i + 5 == |s| || !cs.isWord(s[i + 5]))
    ensures PostalAt(cs, s, i)
        ==> (i == 0 || !IsAsciiWord(s[i - 1])) && (i + 5 == |s| || !IsAsciiWord(s[i + 5]))
  {
    assert IsDigit(s[i..i + 5][0]) && IsDigit(s[i..i + 5][4]);
    assert cs.isWord(s[i]) && cs.isWord(s[i + 4]);
  }
}
