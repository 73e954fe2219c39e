/** The string operations zone resolution relies on: ASCII upper-casing,
    the normalisation of a city name, and substring search. */
module Text {

  predicate IsLower(c: char) { 'a' <= c <= 'z' }

  /** `toUpperCase` on one character, restricted to ASCII letters. */
  function UpperChar(c: char): char
  {
    if IsLower(c) then (c as int - 32) as char else c
  }

  /** `toUpperCase` on a string: no lower-case letter is left, every other
      character is kept, and each lower-case letter becomes its capital. */
  function Upper(s: string): (r: string)
    ensures |r| == |s|
    ensures forall i :: 0 <= i < |r| ==> !IsLower(r[i])
    ensures forall i :: 0 <= i < |s| && !IsLower(s[i]) ==> r[i] == s[i]
    ensures forall i :: 0 <= i < |s| && IsLower(s[i]) ==> r[i] as int == s[i] as int - 32
  {
    seq(|s|, i requires 0 <= i < |s| => UpperChar(s[i]))
  }

  /** The city as the zone database spells it: upper-cased, with every
      space turned into the word separator `_`. */
  function Normalize(city: string): (r: string)
    ensures |r| == |city|
    ensures forall i :: 0 <= i < |r| ==> !IsLower(r[i]) && r[i] != ' '
    ensures forall i :: 0 <= i < |city| && city[i] == ' ' ==> r[i] == '_'
    ensures forall i :: 0 <= i < |city| && city[i] != ' ' ==> r[i] == UpperChar(city[i])
  {
    var u := Upper(city);
    seq(|u|, i requires 0 <= i < |u| => if u[i] == ' ' then '_' else u[i])
  }

  /** `sub` occurs in `s` starting at position `i`. */
  predicate OccursAt(s: string, sub: string, i: nat)
  {
    i + |sub| <= |s| && s[i..i + |sub|] == sub
  }

  /** `String.prototype.includes`. */
  predicate Contains(s: string, sub: string)
  {
    exists i :: 0 <= i <= |s| - |sub| && OccursAt(s, sub, i)
  }

  /** Upper-casing twice is upper-casing once. */
  lemma UpperIdempotent(s: string)
    ensures Upper(Upper(s)) == Upper(s)
  {
  }

  /** Normalisation ignores the letter case of the city. */
  lemma NormalizeIgnoresCase(city: string)
    ensures Normalize(Upper(city)) == Normalize(city)
  {
    var a, b := Normalize(Upper(city)), Normalize(city);
    forall i | 0 <= i < |city| ensures a[i] == b[i] {
      assert Upper(city)[i] == UpperChar(city[i]);
    }
  }

  /** A space and an underscore in the city normalise alike. */
  lemma NormalizeSpaceIsUnderscore(pre: string, post: string)
    ensures Normalize(pre + " " + post) == Normalize(pre + "_" + post)
  {
    var x, y := pre + " " + post, pre + "_" + post;
    var a, b := Normalize(x), Normalize(y);
    forall i | 0 <= i < |x| ensures a[i] == b[i] {
      if i != |pre| {
        assert x[i] == y[i];
      }
    }
  }

  /** The empty string occurs in every string, so an empty city matches every zone. */
  lemma ContainsEmpty(s: string)
    ensures Contains(s, "")
  {
    assert OccursAt(s, "", 0);
  }
}
