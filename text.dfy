/**
 * Strings as sequences of characters: decimal rendering of integers (Java's
 * string concatenation of a number) and the case-insensitive substring test
 * behind Spring Data's `...ContainingIgnoreCase` queries.
 */
module Text {

  function DigitChar(d: int): char
    requires 0 <= d <= 9
  {
    ('0' as int + d) as char
  }

  /** Decimal digits of `n`, most significant first, no leading zeros. */
  function NatToString(n: nat): (r: string)
    ensures |r| >= 1
    decreases n
  {
    if n < 10 then [DigitChar(n)] else NatToString(n / 10) + [DigitChar(n % 10)]
  }

  /** `"" + n` for a Java integer or long. */
  function IntToString(n: int): string
  {
    if n < 0 then "-" + NatToString(-n) else NatToString(n)
  }

  /**
   * SQL `upper` on one character: the ASCII and Latin-1 lower-case letters are
   * mapped to their capitals; every other character is left as it is.
   */
  function UpperChar(c: char): char
  {
    if 'a' <= c <= 'z' then (c as int - 32) as char
    else if 'à' <= c <= 'þ' && c != '÷' then (c as int - 32) as char
    else c
  }

  function ToUpper(s: string): (r: string)
    ensures |r| == |s|
    ensures forall i :: 0 <= i < |s| ==> r[i] == UpperChar(s[i])
  {
    seq(|s|, i requires 0 <= i < |s| => UpperChar(s[i]))
  }

  /** `p` occurs in `s` starting at position `i`. */
  predicate OccursAt(p: string, s: string, i: int)
  {
    0 <= i <= |s| - |p| && s[i..i + |p|] == p
  }

  /** `p` occurs in `s` at some position. */
  predicate IsSubstring(p: string, s: string)
  {
    exists i :: 0 <= i <= |s| - |p| && OccursAt(p, s, i)
  }

  /**
   * `upper(s) like upper('%' || q || '%')` with the wildcards in `q` escaped,
   * which is what `findByNomeContainingIgnoreCase(q)` asks of a row's `s`.
   */
  predicate ContainsIgnoreCase(s: string, q: string)
  {
    IsSubstring(ToUpper(q), ToUpper(s))
  }

  // ---------------------------------------------------------------------------
  // Lemmas

  lemma UpperCharIdempotent(c: char)
    ensures UpperChar(UpperChar(c)) == UpperChar(c)
  {
  }

  lemma ToUpperIdempotent(s: string)
    ensures ToUpper(ToUpper(s)) == ToUpper(s)
  {
    forall i | 0 <= i < |s| ensures ToUpper(ToUpper(s))[i] == ToUpper(s)[i] {
      UpperCharIdempotent(s[i]);
    }
  }

  lemma ToUpperSlice(s: string, i: int, j: int)
    requires 0 <= i <= j <= |s|
    ensures ToUpper(s)[i..j] == ToUpper(s[i..j])
  {
  }

  /** The empty query matches every name. */
  lemma EmptyQueryMatchesAll(s: string)
    ensures ContainsIgnoreCase(s, "")
  {
    assert OccursAt(ToUpper(""), ToUpper(s), 0);
  }

  /** An exact occurrence of the query is found whatever the case. */
  lemma SubstringMatches(s: string, q: string)
    requires IsSubstring(q, s)
    ensures ContainsIgnoreCase(s, q)
  {
    var i :| 0 <= i <= |s| - |q| && OccursAt(q, s, i);
    ToUpperSlice(s, i, i + |q|);
    assert OccursAt(ToUpper(q), ToUpper(s), i);
  }

  /** Matching ignores case: upper-casing the name or the query changes nothing. */
  lemma MatchIgnoresCase(s: string, q: string)
    ensures ContainsIgnoreCase(ToUpper(s), q) == ContainsIgnoreCase(s, q)
    ensures ContainsIgnoreCase(s, ToUpper(q)) == ContainsIgnoreCase(s, q)
  {
    ToUpperIdempotent(s);
    ToUpperIdempotent(q);
  }
}
