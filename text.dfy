/**
 * Java's String.toUpperCase / toLowerCase, restricted to ASCII letters:
 * ticker symbols and CoinCap identifiers are ASCII.
 */
module Text {

  function UpperChar(c: char): char {
    if 'a' <= c <= 'z' then (c as int - 32) as char else c
  }

  function LowerChar(c: char): char {
    if 'A' <= c <= 'Z' then (c as int + 32) as char else c
  }

  function ToUpper(s: string): string {
    seq(|s|, i requires 0 <= i < |s| => UpperChar(s[i]))
  }

  function ToLower(s: string): string {
    seq(|s|, i requires 0 <= i < |s| => LowerChar(s[i]))
  }

  /** Upper-casing an upper-cased string changes nothing. */
  lemma ToUpperIdempotent(s: string)
    ensures ToUpper(ToUpper(s)) == ToUpper(s)
  {
  }

  /**
   * Two strings lower-case alike exactly when they upper-case alike: both say
   * the strings are equal up to ASCII case.
   */
  lemma SameLowerIffSameUpper(a: string, b: string)
    ensures ToLower(a) == ToLower(b) <==> ToUpper(a) == ToUpper(b)
  {
    if ToLower(a) == ToLower(b) {
      assert |a| == |b|;
      forall i | 0 <= i < |a| ensures ToUpper(a)[i] == ToUpper(b)[i] {
        assert ToLower(a)[i] == ToLower(b)[i];
      }
    }
    if ToUpper(a) == ToUpper(b) {
      assert |a| == |b|;
      forall i | 0 <= i < |a| ensures ToLower(a)[i] == ToLower(b)[i] {
        assert ToUpper(a)[i] == ToUpper(b)[i];
      }
    }
  }
}
