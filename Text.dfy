/** Character-level helpers the bot's handlers rely on: Python's `str.lower`
    (restricted to the scripts the bot's texts use) and the whitespace test
    behind `str.split`. */
module Text {

  /** Lower-cases one character the way Python's `str.lower` does for the basic
      Latin letters, the basic Cyrillic block (U+0400..U+042F) and the Ukrainian
      letter Ґ; every other character is left alone. */
  function LowerChar(c: char): char
  {
    if 'A' <= c <= 'Z' then (c as int + 32) as char
    else if '\U{0410}' <= c <= '\U{042F}' then (c as int + 32) as char
    else if '\U{0400}' <= c <= '\U{040F}' then (c as int + 80) as char
    else if c == '\U{0490}' then '\U{0491}'
    else c
  }

  /** Python's `s.lower()`: character-wise lower-casing. */
  function Lower(s: string): (r: string)
    ensures |r| == |s|
  {
    if s == [] then [] else [LowerChar(s[0])] + Lower(s[1..])
  }

  /** Lower-casing twice is lower-casing once. */
  lemma {:induction false} LowerIdempotent(s: string)
    ensures Lower(Lower(s)) == Lower(s)
  {
    if s != [] {
      var t := Lower(s);
      assert t == [LowerChar(s[0])] + Lower(s[1..]);
      assert t[1..] == Lower(s[1..]);
      LowerIdempotent(s[1..]);
    }
  }

  /** A text whose every character is its own lower case is unchanged. */
  lemma {:induction false} LowerFixed(s: string)
    requires forall i :: 0 <= i < |s| ==> LowerChar(s[i]) == s[i]
    ensures Lower(s) == s
  {
    if s != [] {
      LowerFixed(s[1..]);
      assert s == [s[0]] + s[1..];
    }
  }

  /** A text that `Lower` leaves unchanged is already lower case. */
  predicate IsLower(s: string)
  {
    Lower(s) == s
  }

  /** Python's `str.isspace` for one character: the characters `str.split()`
      with no argument splits on. */
  predicate IsSpace(c: char)
  {
    c == ' ' || '\t' <= c <= '\r' || '\U{001C}' <= c <= '\U{001F}'
    || c == '\U{0085}' || c == '\U{00A0}' || c == '\U{1680}'
    || '\U{2000}' <= c <= '\U{200A}' || c == '\U{2028}' || c == '\U{2029}'
    || c == '\U{202F}' || c == '\U{205F}' || c == '\U{3000}'
  }
}
