/**
 * Character classes used by the brand-name normaliser: the ECMAScript white-space
 * class `\s`, the Unicode properties Diacritic, Letter (`\p{L}`) and Number (`\p{N}`),
 * canonical (NFD) decomposition and simple lower-case mapping.
 *
 * The tables cover Basic Latin, Latin-1 Supplement, Spacing Modifier Letters,
 * Combining Diacritical Marks and every white-space code point; any other code point
 * is classed as a symbol (neither letter, number, white space nor diacritic).
 */
module CharClass {

  /** `\s`: the WhiteSpace and LineTerminator code points of ECMAScript. */
  predicate IsSpace(c: char) {
    var k := c as int;
    || (0x09 <= k <= 0x0D) || k == 0x20 || k == 0xA0 || k == 0x1680
    || (0x2000 <= k <= 0x200A) || k == 0x2028 || k == 0x2029 || k == 0x202F
    || k == 0x205F || k == 0x3000 || k == 0xFEFF
  }

  /** The Unicode property Diacritic, within the modelled repertoire. */
  predicate IsDiacritic(c: char) {
    var k := c as int;
    || k == 0x5E || k == 0x60 || k == 0xA8 || k == 0xAF || k == 0xB4 || k == 0xB7 || k == 0xB8
    || (0x2B0 <= k <= 0x34E) || (0x350 <= k <= 0x357) || (0x35D <= k <= 0x362)
  }

  /** `\p{L}`, within the modelled repertoire. */
  predicate IsLetter(c: char) {
    var k := c as int;
    || ('A' as int <= k <= 'Z' as int) || ('a' as int <= k <= 'z' as int)
    || k == 0xAA || k == 0xB5 || k == 0xBA
    || (0xC0 <= k <= 0xD6) || (0xD8 <= k <= 0xF6) || (0xF8 <= k <= 0xFF)
    || (0x2B0 <= k <= 0x2C1) || (0x2C6 <= k <= 0x2D1) || (0x2E0 <= k <= 0x2E4)
    || k == 0x2EC || k == 0x2EE
  }

  /** `\p{N}`, within the modelled repertoire: ASCII digits, superscripts, vulgar fractions. */
  predicate IsNumber(c: char) {
    var k := c as int;
    ('0' as int <= k <= '9' as int) || k == 0xB2 || k == 0xB3 || k == 0xB9 || (0xBC <= k <= 0xBE)
  }

  /** A character the normaliser keeps as it is: `[\p{L}\p{N}]`. */
  predicate IsWordChar(c: char) {
    IsLetter(c) || IsNumber(c)
  }

  predicate IsAsciiLetter(c: char) {
    ('A' <= c <= 'Z') || ('a' <= c <= 'z')
  }

  /** Simple lower-case mapping (`toLowerCase`), within the modelled repertoire. */
  function Lower(c: char): (r: char)
    ensures IsAsciiLetter(c) ==> IsAsciiLetter(r) && 'a' <= r <= 'z'
    ensures 'A' <= c <= 'Z' ==> r as int == c as int + 0x20
    ensures 'a' <= c <= 'z' ==> r == c
    ensures IsLetter(c) <==> IsLetter(r)
    ensures IsNumber(r) <==> IsNumber(c)
    ensures IsSpace(r) <==> IsSpace(c)
  {
    var k := c as int;
    if ('A' as int <= k <= 'Z' as int) || (0xC0 <= k <= 0xDE && k != 0xD7) then (k + 0x20) as char
    else c
  }

  /**
   * Canonical decomposition of the Latin-1 letters that carry a diacritic. Rows
   * U+00C0..U+00DF and U+00E0..U+00FF share one layout; the position within the row gives
   * the upper-case base letter and the combining mark, and a base of 0 means the
   * position has no decomposition (Æ, Ð, ×/÷, Ø, Þ).
   */
  function AccentRow(i: int): (r: (int, int))
    ensures r.0 == 0 || ('A' as int <= r.0 <= 'Z' as int && 0x300 <= r.1 <= 0x327)
  {
    match i
    case 0 => (0x41, 0x300)
    case 1 => (0x41, 0x301)
    case 2 => (0x41, 0x302)
    case 3 => (0x41, 0x303)
    case 4 => (0x41, 0x308)
    case 5 => (0x41, 0x30A)
    case 7 => (0x43, 0x327)
    case 8 => (0x45, 0x300)
    case 9 => (0x45, 0x301)
    case 10 => (0x45, 0x302)
    case 11 => (0x45, 0x308)
    case 12 => (0x49, 0x300)
    case 13 => (0x49, 0x301)
    case 14 => (0x49, 0x302)
    case 15 => (0x49, 0x308)
    case 17 => (0x4E, 0x303)
    case 18 => (0x4F, 0x300)
    case 19 => (0x4F, 0x301)
    case 20 => (0x4F, 0x302)
    case 21 => (0x4F, 0x303)
    case 22 => (0x4F, 0x308)
    case 25 => (0x55, 0x300)
    case 26 => (0x55, 0x301)
    case 27 => (0x55, 0x302)
    case 28 => (0x55, 0x308)
    case 29 => (0x59, 0x301)
    case 31 => (0x59, 0x308)
    case _ => (0, 0)
  }

  /**
   * The NFD form of one code point: either the code point itself, or a base letter
   * followed by one combining diacritical mark. The base keeps the case of `c`.
   */
  function Decompose(c: char): (r: seq<char>)
    ensures |r| == 1 || |r| == 2
    ensures |r| == 1 ==> r[0] == c
    ensures |r| == 2 ==> IsAsciiLetter(r[0]) && IsDiacritic(r[1]) && !IsDiacritic(r[0])
  {
    var k := c as int;
    if 0xC0 <= k <= 0xFF && k != 0xDF then
      var row := AccentRow((k - 0xC0) % 0x20);
      if row.0 == 0 then [c]
      else [(if k >= 0xE0 then row.0 + 0x20 else row.0) as char, row.1 as char]
    else [c]
  }

  /** A character that every stage of the normaliser leaves untouched. */
  predicate Settled(c: char) {
    && IsWordChar(c) && !IsSpace(c) && !IsDiacritic(c)
    && Decompose(c) == [c] && Lower(c) == c
  }

  /** Every part of a decomposition is itself fully decomposed. */
  lemma DecomposeIsFinal(c: char)
    ensures forall d :: d in Decompose(c) ==> Decompose(d) == [d]
  {
    var r := Decompose(c);
    if |r| == 2 {
      assert Decompose(r[0]) == [r[0]];
      assert Decompose(r[1]) == [r[1]];
    }
  }

  /**
   * Lower-casing a fully decomposed, non-diacritic character that is a letter or a
   * number gives a character that no stage changes again.
   */
  lemma LowerSettles(x: char)
    requires Decompose(x) == [x] && !IsDiacritic(x)
    requires IsWordChar(Lower(x))
    ensures Settled(Lower(x))
  {
  }

  /** Lower-casing is idempotent. */
  lemma LowerIdempotent(c: char)
    ensures Lower(Lower(c)) == Lower(c)
  {
  }

  /** Lower-casing commutes with decomposition: it only touches the base letter. */
  lemma DecomposeLower(c: char)
    ensures |Decompose(c)| == 1 ==> Decompose(Lower(c)) == [Lower(c)]
    ensures |Decompose(c)| == 2 ==> Decompose(Lower(c)) == [Lower(Decompose(c)[0]), Decompose(c)[1]]
    ensures IsDiacritic(Lower(c)) <==> IsDiacritic(c)
  {
    var k := c as int;
    if 0xC0 <= k <= 0xDE && k != 0xD7 {
      assert (k + 0x20 - 0xC0) % 0x20 == (k - 0xC0) % 0x20;
    }
  }
}
