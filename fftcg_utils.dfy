/**
 * Constants and symbol encircling (fftcg/utils.py). `EncircleSymbol` turns
 * the first character of a cost or element symbol into its circled (or
 * negative circled) Unicode counterpart by code-point arithmetic.
 */
module Utils {
  import opened Wrappers
  import opened Strings
  import Grids

  /** Default sheet layout of the tabletop simulator: 10 columns, 7 rows. */
  const GRID := Grids.Grid(10, 7)

  /** Default pixel size of one card image. */
  const RESOLUTION := Grids.Grid(429, 600)

  const CARD_BACK_URL := "http://cloud-3.steamusercontent.com/ugc/948455238665576576/85063172B8C340602E8D6C783A457122F53F7843/"

  /** CIRCLED LATIN CAPITAL LETTER A and NEGATIVE CIRCLED LATIN CAPITAL LETTER A. */
  const LETTER_BASE := 0x24B6
  const NEGATIVE_LETTER_BASE := 0x1F150
  /** CIRCLED DIGIT ZERO and NEGATIVE CIRCLED DIGIT ZERO. */
  const ZERO_BASE := 0x24EA
  const NEGATIVE_ZERO_BASE := 0x1F10C
  /** CIRCLED DIGIT ONE and DINGBAT NEGATIVE CIRCLED SANS-SERIF DIGIT ONE. */
  const DIGIT_BASE := 0x2460
  const NEGATIVE_DIGIT_BASE := 0x278A

  /** `encircle_symbol(symbol, negative)` */
  function EncircleSymbol(symbol: string, negative: bool): (r: Result<char>)
    ensures symbol == [] ==> r.Err?
  {
    if symbol == [] then Err("IndexError: string index out of range")
    else
      var s := UpperChar(symbol[0]);
      if IsLetter(s) then
        Ok(((if negative then NEGATIVE_LETTER_BASE else LETTER_BASE) + (s as int - 'A' as int)) as char)
      else if s == '0' then
        Ok((if negative then NEGATIVE_ZERO_BASE else ZERO_BASE) as char)
      else if IsDigit(s) then
        Ok(((if negative then NEGATIVE_DIGIT_BASE else DIGIT_BASE) + (s as int - '1' as int)) as char)
      else Err("TypeError: ord() expected a character, but string of length 0 found")
  }

  /** Only the first character is read, and its case does not matter. */
  lemma FirstCharOnly(symbol: string, rest: string, negative: bool)
    requires symbol != []
    ensures EncircleSymbol(symbol, negative) == EncircleSymbol([UpperChar(symbol[0])] + rest, negative)
    ensures EncircleSymbol(symbol, negative) == EncircleSymbol([LowerChar(symbol[0])], negative)
  {
  }

  /** Letter k of the alphabet is the table base plus k, and `negative` picks the other table. */
  lemma EncircleLetter(c: char, negative: bool)
    requires 'A' <= c <= 'Z'
    ensures EncircleSymbol([c], negative)
         == Ok(((if negative then 0x1F150 else 0x24B6) + (c as int - 'A' as int)) as char)
  {
  }

  /** "0" maps to exactly its base code point. */
  lemma EncircleZero(negative: bool)
    ensures EncircleSymbol("0", negative) == Ok((if negative then 0x1F10C else 0x24EA) as char)
  {
  }

  /** A digit d from 1 to 9 maps to base + (d - 1). */
  lemma EncircleDigit(c: char, negative: bool)
    requires '1' <= c <= '9'
    ensures EncircleSymbol([c], negative)
         == Ok(((if negative then 0x278A else 0x2460) + (c as int - '1' as int)) as char)
  {
  }

  /** Any other first character leaves the bases empty, and `ord("")` fails. */
  lemma EncircleOtherFails(symbol: string, negative: bool)
    requires symbol != [] && !IsLetter(symbol[0]) && !IsDigit(symbol[0])
    ensures EncircleSymbol(symbol, negative).Err?
  {
  }

  /**
   * Encircling is injective on the symbols it accepts: two inputs with the
   * same result agree on their upper-cased first character and on `negative`.
   */
  lemma EncircleInjective(s: string, t: string, m: bool, n: bool)
    requires EncircleSymbol(s, m).Ok? && EncircleSymbol(s, m) == EncircleSymbol(t, n)
    ensures UpperChar(s[0]) == UpperChar(t[0]) && m == n
  {
    var a, b := UpperChar(s[0]), UpperChar(t[0]);
    var r := EncircleSymbol(s, m).value as int;
    assert r == EncircleSymbol(t, n).value as int;
  }

  /** With the default grid every slot number, the back's included, is below 100. */
  lemma GridSlotsBelowHundred()
    ensures Grids.Capacity(GRID) == 69
    ensures Grids.Capacity(GRID) < 100
  {
  }
}
