/** The ASCII character classes of Core/Extensions/CharExtensions.cs, plus the ASCII stand-ins used for
  * the runtime's culture-aware char.IsWhiteSpace, char.IsUpper and char.ToLower. */
module CharClass {
  /** `(uint)(ch - '0') <= '9' - '0'`: the subtraction wraps to 32 bits before the comparison. */
  predicate IsAsciiDigit(ch: char)
  {
    (ch as int - '0' as int) % 0x1_0000_0000 <= 9
  }

  predicate IsAsciiLetterLower(ch: char) { 'a' <= ch <= 'z' }

  predicate IsAsciiLetterUpper(ch: char) { 'A' <= ch <= 'Z' }

  /** `(ushort)ch < 128`. */
  predicate IsAscii(ch: char) { (ch as int) < 128 }

  predicate IsAsciiLetter(ch: char) { ('a' <= ch <= 'z') || ('A' <= ch <= 'Z') }

  lemma AsciiDigitRange(ch: char)
    ensures IsAsciiDigit(ch) <==> '0' <= ch <= '9'
  {
    if ch < '0' {
      assert 0 < '0' as int - ch as int <= '0' as int;
      assert (ch as int - '0' as int) % 0x1_0000_0000 == 0x1_0000_0000 + (ch as int - '0' as int);
    }
  }

  lemma AsciiLetterIsLowerOrUpper(ch: char)
    ensures IsAsciiLetter(ch) <==> IsAsciiLetterLower(ch) || IsAsciiLetterUpper(ch)
  {
  }

  lemma DigitsAndLettersAreAscii(ch: char)
    ensures IsAsciiDigit(ch) || IsAsciiLetter(ch) ==> IsAscii(ch)
  {
    AsciiDigitRange(ch);
  }

  /** ASCII stand-in for char.IsWhiteSpace: space, tab, line feed, vertical tab, form feed, carriage return. */
  predicate IsWhiteSpace(ch: char)
  {
    ch == ' ' || ch == '\t' || ch == '\n' || ch == '\r' || ch == 11 as char || ch == 12 as char
  }

  /** ASCII stand-in for char.IsUpper. */
  predicate IsUpper(ch: char) { IsAsciiLetterUpper(ch) }

  /** ASCII stand-in for char.IsLower. */
  predicate IsLower(ch: char) { IsAsciiLetterLower(ch) }

  /** ASCII stand-in for char.ToLower. */
  function ToLower(ch: char): (r: char)
    ensures IsAsciiLetterUpper(ch) ==> IsAsciiLetterLower(r) && r as int == ch as int + 32
    ensures !IsAsciiLetterUpper(ch) ==> r == ch
  {
    if IsAsciiLetterUpper(ch) then (ch as int + 32) as char else ch
  }

  /** ASCII stand-in for char.ToUpper. */
  function ToUpper(ch: char): (r: char)
    ensures IsAsciiLetterLower(ch) ==> IsAsciiLetterUpper(r) && r as int == ch as int - 32
    ensures !IsAsciiLetterLower(ch) ==> r == ch
  {
    if IsAsciiLetterLower(ch) then (ch as int - 32) as char else ch
  }
}
