/** What the parts of a string literal stand for, on any text, and what %q
    writes. */
module QuoteLaws {
  import opened Quote

  /** The characters of s as bytes. */
  function Ascii(s: string): Bytes
    requires forall i :: 0 <= i < |s| ==> s[i] as int < 256
  {
    seq(|s|, i requires 0 <= i < |s| => s[i] as int)
  }

  /** The literal goes on at q, with one more character c. */
  predicate StandsFor(inp: Bytes, p: nat, q: nat, c: int, del: int, line: nat, acc: Bytes) {
    Scan(inp, p, del, line, acc) == Scan(inp, q, del, line, acc + [c])
  }

  predicate Delimiter(del: int) {
    del == '"' as int || del == '\'' as int
  }

  /** In the order of the character codes 7 to 13. */
  const LETTERS := "abtnvfr"

  lemma Letters(inp: Bytes, p: nat, k: nat, del: int, line: nat, acc: Bytes)
    requires p + 1 < |inp| && inp[p] == '\\' as int && k < |LETTERS| && inp[p + 1] == LETTERS[k] as int
    requires Delimiter(del)
    ensures StandsFor(inp, p, p + 2, 7 + k, del, line, acc)
  {
  }

  /** Any other character that is no digit and no line break stands for itself
      after a backslash, the delimiters and the backslash too. */
  lemma Others(inp: Bytes, p: nat, del: int, line: nat, acc: Bytes)
    requires p + 1 < |inp| && inp[p] == '\\' as int && Delimiter(del)
    requires var c := inp[p + 1];
             !('0' as int <= c <= '9' as int) && c != 10 && c != 13
             && forall k :: 0 <= k < |LETTERS| ==> c != LETTERS[k] as int
    ensures StandsFor(inp, p, p + 2, inp[p + 1], del, line, acc)
  {
    var c := inp[p + 1];
    assert c != LETTERS[0] as int && c != LETTERS[1] as int && c != LETTERS[2] as int && c != LETTERS[3] as int;
    assert c != LETTERS[4] as int && c != LETTERS[5] as int && c != LETTERS[6] as int;
  }

  predicate DigitAt(inp: Bytes, p: nat) {
    p < |inp| && '0' as int <= inp[p] <= '9' as int
  }

  function Digit(inp: Bytes, p: nat): int
    requires p < |inp|
  {
    inp[p] - '0' as int
  }

  /** Up to three decimal digits are a character code, if it is at most 255. */
  lemma Codes(inp: Bytes, p: nat, del: int, line: nat, acc: Bytes)
    requires p < |inp| && inp[p] == '\\' as int && DigitAt(inp, p + 1) && Delimiter(del)
    ensures !DigitAt(inp, p + 2) ==> StandsFor(inp, p, p + 2, Digit(inp, p + 1), del, line, acc)
    ensures DigitAt(inp, p + 2) && !DigitAt(inp, p + 3) ==>
              StandsFor(inp, p, p + 3, 10 * Digit(inp, p + 1) + Digit(inp, p + 2), del, line, acc)
    ensures DigitAt(inp, p + 2) && DigitAt(inp, p + 3) ==>
              var c := 100 * Digit(inp, p + 1) + 10 * Digit(inp, p + 2) + Digit(inp, p + 3);
              if c <= 255 then StandsFor(inp, p, p + 4, c, del, line, acc)
              else Scan(inp, p, del, line, acc) == TooLarge
  {
    var q := p + 1;
    assert Decimal(inp, q, q + 1) == Digit(inp, q);
    if DigitAt(inp, q + 1) {
      assert Decimal(inp, q, q + 2) == 10 * Digit(inp, q) + Digit(inp, q + 1);
      if DigitAt(inp, q + 2) {
        assert Decimal(inp, q, q + 3) == 10 * Decimal(inp, q, q + 2) + Digit(inp, q + 2);
        assert DigitsEnd(inp, q + 2, 1) == q + 3;
      }
      assert DigitsEnd(inp, q + 1, 2) == if DigitAt(inp, q + 2) then q + 3 else q + 2;
    }
    assert DigitsEnd(inp, q, 3) == if !DigitAt(inp, q + 1) then q + 1 else DigitsEnd(inp, q + 1, 2);
  }

  /** A line break after a backslash is a newline and counts one line; "\r\n"
      and "\n\r" are one break, "\n\n" are two. */
  lemma Breaks(inp: Bytes, p: nat, del: int, line: nat, acc: Bytes)
    requires p + 1 < |inp| && inp[p] == '\\' as int && (inp[p + 1] == 10 || inp[p + 1] == 13) && Delimiter(del)
    requires line < 0x7FFF_FFFC
    ensures var pair := p + 2 < |inp| && (inp[p + 2] == 10 || inp[p + 2] == 13) && inp[p + 2] != inp[p + 1];
            Scan(inp, p, del, line, acc) == Scan(inp, if pair then p + 3 else p + 2, del, line + 1, acc + [10])
  {
  }

  /** Outside of escapes a character stands for itself, the delimiter ends the
      literal, and a line break or the end of the text is an error. */
  lemma Plain(inp: Bytes, p: nat, del: int, line: nat, acc: Bytes)
    requires p <= |inp| && Delimiter(del)
    ensures p < |inp| && inp[p] == del ==> Scan(inp, p, del, line, acc) == Lexed.Ok(acc, p + 1, line)
    ensures p == |inp| || inp[p] == 10 || inp[p] == 13 ==> Scan(inp, p, del, line, acc) == Unfinished
    ensures p < |inp| && inp[p] != del && inp[p] != 10 && inp[p] != 13 && inp[p] != '\\' as int ==>
              StandsFor(inp, p, p + 1, inp[p], del, line, acc)
  {
  }

  /** `'\065\n"'` is A, a newline and a quote. */
  lemma ReadsLiteral(line: nat)
    ensures Scan(Ascii("'\\065\\n\"'"), 1, '\'' as int, line, []) == Lexed.Ok([65, 10, 34], 9, line)
  {
    hide Scan, Ascii;
    var inp, del := [39, 92, 48, 54, 53, 92, 110, 34, 39], 39;
    LiteralBytes();
    Codes(inp, 1, del, line, []);
    assert DigitAt(inp, 2) && DigitAt(inp, 3) && DigitAt(inp, 4);
    LiteralEnds(inp, line);
    assert [] + [65] == [65];
  }

  lemma LiteralBytes()
    ensures Ascii("'\\065\\n\"'") == [39, 92, 48, 54, 53, 92, 110, 34, 39]
  {
  }

  lemma LiteralEnds(inp: Bytes, line: nat)
    requires inp == [39, 92, 48, 54, 53, 92, 110, 34, 39]
    ensures Scan(inp, 5, 39, line, [65]) == Lexed.Ok([65, 10, 34], 9, line)
  {
    hide Scan;
    assert LETTERS[3] == 'n';
    Letters(inp, 5, 3, 39, line, [65]);
    Plain(inp, 7, 39, line, [65] + [10]);
    Plain(inp, 8, 39, line, [65] + [10] + [34]);
    assert [65] + [10] + [34] == [65, 10, 34];
  }

  /** What %q writes for each character. */
  lemma QuotedIs(c: int)
    ensures QuotedChar('"' as int) == Ascii("\\\"") && QuotedChar('\\' as int) == Ascii("\\\\")
    ensures QuotedChar(10) == Ascii("\\\n") && QuotedChar(13) == Ascii("\\r") && QuotedChar(0) == Ascii("\\000")
    ensures c != '"' as int && c != '\\' as int && c != 10 && c != 13 && c != 0 ==> QuotedChar(c) == [c]
  {
  }

  /** A text without special characters is put between quotes. */
  lemma {:induction false} QuotedPlain(s: Bytes)
    requires forall c :: c in s ==> c != '"' as int && c != '\\' as int && c != 10 && c != 13 && c != 0
    ensures Quoted(s) == ['"' as int] + s + ['"' as int]
  {
    PlainChars(s);
  }

  lemma {:induction false} PlainChars(s: Bytes)
    requires forall c :: c in s ==> c != '"' as int && c != '\\' as int && c != 10 && c != 13 && c != 0
    ensures QuotedChars(s) == s
  {
    if s != [] {
      assert s[0] in s && s == [s[0]] + s[1..];
      assert forall c :: c in s[1..] ==> c in s;
      PlainChars(s[1..]);
    }
  }
}
