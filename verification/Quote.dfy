/** string.format("%q") and the reader of string literals. */
module Quote {

  const BELL := 7
  const BACKSPACE := 8
  const TAB := 9
  const NEWLINE := 10
  const VTAB := 11
  const FORMFEED := 12
  const RETURN := 13
  const QUOTE := 34
  const ZERO := 48
  const NINE := 57
  const BACKSLASH := 92
  const MAX_INT := 0x7FFF_FFFD

  type Bytes = seq<int>

  predicate AreBytes(s: Bytes) {
    forall i :: 0 <= i < |s| ==> 0 <= s[i] < 256
  }

  // ---------------------------------------------------------------------
  // Writing

  /** What addquoted writes for one character. */
  function QuotedChar(c: int): Bytes {
    if c == QUOTE || c == BACKSLASH || c == NEWLINE then [BACKSLASH, c]
    else if c == RETURN then [BACKSLASH, 114]
    else if c == 0 then [BACKSLASH, ZERO, ZERO, ZERO]
    else [c]
  }

  function QuotedChars(s: Bytes): Bytes {
    if s == [] then [] else QuotedChar(s[0]) + QuotedChars(s[1..])
  }

  function Quoted(s: Bytes): Bytes {
    [QUOTE] + QuotedChars(s) + [QUOTE]
  }

  /** addquoted */
  method AddQuoted(s: Bytes) returns (b: Bytes)
    ensures b == Quoted(s)
  {
    b := [QUOTE];
    var i := 0;
    assert s[0..] == s;
    while i < |s|
      invariant i <= |s| && [QUOTE] + QuotedChars(s) == b + QuotedChars(s[i..])
    {
      QuotedFirst(s, i);
      hide QuotedChars;
      ghost var b0 := b;
      var c := s[i];
      if c == QUOTE || c == BACKSLASH || c == NEWLINE {
        b := b + [BACKSLASH, c];
      } else if c == RETURN {
        b := b + [BACKSLASH, 114];
      } else if c == 0 {
        b := b + [BACKSLASH, ZERO, ZERO, ZERO];
      } else {
        b := b + [c];
      }
      assert b == b0 + QuotedChar(c);
      Assoc(b0, QuotedChar(c), QuotedChars(s[i + 1..]));
      i := i + 1;
    }
    b := b + [QUOTE];
  }

  lemma QuotedFirst(s: Bytes, i: nat)
    requires i < |s|
    ensures QuotedChars(s[i..]) == QuotedChar(s[i]) + QuotedChars(s[i + 1..])
  {
    assert s[i..][1..] == s[i + 1..];
  }

  lemma Assoc(a: Bytes, b: Bytes, c: Bytes)
    ensures a + (b + c) == a + b + c
  {
  }

  // ---------------------------------------------------------------------
  // Reading

  datatype Lexed = Ok(s: Bytes, pos: nat, line: nat) | Unfinished | TooLarge | TooManyLines

  predicate IsDigit(c: int) {
    ZERO <= c <= NINE
  }

  predicate IsNewline(c: int) {
    c == NEWLINE || c == RETURN
  }

  /** The character that a letter stands for after a backslash, or -1. */
  function Escape(c: int): int {
    if c == 97 then BELL else if c == 98 then BACKSPACE else if c == 102 then FORMFEED else if c == 110 then NEWLINE
    else if c == 114 then RETURN else if c == 116 then TAB else if c == 118 then VTAB else -1
  }

  /** The end of at most n digits from p on. */
  function DigitsEnd(inp: Bytes, p: nat, n: nat): (e: nat)
    ensures p <= e && (p <= |inp| ==> e <= |inp|) && (n > 0 && p < |inp| && IsDigit(inp[p]) ==> e > p)
    decreases n
  {
    if n > 0 && p < |inp| && IsDigit(inp[p]) then DigitsEnd(inp, p + 1, n - 1) else p
  }

  function Decimal(inp: Bytes, p: nat, e: nat): int
    requires p <= e <= |inp|
    decreases e
  {
    if p == e then 0 else 10 * Decimal(inp, p, e - 1) + (inp[e - 1] - ZERO)
  }

  /** inclinenumber: the position after a line break. */
  function AfterBreak(inp: Bytes, p: nat): (e: nat)
    requires p < |inp|
    ensures p < e <= |inp|
  {
    if p + 1 < |inp| && IsNewline(inp[p + 1]) && inp[p + 1] != inp[p] then p + 2 else p + 1
  }

  /** What a literal that goes on at position p stands for. */
  function Scan(inp: Bytes, p: nat, del: int, line: nat, acc: Bytes): Lexed
    decreases |inp| - p
  {
    if p >= |inp| then Unfinished
    else if inp[p] == del then Ok(acc, p + 1, line)
    else if IsNewline(inp[p]) then Unfinished
    else if inp[p] != BACKSLASH then Scan(inp, p + 1, del, line, acc + [inp[p]])
    else if p + 1 >= |inp| then Unfinished
    else
      var c := inp[p + 1];
      if Escape(c) >= 0 then Scan(inp, p + 2, del, line, acc + [Escape(c)])
      else if IsNewline(c) then
        (if line + 1 >= MAX_INT then TooManyLines
         else Scan(inp, AfterBreak(inp, p + 1), del, line + 1, acc + [NEWLINE]))
      else if !IsDigit(c) then Scan(inp, p + 2, del, line, acc + [c])
      else
        var e := DigitsEnd(inp, p + 1, 3);
        if Decimal(inp, p + 1, e) > 255 then TooLarge else Scan(inp, e, del, line, acc + [Decimal(inp, p + 1, e)])
  }

  class LexState {
    const inp: Bytes
    var pos: nat
    var linenumber: nat
    var buff: Bytes

    constructor (inp: Bytes, pos: nat, linenumber: nat)
      ensures this.inp == inp && this.pos == pos && this.linenumber == linenumber && buff == []
    {
      this.inp, this.pos, this.linenumber, buff := inp, pos, linenumber, [];
    }

    /** The current character; -1 is EOZ. */
    function Current(): int
      reads this`pos
    {
      if pos < |inp| then inp[pos] else -1
    }

    /** The digits of an escape such as \065. */
    method ReadDecimal() returns (c: int)
      requires pos < |inp| && IsDigit(inp[pos])
      modifies this`pos
      ensures pos == DigitsEnd(inp, old(pos), 3) && c == Decimal(inp, old(pos), pos)
    {
      var i := 0;
      c := 0;
      ghost var p := pos;
      while i < 3 && IsDigit(Current())
        invariant i <= 3 && p <= pos <= |inp| && c == Decimal(inp, p, pos)
                  && DigitsEnd(inp, p, 3) == DigitsEnd(inp, pos, 3 - i)
      {
        c := 10 * c + (Current() - ZERO);
        pos := pos + 1;
        i := i + 1;
      }
    }

    /** The escape sequences of read_string: ok, or the error. */
    method ReadEscape(del: int) returns (ok: bool, err: Lexed)
      requires pos < |inp| && AreBytes(inp) && inp[pos] == BACKSLASH && del != BACKSLASH && |buff| > 0
      modifies this
      ensures |buff| > 0 && old(pos) < pos && (!ok ==> !err.Ok?)
      ensures Scan(inp, old(pos), del, old(linenumber), old(buff)[1..]) ==
              if ok then Scan(inp, pos, del, linenumber, buff[1..]) else err
    {
      ghost var b := buff[1..];
      pos := pos + 1;
      var d := Current();
      if d == -1 { return false, Unfinished; }
      if Escape(d) >= 0 {
        buff := buff + [Escape(d)];
        pos := pos + 1;
        assert buff[1..] == b + [Escape(d)];
      } else if IsNewline(d) {
        buff := buff + [NEWLINE];
        assert buff[1..] == b + [NEWLINE];
        pos := pos + 1;
        if IsNewline(Current()) && Current() != d { pos := pos + 1; }
        linenumber := linenumber + 1;
        if linenumber >= MAX_INT { return false, TooManyLines; }
      } else if !IsDigit(d) {
        buff := buff + [d];
        pos := pos + 1;
        assert buff[1..] == b + [d];
      } else {
        var v := ReadDecimal();
        if v > 255 { return false, TooLarge; }
        buff := buff + [v];
        assert buff[1..] == b + [v];
      }
      return true, Unfinished;
    }

    /** read_string, with the current character at the opening delimiter. */
    method ReadString(del: int) returns (r: Lexed)
      requires pos < |inp| && AreBytes(inp) && 0 <= del
      modifies this
      ensures r == Scan(inp, old(pos) + 1, del, old(linenumber), [])
      ensures r.Ok? ==> pos == r.pos && linenumber == r.line
    {
      ghost var p0, l0 := pos, linenumber;
      buff := [Current()];
      pos := pos + 1;
      assert buff[1..] == [];
      while Current() != del
        invariant |buff| > 0 && Scan(inp, p0 + 1, del, l0, []) == Scan(inp, pos, del, linenumber, buff[1..])
        decreases |inp| - pos
      {
        ghost var b := buff[1..];
        var c := Current();
        if c == -1 || IsNewline(c) { return Unfinished; }
        if c == BACKSLASH {
          var ok, err := ReadEscape(del);
          if !ok { return err; }
        } else {
          buff := buff + [c];
          pos := pos + 1;
          assert buff[1..] == b + [c];
        }
      }
      buff := buff + [del];
      pos := pos + 1;
      assert buff[1..|buff| - 1] == buff[..|buff| - 1][1..];
      return Ok(buff[1..|buff| - 1], pos, linenumber);
    }
  }

  // ---------------------------------------------------------------------
  // The round trip

  function Lines(s: Bytes): nat {
    if s == [] then 0 else (if s[0] == NEWLINE then 1 else 0) + Lines(s[1..])
  }

  /** Reading one quoted character. */
  lemma ScanChar(inp: Bytes, p: nat, c: int, line: nat, acc: Bytes)
    requires 0 <= c < 256 && p + |QuotedChar(c)| < |inp| && inp[p..p + |QuotedChar(c)|] == QuotedChar(c)
    requires c == NEWLINE ==> line + 1 < MAX_INT && inp[p + 2] != RETURN
    ensures Scan(inp, p, QUOTE, line, acc) ==
            Scan(inp, p + |QuotedChar(c)|, QUOTE, line + (if c == NEWLINE then 1 else 0), acc + [c])
  {
    var q := inp[p..p + |QuotedChar(c)|];
    assert inp[p] == q[0];
    if |q| > 1 { assert inp[p + 1] == q[1]; }
    if c == 0 {
      assert inp[p + 2] == q[2] && inp[p + 3] == q[3];
      ThreeZeros(inp, p + 1);
    }
  }

  lemma ThreeZeros(inp: Bytes, p: nat)
    requires p + 3 <= |inp| && inp[p] == inp[p + 1] == inp[p + 2] == ZERO
    ensures DigitsEnd(inp, p, 3) == p + 3 && Decimal(inp, p, p + 3) == 0
  {
    assert DigitsEnd(inp, p + 2, 1) == p + 3;
    assert DigitsEnd(inp, p + 1, 2) == p + 3;
    assert Decimal(inp, p, p + 1) == 0;
    assert Decimal(inp, p, p + 2) == 0;
  }

  /** No quoted text begins with a carriage return. */
  lemma FirstQuoted(s: Bytes, rest: Bytes)
    ensures |QuotedChars(s) + [QUOTE] + rest| > 0 && (QuotedChars(s) + [QUOTE] + rest)[0] != RETURN
  {
  }

  lemma {:induction false} ScanQuoted(inp: Bytes, p: nat, s: Bytes, rest: Bytes, line: nat, acc: Bytes)
    requires AreBytes(s) && p <= |inp| && inp[p..] == QuotedChars(s) + [QUOTE] + rest && line + Lines(s) < MAX_INT
    ensures Scan(inp, p, QUOTE, line, acc) == Ok(acc + s, p + |QuotedChars(s)| + 1, line + Lines(s))
    decreases |s|
  {
    hide Scan, QuotedChars, QuotedChar, Lines, AreBytes;
    if s == [] {
      ScanEnd(inp, p, rest, line, acc);
      assert acc + s == acc;
    } else {
      var c, q := s[0], QuotedChar(s[0]);
      var t := QuotedChars(s[1..]) + [QUOTE] + rest;
      QuotedRest(s, rest);
      Parts(inp, p, q, t);
      FirstQuoted(s[1..], rest);
      QuotedLen(s);
      BytesTail(s);
      ScanChar(inp, p, c, line, acc);
      ScanQuoted(inp, p + |q|, s[1..], rest, line + (if c == NEWLINE then 1 else 0), acc + [c]);
      assert acc + [c] + s[1..] == acc + s;
    }
  }

  lemma ScanEnd(inp: Bytes, p: nat, rest: Bytes, line: nat, acc: Bytes)
    requires p <= |inp| && inp[p..] == QuotedChars([]) + [QUOTE] + rest
    ensures Scan(inp, p, QUOTE, line, acc) == Ok(acc, p + 1, line) && QuotedChars([]) == [] && Lines([]) == 0
  {
    assert inp[p..][0] == QUOTE;
  }

  lemma QuotedRest(s: Bytes, rest: Bytes)
    requires s != []
    ensures QuotedChars(s) + [QUOTE] + rest == QuotedChar(s[0]) + (QuotedChars(s[1..]) + [QUOTE] + rest)
    ensures |QuotedChars(s[1..]) + [QUOTE] + rest| > 0
  {
  }

  lemma BytesTail(s: Bytes)
    requires s != [] && AreBytes(s)
    ensures 0 <= s[0] < 256 && AreBytes(s[1..])
  {
  }

  lemma QuotedLen(s: Bytes)
    requires s != []
    ensures |QuotedChars(s)| == |QuotedChar(s[0])| + |QuotedChars(s[1..])|
              && (s[0] == NEWLINE ==> |QuotedChar(s[0])| == 2)
    ensures Lines(s) == (if s[0] == NEWLINE then 1 else 0) + Lines(s[1..])
  {
  }

  lemma Parts(inp: Bytes, p: nat, q: Bytes, t: Bytes)
    requires p <= |inp| && inp[p..] == q + t && |t| > 0
    ensures p + |q| < |inp| && inp[p..p + |q|] == q && inp[p + |q|..] == t && inp[p + |q|] == t[0]
  {
    assert inp[p..p + |q|] == inp[p..][..|q|];
    assert inp[p + |q|..] == inp[p..][|q|..];
  }

  /** Reading back what %q wrote gives the string, and stops right after the
      closing quote. */
  lemma QuoteTrip(s: Bytes, rest: Bytes, line: nat)
    requires AreBytes(s) && line + Lines(s) < MAX_INT
    ensures Scan(Quoted(s) + rest, 1, QUOTE, line, []) == Ok(s, |Quoted(s)|, line + Lines(s))
  {
    var inp := Quoted(s) + rest;
    assert inp[1..] == QuotedChars(s) + [QUOTE] + rest;
    ScanQuoted(inp, 1, s, rest, line, []);
    assert [] + s == s;
  }
}
