/** The bytes of messages, one by one. */
module CodecLaws {
  import opened Codec
  import opened Message

  /** A boolean is one byte. */
  lemma BoolByte(b: bool)
    ensures Encode(Bool(b)) == [if b then 1 else 0]
  {
  }

  /** Integers have their most significant byte first, and negative ones are in
      two's complement. */
  lemma IntBytes(v: int)
    ensures BigEndian(v, 1) == [v % 0x100] && BigEndian(v, 2) == [v / 0x100 % 0x100, v % 0x100]
    ensures BigEndian(v, 4) == [v / 0x100_0000 % 0x100, v / 0x1_0000 % 0x100, v / 0x100 % 0x100, v % 0x100]
  {
    hide BigEndian;
    Powers();
    hide Pow256;
    BigEndianDigit(v, 1, 0);
    BigEndianDigit(v, 2, 0);
    BigEndianDigit(v, 2, 1);
    BigEndianDigit(v, 4, 0);
    BigEndianDigit(v, 4, 1);
    BigEndianDigit(v, 4, 2);
    BigEndianDigit(v, 4, 3);
  }

  lemma NegativeBytes()
    ensures BigEndian(-1, 4) == [0xFF, 0xFF, 0xFF, 0xFF] && BigEndian(-2, 2) == [0xFF, 0xFE]
  {
    hide BigEndian;
    IntBytes(-1);
    IntBytes(-2);
  }

  lemma Powers()
    ensures Pow256(0) == 1 && Pow256(1) == 0x100 && Pow256(2) == 0x1_0000 && Pow256(3) == 0x100_0000
  {
  }

  /** What is read from two and from four bytes. */
  lemma NumberIs(a: Byte, b: Byte, c: Byte, d: Byte)
    ensures Number([a, b]) == 0x100 * a + b && Number([a, b, c, d]) == 0x100_0000 * a + 0x1_0000 * b + 0x100 * c + d
    ensures Signed(Number([a, b]), 2) == if a >= 0x80 then 0x100 * a + b - 0x1_0000 else 0x100 * a + b
  {
    hide Number;
    NumberStep([], a);
    NumberStep([a], b);
    NumberStep([a, b], c);
    NumberStep([a, b, c], d);
    assert [] + [a] == [a] && [a] + [b] == [a, b] && [a, b] + [c] == [a, b, c] && [a, b, c] + [d] == [a, b, c, d];
    NoNumber();
    Powers();
  }

  lemma NumberStep(s: seq<Byte>, b: Byte)
    ensures Number(s + [b]) == 0x100 * Number(s) + b
  {
    assert (s + [b])[..|s|] == s;
  }

  lemma NoNumber()
    ensures Number([]) == 0
  {
  }

  /** A string has four bytes with its length before it, other data none. */
  lemma TextBytes(s: seq<Byte>)
    requires |s| < 0x8000_0000
    ensures Encode(Text(s)) == [|s| / 0x100_0000, |s| / 0x1_0000 % 0x100, |s| / 0x100 % 0x100, |s| % 0x100] + s
    ensures Encode(Raw(s)) == s
  {
    hide BigEndian;
    IntBytes(|s|);
  }

  /** The frame of a payload: two bytes with the length up to 65534; from 65535
      on, two bytes 255 and then four bytes with the length. */
  lemma FrameBytes(p: seq<Byte>)
    requires |p| < 0x8000_0000
    ensures |p| < 65535 ==> Frame(p) == [|p| / 0x100, |p| % 0x100] + p
    ensures |p| >= 65535 ==>
              Frame(p) == [255, 255, |p| / 0x100_0000, |p| / 0x1_0000 % 0x100, |p| / 0x100 % 0x100, |p| % 0x100] + p
  {
    hide BigEndian;
    IntBytes(|p|);
  }

  /** Fields follow one another without gaps. */
  lemma FieldsFollow(fs: seq<Field>, f: Field)
    ensures EncodeAll([]) == [] && EncodeAll(fs + [f]) == EncodeAll(fs) + Encode(f)
  {
    assert (fs + [f])[..|fs|] == fs;
  }
}
