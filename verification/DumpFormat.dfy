/** The format of precompiled chunks of Lua 5.1, as a list of pieces. */
module DumpFormat {
  import opened Options
  import opened Codec
  import opened Zio
  import opened DumpSpec
  import opened Dump

  /** A byte, an int, a size_t, or bytes as they are. */
  datatype Piece = U8(v: int) | I32(v: int) | Size(v: int) | Image(b: seq<Byte>)

  /** Numbers are written with the least significant byte first, or last. */
  function PieceBytes(x: Piece): seq<Byte> {
    match x
    case U8(v) => [v % 256]
    case I32(v) => IntImage(v, LITTLE)
    case Size(v) =>
      var low, high := IntImage(v, LITTLE), IntImage(v / 0x1_0000_0000, LITTLE);
      if LITTLE then low + high else high + low
    case Image(b) => b
  }

  function IntImage(v: int, little: bool): seq<Byte> {
    if little then [v % 256, v / 0x100 % 256, v / 0x1_0000 % 256, v / 0x100_0000 % 256]
    else [v / 0x100_0000 % 256, v / 0x1_0000 % 256, v / 0x100 % 256, v % 256]
  }

  function Bytes(xs: seq<Piece>): seq<Byte> {
    if xs == [] then [] else Bytes(xs[..|xs| - 1]) + PieceBytes(xs[|xs| - 1])
  }

  /** "\27Lua", version 5.1, the official format, 1 if the low byte is first,
      the sizes of int, size_t, an instruction and a number, and numbers are not
      integers. */
  function Header(): seq<Piece> {
    [U8(27), U8('L' as int), U8('u' as int), U8('a' as int), U8(0x51), U8(0), U8(if LITTLE then 1 else 0), U8(4),
     U8(8), U8(4), U8(8), U8(0)]
  }

  /** A string has its length with the closing zero before it; length zero is
      no string at all. */
  function TextPieces(s: Option<Text>): seq<Piece> {
    if s.None? then [Size(0)] else [Size(|s.value| + 1), Image(s.value), U8(0)]
  }

  /** Constants begin with their type: nil 0, boolean 1, number 3, string 4. */
  function ConstPieces(c: Const): seq<Piece> {
    match c
    case CNil => [U8(0)]
    case CBool(b) => [U8(1), U8(if b then 1 else 0)]
    case CNum(image) => [U8(3), Image(image)]
    case CStr(s) => [U8(4)] + TextPieces(s)
  }

  function LocVarPieces(v: LocVar): seq<Piece> {
    TextPieces(v.name) + [I32(v.startpc), I32(v.endpc)]
  }

  function Each<T>(v: seq<T>, pieces: T -> seq<Piece>): seq<Piece> {
    if v == [] then [] else pieces(v[0]) + Each(v[1..], pieces)
  }

  /** Lists have their length before them. */
  function List<T>(v: seq<T>, pieces: T -> seq<Piece>): seq<Piece> {
    [I32(|v|)] + Each(v, pieces)
  }

  function IntPieces(v: int): seq<Piece> {
    [I32(v)]
  }

  function DebugPieces(f: Proto, strip: bool): seq<Piece> {
    if strip then [I32(0), I32(0), I32(0)]
    else List(f.lineinfo, IntPieces) + List(f.locvars, LocVarPieces) + List(f.upvalues, TextPieces)
  }

  /** A function: a source that is the one of the enclosing function is not
      repeated. */
  function ProtoPieces(f: Proto, parent: Option<Text>, strip: bool): seq<Piece>
    decreases f, 1, 0
  {
    TextPieces(if strip || f.source == parent then None else f.source)
    + [I32(f.linedefined), I32(f.lastlinedefined), U8(f.nups), U8(f.numparams), U8(f.is_vararg), U8(f.maxstacksize)]
    + List(f.code, IntPieces) + List(f.k, ConstPieces) + [I32(|f.p|)] + NestedPieces(f, 0, strip)
    + DebugPieces(f, strip)
  }

  function NestedPieces(f: Proto, i: nat, strip: bool): seq<Piece>
    requires i <= |f.p|
    decreases f, 0, |f.p| - i
  {
    if i == |f.p| then [] else ProtoPieces(f.p[i], f.source, strip) + NestedPieces(f, i + 1, strip)
  }

  function ChunkPieces(f: Proto, strip: bool): seq<Piece> {
    Header() + ProtoPieces(f, None, strip)
  }

  // ---------------------------------------------------------------------
  // The dump has this format

  lemma {:induction false} BytesCat(xs: seq<Piece>, ys: seq<Piece>)
    ensures Bytes(xs + ys) == Bytes(xs) + Bytes(ys)
    decreases |ys|
  {
    hide PieceBytes;
    if ys == [] {
      assert xs + ys == xs;
    } else {
      var zs := ys[..|ys| - 1];
      assert (xs + ys)[..|xs + ys| - 1] == xs + zs;
      BytesCat(xs, zs);
    }
  }

  lemma BytesOne(x: Piece)
    ensures Bytes([x]) == PieceBytes(x)
  {
    assert [x][..0] == [];
  }

  lemma Digits(v: int)
    ensures PieceBytes(U8(v)) == BigEndian(v, 1) && PieceBytes(I32(v)) == Native(v, INT)
    ensures PieceBytes(Size(v)) == Native(v, SIZET)
  {
    hide BigEndian, IntImage, Reversed;
    FourBytes(v);
    EightBytes(v);
    OneByteIs(v);
  }

  lemma OneByteIs(v: int)
    ensures BigEndian(v, 1) == [v % 256]
  {
    assert BigEndian(v / 256, 0) == [];
  }

  lemma FourBytes(v: int)
    ensures IntImage(v, false) == BigEndian(v, 4) && IntImage(v, true) == Reversed(BigEndian(v, 4))
  {
    Powers();
    forall i | 0 <= i < 4 ensures IntImage(v, false)[i] == BigEndian(v, 4)[i] { BigEndianDigit(v, 4, i); }
  }

  lemma EightBytes(v: int)
    ensures IntImage(v / 0x1_0000_0000, false) + IntImage(v, false) == BigEndian(v, 8)
    ensures IntImage(v, true) + IntImage(v / 0x1_0000_0000, true) == Reversed(BigEndian(v, 8))
  {
    FourBytes(v);
    FourBytes(v / 0x1_0000_0000);
    Powers();
    BigEndianSplit(v, 4, 4);
    hide BigEndian, IntImage, Pow256;
    var a, b := BigEndian(v / 0x1_0000_0000, 4), BigEndian(v, 4);
    assert Reversed(a + b) == Reversed(b) + Reversed(a);
  }

  lemma Powers()
    ensures Pow256(0) == 1 && Pow256(1) == 0x100 && Pow256(2) == 0x1_0000 && Pow256(3) == 0x100_0000
    ensures Pow256(4) == 0x1_0000_0000 && Pow256(5) == 0x100_0000_0000 && Pow256(6) == 0x1_0000_0000_0000
    ensures Pow256(7) == 0x100_0000_0000_0000
  {
  }

  /** What the writing of one thing before the bytes `rest` comes to. */
  lemma IntIs(v: int, rest: seq<Byte>)
    ensures IntBytes(v, rest) == Bytes([I32(v)]) + rest && CharBytes(v, rest) == Bytes([U8(v)]) + rest
  {
    BytesOne(I32(v));
    BytesOne(U8(v));
    Digits(v);
  }

  lemma TextIs(s: Option<Text>, rest: seq<Byte>)
    ensures TextBytes(s, rest) == Bytes(TextPieces(s)) + rest
  {
    hide Native, PieceBytes;
    if s.None? {
      BytesOne(Size(0));
      Digits(0);
    } else {
      var n, t := Size(|s.value| + 1), s.value;
      Digits(|t| + 1);
      BytesOne(n);
      BytesOne(Image(t));
      BytesOne(U8(0));
      assert [n, Image(t), U8(0)] == [n] + ([Image(t)] + [U8(0)]);
      BytesCat([Image(t)], [U8(0)]);
      BytesCat([n], [Image(t)] + [U8(0)]);
      ZeroAndRaw(t);
      assert Native(|t| + 1, SIZET) + ((t + [0]) + rest) == Native(|t| + 1, SIZET) + (t + [0]) + rest;
    }
  }

  lemma ZeroAndRaw(t: Text)
    ensures PieceBytes(U8(0)) == [0] && PieceBytes(Image(t)) == t
  {
  }

  /** One thing after another. */
  lemma Then(a: seq<Piece>, b: seq<Piece>, rest: seq<Byte>)
    ensures Bytes(a) + (Bytes(b) + rest) == Bytes(a + b) + rest
  {
    BytesCat(a, b);
    assert Bytes(a) + (Bytes(b) + rest) == (Bytes(a) + Bytes(b)) + rest;
  }

  lemma NothingMore(rest: seq<Byte>)
    ensures Bytes([]) + rest == rest
  {
  }

  lemma ConstIs(c: Const, rest: seq<Byte>)
    ensures ConstBytes(c, rest) == Bytes(ConstPieces(c)) + rest
  {
    hide TextBytes, IntBytes, CharBytes, TextPieces, Bytes, PieceBytes;
    match c
    case CNil => IntIs(0, rest);
    case CBool(b) =>
      var v := if b then 1 else 0;
      IntIs(v, rest);
      IntIs(1, CharBytes(v, rest));
      Then([U8(1)], [U8(v)], rest);
      assert [U8(1)] + [U8(v)] == [U8(1), U8(v)];
    case CNum(image) =>
      IntIs(3, image + rest);
      ImageIs(image);
      Then([U8(3)], [Image(image)], rest);
      assert [U8(3)] + [Image(image)] == [U8(3), Image(image)];
    case CStr(s) =>
      TextIs(s, rest);
      IntIs(4, TextBytes(s, rest));
      Then([U8(4)], TextPieces(s), rest);
  }

  lemma ImageIs(b: seq<Byte>)
    ensures Bytes([Image(b)]) == b
  {
    BytesOne(Image(b));
  }

  lemma LocVarIs(v: LocVar, rest: seq<Byte>)
    ensures TextBytes(v.name, IntBytes(v.startpc, IntBytes(v.endpc, rest))) == Bytes(LocVarPieces(v)) + rest
  {
    hide TextBytes, IntBytes, TextPieces, Bytes;
    IntIs(v.endpc, rest);
    IntIs(v.startpc, IntBytes(v.endpc, rest));
    Then([I32(v.startpc)], [I32(v.endpc)], rest);
    assert [I32(v.startpc)] + [I32(v.endpc)] == [I32(v.startpc), I32(v.endpc)];
    TextIs(v.name, IntBytes(v.startpc, IntBytes(v.endpc, rest)));
    Then(TextPieces(v.name), [I32(v.startpc), I32(v.endpc)], rest);
  }

  // Lists, from element i on

  lemma EachNext<T>(v: seq<T>, i: nat, pieces: T -> seq<Piece>, rest: seq<Byte>)
    requires i < |v|
    ensures Bytes(Each(v[i..], pieces)) + rest == Bytes(pieces(v[i])) + (Bytes(Each(v[i + 1..], pieces)) + rest)
  {
    hide Bytes;
    assert v[i..][0] == v[i] && v[i..][1..] == v[i + 1..];
    Then(pieces(v[i]), Each(v[i + 1..], pieces), rest);
  }

  lemma EachDone<T>(v: seq<T>, pieces: T -> seq<Piece>, rest: seq<Byte>)
    ensures Bytes(Each(v[|v|..], pieces)) + rest == rest && v[0..] == v
  {
  }

  lemma {:induction false} IntsIs(v: seq<int>, i: nat, rest: seq<Byte>)
    requires i <= |v|
    ensures IntsBytes(v, i, rest) == Bytes(Each(v[i..], IntPieces)) + rest
    decreases |v| - i
  {
    hide IntBytes, Bytes;
    if i == |v| {
      EachDone(v, IntPieces, rest);
    } else {
      IntsIs(v, i + 1, rest);
      IntIs(v[i], IntsBytes(v, i + 1, rest));
      EachNext(v, i, IntPieces, rest);
    }
  }

  lemma {:induction false} TextsIs(v: seq<Option<Text>>, i: nat, rest: seq<Byte>)
    requires i <= |v|
    ensures TextsBytes(v, i, rest) == Bytes(Each(v[i..], TextPieces)) + rest
    decreases |v| - i
  {
    hide TextBytes, Bytes;
    if i == |v| {
      EachDone(v, TextPieces, rest);
    } else {
      TextsIs(v, i + 1, rest);
      TextIs(v[i], TextsBytes(v, i + 1, rest));
      EachNext(v, i, TextPieces, rest);
    }
  }

  lemma {:induction false} ConstsIs(v: seq<Const>, i: nat, rest: seq<Byte>)
    requires i <= |v|
    ensures ConstsBytes(v, i, rest) == Bytes(Each(v[i..], ConstPieces)) + rest
    decreases |v| - i
  {
    hide ConstBytes, Bytes;
    if i == |v| {
      EachDone(v, ConstPieces, rest);
    } else {
      ConstsIs(v, i + 1, rest);
      ConstIs(v[i], ConstsBytes(v, i + 1, rest));
      EachNext(v, i, ConstPieces, rest);
    }
  }

  lemma {:induction false} LocVarsIs(v: seq<LocVar>, i: nat, rest: seq<Byte>)
    requires i <= |v|
    ensures LocVarsBytes(v, i, rest) == Bytes(Each(v[i..], LocVarPieces)) + rest
    decreases |v| - i
  {
    hide TextBytes, IntBytes, Bytes;
    if i == |v| {
      EachDone(v, LocVarPieces, rest);
    } else {
      LocVarsIs(v, i + 1, rest);
      LocVarIs(v[i], LocVarsBytes(v, i + 1, rest));
      EachNext(v, i, LocVarPieces, rest);
    }
  }

  lemma ListIs<T>(v: seq<T>, pieces: T -> seq<Piece>, rest: seq<Byte>)
    ensures IntBytes(|v|, Bytes(Each(v, pieces)) + rest) == Bytes(List(v, pieces)) + rest
  {
    hide IntBytes, Bytes;
    IntIs(|v|, Bytes(Each(v, pieces)) + rest);
    Then([I32(|v|)], Each(v, pieces), rest);
  }

  lemma DebugIs(f: Proto, rest: seq<Byte>)
    ensures DebugBytes(f, false, rest) == Bytes(DebugPieces(f, false)) + rest
  {
    hide IntBytes, Bytes, IntsBytes, LocVarsBytes, TextsBytes, List, Each;
    var c := List(f.upvalues, TextPieces);
    var b := List(f.locvars, LocVarPieces);
    var a := List(f.lineinfo, IntPieces);
    TextsIs(f.upvalues, 0, rest);
    EachDone(f.upvalues, TextPieces, rest);
    ListIs(f.upvalues, TextPieces, rest);
    var r1 := Bytes(c) + rest;
    LocVarsIs(f.locvars, 0, r1);
    EachDone(f.locvars, LocVarPieces, rest);
    ListIs(f.locvars, LocVarPieces, r1);
    var r2 := Bytes(b) + r1;
    IntsIs(f.lineinfo, 0, r2);
    EachDone(f.lineinfo, IntPieces, rest);
    ListIs(f.lineinfo, IntPieces, r2);
    Then(b, c, rest);
    Then(a, b + c, rest);
    assert a + (b + c) == a + b + c;
  }

  lemma StrippedIs(f: Proto, rest: seq<Byte>)
    ensures DebugBytes(f, true, rest) == Bytes(DebugPieces(f, true)) + rest
  {
    hide IntBytes, Bytes;
    var z := [I32(0)];
    IntIs(0, rest);
    IntIs(0, IntBytes(0, rest));
    IntIs(0, IntBytes(0, IntBytes(0, rest)));
    Then(z, z, rest);
    Then(z, z + z, rest);
    assert z + (z + z) == [I32(0), I32(0), I32(0)];
  }

  /** The part of a function before its constants. */
  lemma FieldsIs(f: Proto, rest: seq<Byte>)
    ensures IntBytes(f.linedefined, IntBytes(f.lastlinedefined, CharBytes(f.nups, CharBytes(f.numparams,
              CharBytes(f.is_vararg, CharBytes(f.maxstacksize, rest)))))) ==
            Bytes([I32(f.linedefined), I32(f.lastlinedefined), U8(f.nups), U8(f.numparams), U8(f.is_vararg),
                   U8(f.maxstacksize)]) + rest
  {
    hide IntBytes, CharBytes, Bytes;
    var r5 := CharBytes(f.maxstacksize, rest);
    var r4 := CharBytes(f.is_vararg, r5);
    var r3 := CharBytes(f.numparams, r4);
    var r2 := CharBytes(f.nups, r3);
    var r1 := IntBytes(f.lastlinedefined, r2);
    IntIs(f.maxstacksize, rest);
    IntIs(f.is_vararg, r5);
    IntIs(f.numparams, r4);
    IntIs(f.nups, r3);
    IntIs(f.lastlinedefined, r2);
    IntIs(f.linedefined, r1);
    var p5, p4, p3 := [U8(f.maxstacksize)], [U8(f.is_vararg)], [U8(f.numparams)];
    var p2, p1, p0 := [U8(f.nups)], [I32(f.lastlinedefined)], [I32(f.linedefined)];
    Then(p4, p5, rest);
    Then(p3, p4 + p5, rest);
    Then(p2, p3 + (p4 + p5), rest);
    Then(p1, p2 + (p3 + (p4 + p5)), rest);
    Then(p0, p1 + (p2 + (p3 + (p4 + p5))), rest);
    assert p0 + (p1 + (p2 + (p3 + (p4 + p5)))) ==
           [I32(f.linedefined), I32(f.lastlinedefined),
            U8(f.nups), U8(f.numparams), U8(f.is_vararg), U8(f.maxstacksize)];
  }

  lemma {:induction false} ProtoIs(f: Proto, parent: Option<Text>, strip: bool, rest: seq<Byte>)
    ensures ProtoBytes(f, parent, strip, rest) == Bytes(ProtoPieces(f, parent, strip)) + rest
    decreases f, 1, 0
  {
    hide IntBytes, CharBytes, TextBytes, IntsBytes, ConstsBytes, DebugBytes, Bytes, List, Each, DebugPieces, TextPieces;
    var source := TextPieces(if strip || f.source == parent then None else f.source);
    var fields := [I32(f.linedefined), I32(f.lastlinedefined), U8(f.nups), U8(f.numparams), U8(f.is_vararg),
                   U8(f.maxstacksize)];
    var code, k, n, p := List(f.code, IntPieces), List(f.k, ConstPieces), [I32(|f.p|)], NestedPieces(f, 0, strip);
    var debug := DebugPieces(f, strip);
    if strip { StrippedIs(f, rest); } else { DebugIs(f, rest); }
    NestedIs(f, 0, strip, DebugBytes(f, strip, rest));
    Then(p, debug, rest);
    IntIs(|f.p|, Bytes(p + debug) + rest);
    Then(n, p + debug, rest);
    var r3 := Bytes(n + (p + debug)) + rest;
    ConstsIs(f.k, 0, r3);
    EachDone(f.k, ConstPieces, rest);
    ListIs(f.k, ConstPieces, r3);
    Then(k, n + (p + debug), rest);
    var r2 := Bytes(k + (n + (p + debug))) + rest;
    IntsIs(f.code, 0, r2);
    EachDone(f.code, IntPieces, rest);
    ListIs(f.code, IntPieces, r2);
    Then(code, k + (n + (p + debug)), rest);
    var r1 := Bytes(code + (k + (n + (p + debug)))) + rest;
    FieldsIs(f, r1);
    Then(fields, code + (k + (n + (p + debug))), rest);
    TextIs(if strip || f.source == parent then None else f.source,
           Bytes(fields + (code + (k + (n + (p + debug))))) + rest);
    Then(source, fields + (code + (k + (n + (p + debug)))), rest);
    assert source + (fields + (code + (k + (n + (p + debug))))) == source + fields + code + k + n + p + debug;
  }

  lemma {:induction false} NestedIs(f: Proto, i: nat, strip: bool, rest: seq<Byte>)
    requires i <= |f.p|
    ensures NestedBytes(f, i, strip, rest) == Bytes(NestedPieces(f, i, strip)) + rest
    decreases f, 0, |f.p| - i
  {
    hide Bytes, ProtoBytes, ProtoPieces;
    if i == |f.p| {
      NothingMore(rest);
    } else {
      NestedIs(f, i + 1, strip, rest);
      ProtoIs(f.p[i], f.source, strip, NestedBytes(f, i + 1, strip, rest));
      Then(ProtoPieces(f.p[i], f.source, strip), NestedPieces(f, i + 1, strip), rest);
    }
  }

  lemma HeaderIs()
    ensures Bytes(Header()) == HEADER
  {
    SingleBytes(Header());
  }

  lemma {:induction false} SingleBytes(xs: seq<Piece>)
    requires forall i :: 0 <= i < |xs| ==> xs[i].U8? && 0 <= xs[i].v < 256
    ensures |Bytes(xs)| == |xs| && forall i :: 0 <= i < |xs| ==> Bytes(xs)[i] == xs[i].v
    decreases |xs|
  {
    if xs != [] { SingleBytes(xs[..|xs| - 1]); }
  }

  /** What luaU_dump writes, as pieces. */
  method Write(f: Proto, strip: bool) returns (b: seq<Byte>)
    ensures b == Bytes(ChunkPieces(f, strip))
    ensures |b| >= 12
    ensures b[..12] == [27, 'L' as int, 'u' as int, 'a' as int, 0x51, 0, if LITTLE then 1 else 0, 4, 8, 4, 8, 0]
  {
    hide ProtoBytes, ProtoPieces, Bytes;
    b := DumpChunk(f, strip);
    HeaderIs();
    ProtoIs(f, None, strip, []);
    BytesCat(Header(), ProtoPieces(f, None, strip));
    assert ProtoBytes(f, None, strip, []) == Bytes(ProtoPieces(f, None, strip));
  }

  /** luaU_undump reads what has this format. */
  method Read(chunks: seq<seq<Byte>>, check: Check, ghost f: Proto, ghost strip: bool) returns (r: Option<Proto>)
    requires Joined(chunks) == Bytes(ChunkPieces(f, strip)) && TreeOK(f, 0, check, UNKNOWN, strip)
    ensures r == Some(Loaded(f, UNKNOWN, strip))
  {
    hide ProtoBytes, ProtoPieces, Bytes, TreeOK, Loaded, Joined;
    HeaderIs();
    ProtoIs(f, None, strip, []);
    BytesCat(Header(), ProtoPieces(f, None, strip));
    assert ProtoBytes(f, None, strip, []) == Bytes(ProtoPieces(f, None, strip));
    r := Undump(chunks, check, f, strip);
  }

  /** The values that fit: an int, a char and a size_t. */
  lemma Ranges(v: int, t: Text)
    ensures IsInt(v) <==> 0 <= v <= 2147483647
    ensures FitsSigned(v, INT) <==> -2147483648 <= v <= 2147483647
    ensures TextOK(None) && (TextOK(Some(t)) <==> |t| < 18446744073709551615)
  {
    Powers();
    assert Pow256(8) == 18446744073709551616;
  }

  /** Stripping takes the debug information and the names of sources, and
      nothing else, at every level. */
  lemma StrippedLoads(f: Proto, parent: Option<Text>)
    ensures var g := Loaded(f, parent, true);
            && g.source == parent && g.lineinfo == [] && g.locvars == [] && g.upvalues == []
            && g.linedefined == f.linedefined && g.lastlinedefined == f.lastlinedefined && g.nups == f.nups
            && g.numparams == f.numparams && g.is_vararg == f.is_vararg && g.maxstacksize == f.maxstacksize
            && g.code == f.code && g.k == f.k
            && |g.p| == |f.p| && forall i :: 0 <= i < |f.p| ==> g.p[i] == Loaded(f.p[i], parent, true)
  {
    NestedLoads(f, |f.p|, parent);
  }

  lemma {:induction false} NestedLoads(f: Proto, n: nat, parent: Option<Text>)
    requires n <= |f.p|
    ensures forall i :: 0 <= i < n ==> LoadedNested(f, n, parent, true)[i] == Loaded(f.p[i], parent, true)
    decreases n
  {
    hide Loaded;
    if n > 0 { NestedLoads(f, n - 1, parent); }
  }
}
