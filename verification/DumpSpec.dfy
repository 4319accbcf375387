/** Precompiled chunks: the bytes of a function prototype.

    Numbers are written as memory images, so the byte order is that of the
    machine. */
module DumpSpec {
  import opened Options
  import opened Codec

  type Text = seq<Byte>

  datatype Const = CNil | CBool(b: bool) | CNum(image: seq<Byte>) | CStr(s: Option<Text>)
  datatype LocVar = LocVar(name: Option<Text>, startpc: int, endpc: int)

  datatype Proto = Proto(
    source: Option<Text>, linedefined: int, lastlinedefined: int,
    nups: int, numparams: int, is_vararg: int, maxstacksize: int,
    code: seq<int>, k: seq<Const>, p: seq<Proto>,
    lineinfo: seq<int>, locvars: seq<LocVar>, upvalues: seq<Option<Text>>)

  const INT := 4
  const SIZET := 8
  const NUMBER := 8
  const MAXCCALLS := 200

  /** Whether the machine keeps the low byte first: it can be either. */
  const LITTLE: bool

  function Reversed(b: seq<Byte>): (r: seq<Byte>)
    ensures |r| == |b| && forall i :: 0 <= i < |b| ==> r[i] == b[|b| - 1 - i]
  {
    seq(|b|, i requires 0 <= i < |b| => b[|b| - 1 - i])
  }

  /** The memory image of an integer of n bytes, and the number in an image. */
  function Native(v: int, n: nat): (b: seq<Byte>)
    ensures |b| == n
  {
    if LITTLE then Reversed(BigEndian(v, n)) else BigEndian(v, n)
  }

  function FromNative(b: seq<Byte>): nat {
    if LITTLE then Number(Reversed(b)) else Number(b)
  }

  lemma NativeTrip(v: int, n: nat)
    ensures FromNative(Native(v, n)) == Number(BigEndian(v, n))
  {
    var b := BigEndian(v, n);
    assert Reversed(Reversed(b)) == b;
  }

  // ---------------------------------------------------------------------
  // The bytes; each function puts them before the bytes that follow

  function IntBytes(v: int, rest: seq<Byte>): seq<Byte> {
    Native(v, INT) + rest
  }

  function CharBytes(v: int, rest: seq<Byte>): seq<Byte> {
    BigEndian(v, 1) + rest
  }

  /** DumpString */
  function TextBytes(s: Option<Text>, rest: seq<Byte>): seq<Byte> {
    match s
    case None => Native(0, SIZET) + rest
    case Some(t) => Native(|t| + 1, SIZET) + ((t + [0]) + rest)
  }

  function IntsBytes(v: seq<int>, i: nat, rest: seq<Byte>): seq<Byte>
    requires i <= |v|
    decreases |v| - i
  {
    if i == |v| then rest else IntBytes(v[i], IntsBytes(v, i + 1, rest))
  }

  function TextsBytes(v: seq<Option<Text>>, i: nat, rest: seq<Byte>): seq<Byte>
    requires i <= |v|
    decreases |v| - i
  {
    if i == |v| then rest else TextBytes(v[i], TextsBytes(v, i + 1, rest))
  }

  function LocVarsBytes(v: seq<LocVar>, i: nat, rest: seq<Byte>): seq<Byte>
    requires i <= |v|
    decreases |v| - i
  {
    if i == |v| then rest
    else TextBytes(v[i].name, IntBytes(v[i].startpc, IntBytes(v[i].endpc, LocVarsBytes(v, i + 1, rest))))
  }

  function ConstBytes(c: Const, rest: seq<Byte>): seq<Byte> {
    match c
    case CNil => CharBytes(0, rest)
    case CBool(b) => CharBytes(1, CharBytes(if b then 1 else 0, rest))
    case CNum(image) => CharBytes(3, image + rest)
    case CStr(s) => CharBytes(4, TextBytes(s, rest))
  }

  function ConstsBytes(v: seq<Const>, i: nat, rest: seq<Byte>): seq<Byte>
    requires i <= |v|
    decreases |v| - i
  {
    if i == |v| then rest else ConstBytes(v[i], ConstsBytes(v, i + 1, rest))
  }

  /** DumpDebug */
  function DebugBytes(f: Proto, strip: bool, rest: seq<Byte>): seq<Byte> {
    var g := if strip then f.(lineinfo := [], locvars := [], upvalues := []) else f;
    IntBytes(|g.lineinfo|, IntsBytes(g.lineinfo, 0,
    IntBytes(|g.locvars|, LocVarsBytes(g.locvars, 0,
    IntBytes(|g.upvalues|, TextsBytes(g.upvalues, 0, rest))))))
  }

  /** DumpFunction */
  function ProtoBytes(f: Proto, parent: Option<Text>, strip: bool, rest: seq<Byte>): seq<Byte>
    decreases f, 1, 0
  {
    TextBytes(if strip || f.source == parent then None else f.source,
    IntBytes(f.linedefined, IntBytes(f.lastlinedefined,
    CharBytes(f.nups, CharBytes(f.numparams, CharBytes(f.is_vararg, CharBytes(f.maxstacksize,
    IntBytes(|f.code|, IntsBytes(f.code, 0,
    IntBytes(|f.k|, ConstsBytes(f.k, 0,
    IntBytes(|f.p|, NestedBytes(f, 0, strip, DebugBytes(f, strip, rest))))))))))))))
  }

  function NestedBytes(f: Proto, i: nat, strip: bool, rest: seq<Byte>): seq<Byte>
    requires i <= |f.p|
    decreases f, 0, |f.p| - i
  {
    if i == |f.p| then rest else ProtoBytes(f.p[i], f.source, strip, NestedBytes(f, i + 1, strip, rest))
  }

  // ---------------------------------------------------------------------
  // Prototypes that can be dumped and loaded

  predicate IsInt(v: int) {
    0 <= v < 0x8000_0000
  }

  predicate TextOK(s: Option<Text>) {
    s.Some? ==> FitsUnsigned(|s.value| + 1, SIZET)
  }

  predicate ConstOK(c: Const) {
    (c.CNum? ==> |c.image| == NUMBER) && (c.CStr? ==> TextOK(c.s))
  }

  predicate LocVarOK(v: LocVar) {
    TextOK(v.name) && IsInt(v.startpc) && IsInt(v.endpc)
  }

  /** The fields of one prototype fit their C types. */
  predicate FieldsOK(f: Proto) {
    && f.source.Some? && TextOK(f.source) && IsInt(f.linedefined) && IsInt(f.lastlinedefined)
    && 0 <= f.nups < 256 && 0 <= f.numparams < 256 && 0 <= f.is_vararg < 256 && 0 <= f.maxstacksize < 256
    && IsInt(|f.code|) && (forall i :: 0 <= i < |f.code| ==> FitsSigned(f.code[i], INT))
    && IsInt(|f.k|) && (forall i :: 0 <= i < |f.k| ==> ConstOK(f.k[i]))
    && IsInt(|f.lineinfo|) && (forall i :: 0 <= i < |f.lineinfo| ==> FitsSigned(f.lineinfo[i], INT))
    && IsInt(|f.locvars|) && (forall i :: 0 <= i < |f.locvars| ==> LocVarOK(f.locvars[i]))
    && IsInt(|f.upvalues|) && (forall i :: 0 <= i < |f.upvalues| ==> TextOK(f.upvalues[i]))
    && IsInt(|f.p|)
  }

  /** What loading gives: the prototype, without its debug information if that
      was stripped; then the source is that of the loader. */
  function Loaded(f: Proto, parent: Option<Text>, strip: bool): Proto
    decreases f, 1, 0
  {
    if strip then f.(source := parent, p := LoadedNested(f, |f.p|, parent, true), lineinfo := [], locvars := [],
        upvalues := [])
    else f.(p := LoadedNested(f, |f.p|, f.source, false))
  }

  function LoadedNested(f: Proto, n: nat, parent: Option<Text>, strip: bool): (r: seq<Proto>)
    requires n <= |f.p|
    ensures |r| == n
    decreases f, 0, n
  {
    if n == 0 then [] else LoadedNested(f, n - 1, parent, strip) + [Loaded(f.p[n - 1], parent, strip)]
  }

  /** The checker luaG_checkcode, on a prototype that was just loaded. */
  type Check = Proto -> bool

  /** The whole tree fits, is not nested too deep, and its code is accepted. */
  predicate TreeOK(f: Proto, calls: nat, check: Check, parent: Option<Text>, strip: bool)
    decreases f, 1, 0
  {
    FieldsOK(f) && calls < MAXCCALLS && check(Loaded(f, parent, strip))
        && NestedOK(f, |f.p|, calls + 1, check, if strip then parent else f.source, strip)
  }

  predicate NestedOK(f: Proto, n: nat, calls: nat, check: Check, parent: Option<Text>, strip: bool)
    requires n <= |f.p|
    decreases f, 0, n
  {
    n == 0 || (NestedOK(f, n - 1, calls, check, parent, strip) && TreeOK(f.p[n - 1], calls, check, parent, strip))
  }

  /** Without stripping, loading gives back the very same tree. */
  lemma {:induction false} LoadedSame(f: Proto, parent: Option<Text>)
    ensures Loaded(f, parent, false) == f
    decreases f, 1, 0
  {
    LoadedNestedSame(f, |f.p|);
    assert f.p[..|f.p|] == f.p;
  }

  lemma {:induction false} LoadedNestedSame(f: Proto, n: nat)
    requires n <= |f.p|
    ensures LoadedNested(f, n, f.source, false) == f.p[..n]
    decreases f, 0, n
  {
    if n > 0 {
      LoadedNestedSame(f, n - 1);
      LoadedSame(f.p[n - 1], f.source);
    }
  }
}
