/** luaU_dump and luaU_undump */
module Dump {
  import opened Options
  import opened Codec
  import opened Zio
  import opened DumpSpec

  /** luaU_header: signature, version, format, byte order and sizes. */
  const HEADER: seq<Byte> := [27, 76, 117, 97, 0x51, 0, if LITTLE then 1 else 0, INT, SIZET, INT, NUMBER, 0]

  /** The name of a source that is not known. */
  const UNKNOWN: Option<Text> := Some([61, 63])

  // ---------------------------------------------------------------------
  // Writing

  /** In the contracts, rest are the bytes that will be written later. */
  class DumpState {
    var out: seq<Byte>
    const strip: bool

    constructor (strip: bool)
      ensures out == [] && this.strip == strip
    {
      out := [];
      this.strip := strip;
    }

    method DumpBlock(b: seq<Byte>, ghost rest: seq<Byte>)
      modifies this
      ensures out + rest == old(out) + (b + rest)
    {
      out := out + b;
    }

    method DumpInt(v: int, ghost rest: seq<Byte>)
      modifies this
      ensures out + rest == old(out) + IntBytes(v, rest)
    {
      DumpBlock(Native(v, INT), rest);
    }

    method DumpChar(v: int, ghost rest: seq<Byte>)
      modifies this
      ensures out + rest == old(out) + CharBytes(v, rest)
    {
      DumpBlock(BigEndian(v, 1), rest);
    }

    method DumpString(s: Option<Text>, ghost rest: seq<Byte>)
      modifies this
      ensures out + rest == old(out) + TextBytes(s, rest)
    {
      match s {
        case None => DumpBlock(Native(0, SIZET), rest);
        case Some(t) =>
          DumpBlock(Native(|t| + 1, SIZET), (t + [0]) + rest);
          DumpBlock(t + [0], rest);
      }
    }

    method DumpVector(v: seq<int>, ghost rest: seq<Byte>)
      modifies this
      ensures out + rest == old(out) + IntBytes(|v|, IntsBytes(v, 0, rest))
    {
      hide IntBytes;
      DumpInt(|v|, IntsBytes(v, 0, rest));
      ghost var all := out + IntsBytes(v, 0, rest);
      for i := 0 to |v|
        invariant out + IntsBytes(v, i, rest) == all
      {
        DumpInt(v[i], IntsBytes(v, i + 1, rest));
      }
    }

    method DumpConst(c: Const, ghost rest: seq<Byte>)
      modifies this
      ensures out + rest == old(out) + ConstBytes(c, rest)
    {
      hide CharBytes, TextBytes;
      match c {
        case CNil => DumpChar(0, rest);
        case CBool(b) =>
          DumpChar(1, CharBytes(if b then 1 else 0, rest));
          DumpChar(if b then 1 else 0, rest);
        case CNum(image) =>
          DumpChar(3, image + rest);
          DumpBlock(image, rest);
        case CStr(s) =>
          DumpChar(4, TextBytes(s, rest));
          DumpString(s, rest);
      }
    }

    /** DumpConstants, the constants. */
    method DumpConstants(v: seq<Const>, ghost rest: seq<Byte>)
      modifies this
      ensures out + rest == old(out) + IntBytes(|v|, ConstsBytes(v, 0, rest))
    {
      hide IntBytes, ConstBytes;
      DumpInt(|v|, ConstsBytes(v, 0, rest));
      ghost var all := out + ConstsBytes(v, 0, rest);
      for i := 0 to |v|
        invariant out + ConstsBytes(v, i, rest) == all
      {
        DumpConst(v[i], ConstsBytes(v, i + 1, rest));
      }
    }

    method DumpLocVars(v: seq<LocVar>, ghost rest: seq<Byte>)
      modifies this
      ensures out + rest == old(out) + IntBytes(|v|, LocVarsBytes(v, 0, rest))
    {
      hide IntBytes, TextBytes;
      DumpInt(|v|, LocVarsBytes(v, 0, rest));
      ghost var all := out + LocVarsBytes(v, 0, rest);
      for i := 0 to |v|
        invariant out + LocVarsBytes(v, i, rest) == all
      {
        ghost var more := LocVarsBytes(v, i + 1, rest);
        DumpString(v[i].name, IntBytes(v[i].startpc, IntBytes(v[i].endpc, more)));
        DumpInt(v[i].startpc, IntBytes(v[i].endpc, more));
        DumpInt(v[i].endpc, more);
      }
    }

    method DumpTexts(v: seq<Option<Text>>, ghost rest: seq<Byte>)
      modifies this
      ensures out + rest == old(out) + IntBytes(|v|, TextsBytes(v, 0, rest))
    {
      hide IntBytes, TextBytes;
      DumpInt(|v|, TextsBytes(v, 0, rest));
      ghost var all := out + TextsBytes(v, 0, rest);
      for i := 0 to |v|
        invariant out + TextsBytes(v, i, rest) == all
      {
        DumpString(v[i], TextsBytes(v, i + 1, rest));
      }
    }

    method DumpDebug(f: Proto, ghost rest: seq<Byte>)
      modifies this
      ensures out + rest == old(out) + DebugBytes(f, strip, rest)
    {
      hide IntBytes, IntsBytes, LocVarsBytes, TextsBytes;
      var g := if strip then f.(lineinfo := [], locvars := [], upvalues := []) else f;
      ghost var r2 := IntBytes(|g.upvalues|, TextsBytes(g.upvalues, 0, rest));
      ghost var r1 := IntBytes(|g.locvars|, LocVarsBytes(g.locvars, 0, r2));
      DumpVector(g.lineinfo, r1);
      DumpLocVars(g.locvars, r2);
      DumpTexts(g.upvalues, rest);
    }

    method DumpFunction(f: Proto, parent: Option<Text>, ghost rest: seq<Byte>)
      modifies this
      ensures out + rest == old(out) + ProtoBytes(f, parent, strip, rest)
      decreases f, 1
    {
      hide IntBytes, IntsBytes, CharBytes, TextBytes, ConstsBytes, NestedBytes, DebugBytes;
      ghost var debug := DebugBytes(f, strip, rest);
      ghost var nested := IntBytes(|f.p|, NestedBytes(f, 0, strip, debug));
      ghost var consts := IntBytes(|f.k|, ConstsBytes(f.k, 0, nested));
      ghost var code := IntBytes(|f.code|, IntsBytes(f.code, 0, consts));
      ghost var c4 := CharBytes(f.maxstacksize, code);
      ghost var c3 := CharBytes(f.is_vararg, c4);
      ghost var c2 := CharBytes(f.numparams, c3);
      ghost var c1 := CharBytes(f.nups, c2);
      DumpString(if f.source == parent || strip then None else f.source,
                 IntBytes(f.linedefined, IntBytes(f.lastlinedefined, c1)));
      DumpInt(f.linedefined, IntBytes(f.lastlinedefined, c1));
      DumpInt(f.lastlinedefined, c1);
      DumpChar(f.nups, c2);
      DumpChar(f.numparams, c3);
      DumpChar(f.is_vararg, c4);
      DumpChar(f.maxstacksize, code);
      DumpVector(f.code, consts);
      DumpConstants(f.k, nested);
      DumpNested(f, debug);
      DumpDebug(f, rest);
    }

    /** DumpConstants, the nested prototypes. */
    method DumpNested(f: Proto, ghost rest: seq<Byte>)
      modifies this
      ensures out + rest == old(out) + IntBytes(|f.p|, NestedBytes(f, 0, strip, rest))
      decreases f, 0
    {
      hide IntBytes, ProtoBytes;
      DumpInt(|f.p|, NestedBytes(f, 0, strip, rest));
      ghost var all := out + NestedBytes(f, 0, strip, rest);
      for i := 0 to |f.p|
        invariant out + NestedBytes(f, i, strip, rest) == all
      {
        DumpFunction(f.p[i], f.source, NestedBytes(f, i + 1, strip, rest));
      }
    }
  }

  /** luaU_dump */
  method DumpChunk(f: Proto, strip: bool) returns (b: seq<Byte>)
    ensures b == HEADER + ProtoBytes(f, None, strip, [])
  {
    hide ProtoBytes;
    var d := new DumpState(strip);
    d.DumpBlock(HEADER, ProtoBytes(f, None, strip, []));
    d.DumpFunction(f, None, []);
    b := d.out;
    assert b == b + [];
  }

  // ---------------------------------------------------------------------
  // Reading

  /** In the contracts, the ghost parameters are what was written and the bytes
      after it; nothing is promised for other input. None is an error. */
  class LoadState {
    const z: Stream
    const check: Check

    constructor (z: Stream, check: Check)
      ensures this.z == z && this.check == check
    {
      this.z, this.check := z, check;
    }

    method LoadBlock(n: nat, ghost b: seq<Byte>, ghost rest: seq<Byte>) returns (r: Option<seq<Byte>>)
      modifies z
      ensures r.Some? ==> |r.value| == n
      ensures old(z.Left()) == b + rest && |b| == n ==> r == Some(b) && z.Left() == rest
    {
      ghost var all := z.Left();
      r := z.Read(n);
      if all == b + rest && |b| == n { CutAt(all, b, rest); }
    }

    method LoadChar(ghost v: int, ghost rest: seq<Byte>) returns (r: Option<int>)
      modifies z
      ensures r.Some? ==> 0 <= r.value < 256
      ensures old(z.Left()) == CharBytes(v, rest) && 0 <= v < 256 ==> r == Some(v) && z.Left() == rest
    {
      var b := LoadBlock(1, BigEndian(v, 1), rest);
      if b.None? { return None; }
      if 0 <= v < 256 { CharTrip(v); }
      OneByte(b.value);
      return Some(Number(b.value));
    }

    method LoadInt(ghost v: int, ghost rest: seq<Byte>) returns (r: Option<int>)
      modifies z
      ensures r.Some? ==> r.value >= 0
      ensures old(z.Left()) == IntBytes(v, rest) && IsInt(v) ==> r == Some(v) && z.Left() == rest
    {
      var b := LoadBlock(INT, Native(v, INT), rest);
      if b.None? { return None; }
      if IsInt(v) { IntTrip(v); }
      var x := Signed(FromNative(b.value), INT);
      if x < 0 { return None; }
      return Some(x);
    }

    /** An int of a vector: its sign is not looked at. */
    method LoadImage(ghost v: int, ghost rest: seq<Byte>) returns (r: Option<int>)
      modifies z
      ensures old(z.Left()) == IntBytes(v, rest) && FitsSigned(v, INT) ==> r == Some(v) && z.Left() == rest
    {
      var b := LoadBlock(INT, Native(v, INT), rest);
      if b.None? { return None; }
      if FitsSigned(v, INT) { ImageTrip(v); }
      return Some(Signed(FromNative(b.value), INT));
    }

    method LoadString(ghost s: Option<Text>, ghost rest: seq<Byte>) returns (r: Option<Option<Text>>)
      modifies z
      ensures old(z.Left()) == TextBytes(s, rest) && TextOK(s) ==> r == Some(s) && z.Left() == rest
    {
      ghost var n := if s.Some? then |s.value| + 1 else 0;
      ghost var more := if s.Some? then (s.value + [0]) + rest else rest;
      var b := LoadBlock(SIZET, Native(n, SIZET), more);
      if b.None? { return None; }
      if TextOK(s) { SizeTrip(n); }
      var size := FromNative(b.value);
      if size == 0 { return Some(None); }
      var t := LoadBlock(size, if s.Some? then s.value + [0] else [], rest);
      if t.None? { return None; }
      return Some(Some(t.value[..size - 1]));
    }

    method LoadVector(ghost v: seq<int>, ghost rest: seq<Byte>) returns (r: Option<seq<int>>)
      modifies z
      ensures old(z.Left()) == IntBytes(|v|, IntsBytes(v, 0, rest)) && IsInt(|v|)
                && (forall i :: 0 <= i < |v| ==> FitsSigned(v[i], INT)) ==>
                r == Some(v) && z.Left() == rest
    {
      hide IntBytes, FitsSigned, IsInt;
      ghost var good := z.Left() == IntBytes(|v|, IntsBytes(v, 0, rest)) && IsInt(|v|)
          && (forall i :: 0 <= i < |v| ==> FitsSigned(v[i], INT));
      var n := LoadInt(|v|, IntsBytes(v, 0, rest));
      if n.None? { return None; }
      var w: seq<int> := [];
      while |w| < n.value
        invariant |w| <= n.value && (good ==> n.value == |v| && w == v[..|w|] && z.Left() == IntsBytes(v, |w|, rest))
      {
        ghost var i := |w|;
        var x := LoadImage(if i < |v| then v[i] else 0, if i < |v| then IntsBytes(v, i + 1, rest) else []);
        if x.None? { return None; }
        w := w + [x.value];
      }
      assert v[..|v|] == v;
      return Some(w);
    }

    method LoadTexts(ghost v: seq<Option<Text>>, ghost rest: seq<Byte>) returns (r: Option<seq<Option<Text>>>)
      modifies z
      ensures old(z.Left()) == IntBytes(|v|, TextsBytes(v, 0, rest)) && IsInt(|v|)
                && (forall i :: 0 <= i < |v| ==> TextOK(v[i])) ==>
                r == Some(v) && z.Left() == rest
    {
      hide IntBytes, TextBytes, TextOK, IsInt;
      ghost var good := z.Left() == IntBytes(|v|, TextsBytes(v, 0, rest)) && IsInt(|v|)
          && (forall i :: 0 <= i < |v| ==> TextOK(v[i]));
      var n := LoadInt(|v|, TextsBytes(v, 0, rest));
      if n.None? { return None; }
      var w: seq<Option<Text>> := [];
      while |w| < n.value
        invariant |w| <= n.value && (good ==> n.value == |v| && w == v[..|w|] && z.Left() == TextsBytes(v, |w|, rest))
      {
        ghost var i := |w|;
        var x := LoadString(if i < |v| then v[i] else None, if i < |v| then TextsBytes(v, i + 1, rest) else []);
        if x.None? { return None; }
        w := w + [x.value];
      }
      assert v[..|v|] == v;
      return Some(w);
    }

    method LoadLocVar(ghost v: LocVar, ghost rest: seq<Byte>) returns (r: Option<LocVar>)
      modifies z
      ensures old(z.Left()) == TextBytes(v.name, IntBytes(v.startpc, IntBytes(v.endpc, rest))) && LocVarOK(v) ==>
                r == Some(v) && z.Left() == rest
    {
      hide IntBytes, TextBytes, TextOK, IsInt;
      var name := LoadString(v.name, IntBytes(v.startpc, IntBytes(v.endpc, rest)));
      if name.None? { return None; }
      var startpc := LoadInt(v.startpc, IntBytes(v.endpc, rest));
      if startpc.None? { return None; }
      var endpc := LoadInt(v.endpc, rest);
      if endpc.None? { return None; }
      return Some(LocVar(name.value, startpc.value, endpc.value));
    }

    method LoadLocVars(ghost v: seq<LocVar>, ghost rest: seq<Byte>) returns (r: Option<seq<LocVar>>)
      modifies z
      ensures old(z.Left()) == IntBytes(|v|, LocVarsBytes(v, 0, rest)) && IsInt(|v|)
                && (forall i :: 0 <= i < |v| ==> LocVarOK(v[i])) ==>
                r == Some(v) && z.Left() == rest
    {
      hide IntBytes, TextBytes, LocVarOK, IsInt;
      ghost var good := z.Left() == IntBytes(|v|, LocVarsBytes(v, 0, rest)) && IsInt(|v|)
          && (forall i :: 0 <= i < |v| ==> LocVarOK(v[i]));
      var n := LoadInt(|v|, LocVarsBytes(v, 0, rest));
      if n.None? { return None; }
      var w: seq<LocVar> := [];
      while |w| < n.value
        invariant |w| <= n.value && (good ==> n.value == |v| && w == v[..|w|] && z.Left() == LocVarsBytes(v, |w|, rest))
      {
        ghost var i := |w|;
        var x := LoadLocVar(if i < |v| then v[i] else LocVar(None, 0, 0),
                            if i < |v| then LocVarsBytes(v, i + 1, rest) else []);
        if x.None? { return None; }
        w := w + [x.value];
      }
      assert v[..|v|] == v;
      return Some(w);
    }

    method LoadConst(ghost c: Const, ghost rest: seq<Byte>) returns (r: Option<Const>)
      modifies z
      ensures old(z.Left()) == ConstBytes(c, rest) && ConstOK(c) ==> r == Some(c) && z.Left() == rest
    {
      hide CharBytes, TextBytes, TextOK;
      ghost var tag := match c case CNil => 0 case CBool(_) => 1 case CNum(_) => 3 case CStr(_) => 4;
      ghost var more := match c
        case CNil => rest
        case CBool(b) => CharBytes(if b then 1 else 0, rest)
        case CNum(image) => image + rest
        case CStr(s) => TextBytes(s, rest);
      var t := LoadChar(tag, more);
      if t.None? { return None; }
      if t.value == 0 { return Some(CNil); }
      if t.value == 1 {
        var b := LoadChar(if c.CBool? && c.b then 1 else 0, rest);
        if b.None? { return None; }
        return Some(CBool(b.value != 0));
      }
      if t.value == 3 {
        var image := LoadBlock(NUMBER, if c.CNum? then c.image else [], rest);
        if image.None? { return None; }
        return Some(CNum(image.value));
      }
      if t.value == 4 {
        var s := LoadString(if c.CStr? then c.s else None, rest);
        if s.None? { return None; }
        return Some(CStr(s.value));
      }
      return None;
    }

    method LoadConstants(ghost v: seq<Const>, ghost rest: seq<Byte>) returns (r: Option<seq<Const>>)
      modifies z
      ensures old(z.Left()) == IntBytes(|v|, ConstsBytes(v, 0, rest)) && IsInt(|v|)
                && (forall i :: 0 <= i < |v| ==> ConstOK(v[i])) ==>
                r == Some(v) && z.Left() == rest
    {
      hide IntBytes, ConstBytes, ConstOK, IsInt;
      ghost var good := z.Left() == IntBytes(|v|, ConstsBytes(v, 0, rest)) && IsInt(|v|)
          && (forall i :: 0 <= i < |v| ==> ConstOK(v[i]));
      var n := LoadInt(|v|, ConstsBytes(v, 0, rest));
      if n.None? { return None; }
      var w: seq<Const> := [];
      while |w| < n.value
        invariant |w| <= n.value && (good ==> n.value == |v| && w == v[..|w|] && z.Left() == ConstsBytes(v, |w|, rest))
      {
        ghost var i := |w|;
        var x := LoadConst(if i < |v| then v[i] else CNil, if i < |v| then ConstsBytes(v, i + 1, rest) else []);
        if x.None? { return None; }
        w := w + [x.value];
      }
      assert v[..|v|] == v;
      return Some(w);
    }

    /** LoadDebug */
    method LoadDebug(ghost g: Proto, ghost rest: seq<Byte>)
      returns (r: Option<(seq<int>, seq<LocVar>, seq<Option<Text>>)>)
      modifies z
      ensures old(z.Left()) == DebugBytes(g, false, rest) && FieldsOK(g) ==>
                r == Some((g.lineinfo, g.locvars, g.upvalues)) && z.Left() == rest
    {
      hide IntBytes, IntsBytes, LocVarsBytes, TextsBytes, IsInt, LocVarOK, TextOK, FitsSigned;
      ghost var r2 := IntBytes(|g.upvalues|, TextsBytes(g.upvalues, 0, rest));
      ghost var r1 := IntBytes(|g.locvars|, LocVarsBytes(g.locvars, 0, r2));
      var lineinfo := LoadVector(g.lineinfo, r1);
      if lineinfo.None? { return None; }
      var locvars := LoadLocVars(g.locvars, r2);
      if locvars.None? { return None; }
      var upvalues := LoadTexts(g.upvalues, rest);
      if upvalues.None? { return None; }
      return Some((lineinfo.value, locvars.value, upvalues.value));
    }

    /** The part of LoadFunction before the constants. */
    method LoadHead(parent: Option<Text>, ghost f: Proto, ghost dumped: Option<Text>, ghost rest: seq<Byte>)
      returns (r: Option<Proto>)
      modifies z
      ensures FieldsOK(f) && (dumped == f.source || dumped == None)
              && old(z.Left()) == TextBytes(dumped, IntBytes(f.linedefined, IntBytes(f.lastlinedefined,
                   CharBytes(f.nups, CharBytes(f.numparams, CharBytes(f.is_vararg, CharBytes(f.maxstacksize,
                   IntBytes(|f.code|, IntsBytes(f.code, 0, rest))))))))) ==>
                r == Some(f.(source := if dumped == None then parent
                    else dumped, k := [], p := [], lineinfo := [], locvars := [], upvalues := []))
                && z.Left() == rest
    {
      hide IntBytes, IntsBytes, CharBytes, TextBytes, TextOK, FitsSigned, IsInt;
      ghost var code := IntBytes(|f.code|, IntsBytes(f.code, 0, rest));
      ghost var c4 := CharBytes(f.maxstacksize, code);
      ghost var c3 := CharBytes(f.is_vararg, c4);
      ghost var c2 := CharBytes(f.numparams, c3);
      ghost var c1 := CharBytes(f.nups, c2);
      NoneOK();
      var source := LoadString(dumped, IntBytes(f.linedefined, IntBytes(f.lastlinedefined, c1)));
      if source.None? { return None; }
      var line := LoadInt(f.linedefined, IntBytes(f.lastlinedefined, c1));
      if line.None? { return None; }
      var last := LoadInt(f.lastlinedefined, c1);
      if last.None? { return None; }
      var nups := LoadChar(f.nups, c2);
      if nups.None? { return None; }
      var numparams := LoadChar(f.numparams, c3);
      if numparams.None? { return None; }
      var vararg := LoadChar(f.is_vararg, c4);
      if vararg.None? { return None; }
      var stack := LoadChar(f.maxstacksize, code);
      if stack.None? { return None; }
      var v := LoadVector(f.code, rest);
      if v.None? { return None; }
      return Some(Proto(if source.value == None then parent else source.value, line.value, last.value,
                        nups.value, numparams.value, vararg.value, stack.value, v.value, [], [], [], [], []));
    }

    /** LoadFunction; calls is the depth of the C stack. */
    method LoadFunction(parent: Option<Text>, calls: nat, ghost f: Proto, ghost dp: Option<Text>, ghost strip: bool,
                        ghost rest: seq<Byte>)
      returns (r: Option<Proto>)
      modifies z
      ensures old(z.Left()) == ProtoBytes(f, dp, strip, rest) && TreeOK(f, calls, check, parent, strip)
              && (strip || dp == None || dp == parent) ==>
                r == Some(Loaded(f, parent, strip)) && z.Left() == rest
      decreases MAXCCALLS - calls, 1
    {
      hide IntBytes, IntsBytes, CharBytes, TextBytes, ConstsBytes, NestedBytes, DebugBytes, FieldsOK, LoadedNested;
      hide NestedOK;
      if calls >= MAXCCALLS { return None; }
      ghost var good := z.Left() == ProtoBytes(f, dp, strip, rest) && TreeOK(f, calls, check, parent, strip)
          && (strip || dp == None || dp == parent);
      ghost var g := if strip then f.(lineinfo := [], locvars := [], upvalues := []) else f;
      ghost var debug := DebugBytes(f, strip, rest);
      ghost var nested := IntBytes(|f.p|, NestedBytes(f, 0, strip, debug));
      ghost var consts := IntBytes(|f.k|, ConstsBytes(f.k, 0, nested));
      ghost var dumped := if strip || f.source == dp then None else f.source;
      if good { FieldsFacts(f); DebugIs(f, strip, rest); }
      var h := LoadHead(parent, f, dumped, consts);
      if h.None? { return None; }
      var k := LoadConstants(f.k, nested);
      if k.None? { return None; }
      var p := LoadNested(h.value.source, calls + 1, f, strip, debug);
      if p.None? { return None; }
      var d := LoadDebug(g, rest);
      if d.None? { return None; }
      var loaded := h.value.(k := k.value, p := p.value, lineinfo := d.value.0, locvars := d.value.1,
          upvalues := d.value.2);
      if !check(loaded) { return None; }
      return Some(loaded);
    }

    /** The nested prototypes of LoadConstants. */
    method LoadNested(source: Option<Text>, calls: nat, ghost f: Proto, ghost strip: bool, ghost rest: seq<Byte>)
      returns (r: Option<seq<Proto>>)
      requires calls <= MAXCCALLS
      modifies z
      ensures old(z.Left()) == IntBytes(|f.p|, NestedBytes(f, 0, strip, rest)) && IsInt(|f.p|)
              && NestedOK(f, |f.p|, calls, check, source, strip) && (strip || f.source == source) ==>
                r == Some(LoadedNested(f, |f.p|, source, strip)) && z.Left() == rest
      decreases MAXCCALLS - calls, 2
    {
      hide IntBytes, ProtoBytes, TreeOK, IsInt, NestedBytes, NestedOK, LoadedNested, Loaded, NestedSoFar;
      ghost var good := z.Left() == IntBytes(|f.p|, NestedBytes(f, 0, strip, rest)) && IsInt(|f.p|)
                        && NestedOK(f, |f.p|, calls, check, source, strip) && (strip || f.source == source);
      var n := LoadInt(|f.p|, NestedBytes(f, 0, strip, rest));
      if n.None? { return None; }
      var w: seq<Proto> := [];
      if good { NestedStart(f, source, strip, rest); }
      while |w| < n.value
        invariant |w| <= n.value
        invariant good ==> n.value == |f.p| && NestedSoFar(f, w, source, strip, rest, z.Left())
      {
        ghost var g, after := f, [];
        if good { g, after := NestedNext(f, w, calls, check, source, strip, rest, z.Left()); }
        var x := LoadFunction(source, calls, g, f.source, strip, after);
        if x.None? { return None; }
        w := w + [x.value];
      }
      if good { NestedEnd(f, w, source, strip, rest, z.Left()); }
      return Some(w);
    }
  }

  /** The first prototypes have been loaded, the others are to come. */
  predicate NestedSoFar(f: Proto, w: seq<Proto>, source: Option<Text>, strip: bool, rest: seq<Byte>, left: seq<Byte>) {
    |w| <= |f.p| && w == LoadedNested(f, |w|, source, strip) && left == NestedBytes(f, |w|, strip, rest)
  }

  lemma NestedStart(f: Proto, source: Option<Text>, strip: bool, rest: seq<Byte>)
    ensures NestedSoFar(f, [], source, strip, rest, NestedBytes(f, 0, strip, rest))
  {
    NestedNone(f, source, strip, rest);
  }

  lemma NestedNext(f: Proto, w: seq<Proto>, calls: nat, check: Check, source: Option<Text>, strip: bool,
                   rest: seq<Byte>, left: seq<Byte>) returns (g: Proto, after: seq<Byte>)
    requires NestedSoFar(f, w, source, strip, rest, left) && |w| < |f.p|
    requires NestedOK(f, |f.p|, calls, check, source, strip)
    ensures g == f.p[|w|] && after == NestedBytes(f, |w| + 1, strip, rest)
    ensures left == ProtoBytes(g, f.source, strip, after) && TreeOK(g, calls, check, source, strip)
    ensures NestedSoFar(f, w + [Loaded(g, source, strip)], source, strip, rest, after)
  {
    hide ProtoBytes, TreeOK, NestedBytes, NestedOK, LoadedNested, Loaded;
    g, after := f.p[|w|], NestedBytes(f, |w| + 1, strip, rest);
    NestedAt(f, |f.p|, |w|, calls, check, source, strip);
    NestedStep(f, |w|, source, strip, rest);
  }

  lemma NestedEnd(f: Proto, w: seq<Proto>, source: Option<Text>, strip: bool, rest: seq<Byte>, left: seq<Byte>)
    requires NestedSoFar(f, w, source, strip, rest, left) && |w| == |f.p|
    ensures w == LoadedNested(f, |f.p|, source, strip) && left == rest
  {
    NestedNone(f, source, strip, rest);
  }

  lemma NestedNone(f: Proto, source: Option<Text>, strip: bool, rest: seq<Byte>)
    ensures LoadedNested(f, 0, source, strip) == [] && NestedBytes(f, |f.p|, strip, rest) == rest
  {
  }

  lemma NestedStep(f: Proto, i: nat, source: Option<Text>, strip: bool, rest: seq<Byte>)
    requires i < |f.p|
    ensures NestedBytes(f, i, strip, rest) == ProtoBytes(f.p[i], f.source, strip, NestedBytes(f, i + 1, strip, rest))
    ensures LoadedNested(f, i + 1, source, strip) == LoadedNested(f, i, source, strip) + [Loaded(f.p[i], source, strip)]
  {
    hide ProtoBytes, Loaded;
  }

  lemma NoneOK()
    ensures TextOK(None)
  {
  }

  lemma FieldsFacts(f: Proto)
    requires FieldsOK(f)
    ensures f.source.Some? && IsInt(|f.k|) && (forall i :: 0 <= i < |f.k| ==> ConstOK(f.k[i])) && IsInt(|f.p|)
    ensures FieldsOK(f.(lineinfo := [], locvars := [], upvalues := []))
  {
  }

  lemma DebugIs(f: Proto, strip: bool, rest: seq<Byte>)
    ensures DebugBytes(f, strip, rest) == DebugBytes(if strip then f.(lineinfo := [], locvars := [], upvalues := [])
              else f, false, rest)
  {
  }

  lemma {:induction false} NestedAt(f: Proto, n: nat, i: nat, calls: nat, check: Check, parent: Option<Text>,
                          strip: bool)
    requires n <= |f.p| && NestedOK(f, n, calls, check, parent, strip)
    ensures i < n ==> TreeOK(f.p[i], calls, check, parent, strip)
    decreases n
  {
    if i < n - 1 { NestedAt(f, n - 1, i, calls, check, parent, strip); }
  }

  /** luaU_undump, after luaD_protectedparser has looked at the signature. */
  method Undump(chunks: seq<seq<Byte>>, check: Check, ghost f: Proto, ghost strip: bool) returns (r: Option<Proto>)
    ensures Joined(chunks) == HEADER + ProtoBytes(f, None, strip, []) && TreeOK(f, 0, check, UNKNOWN, strip) ==>
              r == Some(Loaded(f, UNKNOWN, strip))
  {
    hide ProtoBytes, TreeOK, Loaded;
    var z := new Stream(chunks);
    var s := new LoadState(z, check);
    var h := s.LoadBlock(|HEADER|, HEADER, ProtoBytes(f, None, strip, []));
    if h.None? || h.value != HEADER { return None; }
    r := s.LoadFunction(UNKNOWN, 0, f, None, strip, []);
  }

  /** Undumping a dump gives the same prototype back, or its stripped form,
      whatever non-empty chunks the bytes come in. */
  method DumpTrip(f: Proto, strip: bool, cut: seq<Byte> -> seq<seq<Byte>>, check: Check) returns (r: Option<Proto>)
    requires TreeOK(f, 0, check, UNKNOWN, strip) && forall b :: Joined(cut(b)) == b
    ensures r == Some(Loaded(f, UNKNOWN, strip)) && (!strip ==> r == Some(f))
  {
    hide ProtoBytes, TreeOK, Loaded, Joined;
    var b := DumpChunk(f, strip);
    r := Undump(cut(b), check, f, strip);
    LoadedSame(f, UNKNOWN);
  }

  lemma CharTrip(v: int)
    requires 0 <= v < 256
    ensures Number(BigEndian(v, 1)) == v
  {
    Pow256Values();
    UnsignedTrip(v, 1);
  }

  lemma OneByte(b: seq<Byte>)
    requires |b| == 1
    ensures Number(b) == b[0]
  {
    assert b[..0] == [];
  }

  lemma IntTrip(v: int)
    requires IsInt(v)
    ensures Signed(FromNative(Native(v, INT)), INT) == v
  {
    Pow256Values();
    ImageTrip(v);
  }

  lemma ImageTrip(v: int)
    requires FitsSigned(v, INT)
    ensures Signed(FromNative(Native(v, INT)), INT) == v
  {
    NativeTrip(v, INT);
    SignedTrip(v, INT);
  }

  lemma SizeTrip(n: nat)
    requires n == 0 || FitsUnsigned(n, SIZET)
    ensures FromNative(Native(n, SIZET)) == n
  {
    NativeTrip(n, SIZET);
    UnsignedTrip(n, SIZET);
  }
}
