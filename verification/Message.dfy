/** Messages: a growing buffer with a cursor, framed by a length prefix. */
module Message {
  import opened Codec

  /** The frame of a payload on the wire. */
  function Frame(p: seq<Byte>): seq<Byte> {
    if |p| >= 0xFFFF then [0xFF, 0xFF] + BigEndian(|p|, 4) + p else BigEndian(|p|, 2) + p
  }

  // ---------------------------------------------------------------------
  // A prefix of a frame

  predicate IsLong(b: seq<Byte>) {
    |b| >= 2 && b[0] == 0xFF && b[1] == 0xFF
  }

  function HeadLen(b: seq<Byte>): nat {
    if IsLong(b) then 6 else 2
  }

  function BodyLen(b: seq<Byte>): nat
    requires |b| >= HeadLen(b)
  {
    if IsLong(b) then Number(b[2..6]) else Number(b[..2])
  }

  /** How many bytes the part of the frame that is being read still lacks. */
  function Remaining(b: seq<Byte>): int {
    if |b| < 2 then 2 - |b| else if IsLong(b) && |b| < 6 then 6 - |b| else HeadLen(b) + BodyLen(b) - |b|
  }

  /** The length fits an int. */
  predicate Sane(b: seq<Byte>) {
    |b| >= HeadLen(b) ==> BodyLen(b) < 0x8000_0000
  }

  lemma {:induction false} NumberBound(b: seq<Byte>)
    ensures Number(b) < Pow256(|b|)
    decreases |b|
  {
    if b != [] { NumberBound(b[..|b| - 1]); }
  }

  /** The first two bytes are the mark of a long frame. */
  lemma LongIs(b: seq<Byte>)
    requires |b| == 2
    ensures (Number(b) == 0xFFFF <==> IsLong(b)) && Number(b) <= 0xFFFF
  {
    assert b[..1][..0] == [];
    assert Number(b[..1]) == b[0];
  }

  lemma SameHead(b: seq<Byte>, data: seq<Byte>)
    requires |b| >= 2
    ensures IsLong(b + data) == IsLong(b) && HeadLen(b + data) == HeadLen(b)
    ensures |b| >= HeadLen(b) ==> BodyLen(b + data) == BodyLen(b) && (b + data)[HeadLen(b)..] == b[HeadLen(b)..] + data
  {
    assert (b + data)[..2] == b[..2];
    if |b| >= 6 { assert (b + data)[2..6] == b[2..6]; }
  }

  class NetMessage {
    var buf: seq<Byte>
    var size: int
    var headSize: int
    var bufStartPos: int
    var curPos: int

    /** A buffer of the pool: its contents are whatever was there before. */
    constructor (pool: seq<Byte>)
      requires |pool| >= 8
      ensures buf == pool && size == -1 && headSize == 2 && curPos == 0 && bufStartPos == 0
    {
      buf := pool;
      size, headSize, curPos, bufStartPos := -1, 2, 0, 0;
    }

    // -------------------------------------------------------------------
    // Writing

    /** The payload written so far, after the room for the longest header. */
    ghost predicate Writing(payload: seq<Byte>)
      reads this
    {
      curPos == 6 + |payload| && curPos <= |buf| && buf[6..curPos] == payload
    }

    /** checkBufSize and MemBuffer::enlarge: doubling keeps all bytes. */
    method CheckBufSize(n: nat)
      requires |buf| > 0 && 0 <= curPos
      modifies this`buf
      ensures curPos + n <= |buf| && |old(buf)| <= |buf| && buf[..|old(buf)|] == old(buf)
    {
      while curPos + n > |buf|
        invariant |old(buf)| <= |buf| && buf[..|old(buf)|] == old(buf) && |buf| > 0
        decreases curPos + n - |buf|
      {
        buf := buf + seq(|buf|, _ => 0);
      }
    }

    /** memcpy at the cursor. */
    method Put(b: seq<Byte>, ghost payload: seq<Byte>)
      requires Writing(payload) && |buf| > 0
      modifies this`buf, this`curPos
      ensures Writing(payload + b)
    {
      CheckBufSize(|b|);
      assert buf[6..curPos] == payload;
      buf := buf[..curPos] + b + buf[curPos + |b|..];
      curPos := curPos + |b|;
      assert buf[6..curPos] == payload + b;
    }

    /** wInt8 to wInt64 and the unsigned ones: byte by byte. */
    method PutNumber(v: int, n: nat, ghost payload: seq<Byte>)
      requires Writing(payload) && |buf| > 0
      modifies this`buf, this`curPos
      ensures Writing(payload + BigEndian(v, n))
    {
      CheckBufSize(n);
      assert buf[6..curPos] == payload;
      var start, k, w := curPos, n, v;
      curPos := curPos + n;
      while k > 0
        invariant 0 <= k <= n && |buf| >= start + n && start >= 6 && buf[6..start] == payload && curPos == start + n
        invariant BigEndian(v, n) == BigEndian(w, k) + buf[start + k..start + n]
      {
        k := k - 1;
        buf := buf[start + k := w % 256];
        assert BigEndian(w, k + 1) == BigEndian(w / 256, k) + [w % 256];
        assert buf[start + k..start + n] == [w % 256] + buf[start + k + 1..start + n];
        w := w / 256;
      }
      assert buf[6..curPos] == buf[6..start] + buf[start..start + n];
    }

    method Write(f: Field, ghost payload: seq<Byte>)
      requires Writing(payload) && |buf| > 0
      modifies this`buf, this`curPos
      ensures Writing(payload + Encode(f))
    {
      match f {
        case Int(v, n) => PutNumber(v, n, payload);
        case UInt(v, n) => PutNumber(v, n, payload);
        case Bool(b) => Put([if b then 1 else 0], payload);
        case Text(s) =>
          PutNumber(|s|, 4, payload);
          Put(s, payload + BigEndian(|s|, 4));
          assert payload + BigEndian(|s|, 4) + s == payload + Encode(f);
        case Raw(s) => Put(s, payload);
      }
    }

    /** beginForWrite, the writes, endForWrite */
    method Build(fs: seq<Field>)
      requires |buf| >= 6 && |EncodeAll(fs)| < 0x8000_0000
      modifies this
      ensures Built(EncodeAll(fs))
    {
      curPos := 6;
      var i := 0;
      assert fs[..0] == [];
      while i < |fs|
        invariant i <= |fs| && Writing(EncodeAll(fs[..i]))
      {
        EncodeAllAt(fs, i);
        Write(fs[i], EncodeAll(fs[..i]));
        i := i + 1;
      }
      assert fs[..i] == fs;
      EndForWrite(EncodeAll(fs));
    }

    /** endForWrite: the header goes right before the payload. */
    method EndForWrite(ghost payload: seq<Byte>)
      requires Writing(payload) && |payload| < 0x8000_0000
      modifies this
      ensures Built(payload)
    {
      size := curPos - 6;
      if size >= 0xFFFF {
        headSize := 6;
        buf := [0xFF, 0xFF] + BigEndian(size, 4) + buf[6..];
        curPos := 0;
      } else {
        headSize := 2;
        buf := buf[..4] + BigEndian(size, 2) + buf[6..];
        curPos := 4;
      }
      bufStartPos := curPos;
      assert buf[6..6 + size] == payload;
      assert buf[bufStartPos..bufStartPos + headSize + size] == Frame(payload);
    }

    /** The message is complete: its frame is in the buffer. */
    ghost predicate Built(payload: seq<Byte>)
      reads this
    {
      && size == |payload| && (headSize == 2 || headSize == 6) && bufStartPos + headSize == 6 && |buf| >= 6 + size
      && buf[bufStartPos..6 + size] == Frame(payload) && curPos == bufStartPos
    }
  
    // -------------------------------------------------------------------
    // Reading

    /** The payload is in the buffer after the header. */
    ghost predicate Has(payload: seq<Byte>)
      reads this
    {
      && 0 <= bufStartPos && 0 <= headSize && bufStartPos + headSize + |payload| <= |buf|
      && buf[bufStartPos + headSize..bufStartPos + headSize + |payload|] == payload
    }

    /** rInt8 to rInt64 and the unsigned ones. */
    method GetNumber(n: nat) returns (u: nat)
      requires 0 <= curPos && curPos + n <= |buf|
      modifies this`curPos
      ensures curPos == old(curPos) + n && u == Number(buf[old(curPos)..curPos])
    {
      u := 0;
      var k := 0;
      while k < n
        invariant k <= n && curPos == old(curPos) + k && u == Number(buf[old(curPos)..curPos])
      {
        u := u * 256 + buf[curPos];
        assert buf[old(curPos)..curPos + 1] == buf[old(curPos)..curPos] + [buf[curPos]];
        curPos := curPos + 1;
        k := k + 1;
      }
    }

    /** rString after its length, and rRaw: nothing for a length that is not
        positive. */
    method GetRaw(n: int) returns (b: seq<Byte>)
      requires 0 <= curPos && curPos + n <= |buf|
      modifies this`curPos
      ensures b == if n <= 0 then [] else buf[old(curPos)..old(curPos) + n]
      ensures curPos == old(curPos) + |b|
    {
      if n <= 0 { return []; }
      b := buf[curPos..curPos + n];
      curPos := curPos + n;
    }

    /** rString */
    method GetText(ghost t: seq<Byte>) returns (b: seq<Byte>)
      requires 0 <= curPos && curPos + 4 + |t| <= |buf| && buf[curPos..curPos + 4] == BigEndian(|t|, 4)
      requires buf[curPos + 4..curPos + 4 + |t|] == t && FitsSigned(|t|, 4)
      modifies this`curPos
      ensures b == t && curPos == old(curPos) + 4 + |t|
    {
      hide BigEndian, Number, FitsSigned;
      var u := GetNumber(4);
      SignedTrip(|t|, 4);
      b := GetRaw(Signed(u, 4));
    }

    /** Reads one field of which only the type is known. */
    method Read(t: FieldType, ghost f: Field) returns (r: Field)
      requires 0 <= curPos && curPos + |Encode(f)| <= |buf| && buf[curPos..curPos + |Encode(f)|] == Encode(f)
      requires TypeOf(f) == t && FieldOK(f)
      modifies this`curPos
      ensures r == f && curPos == old(curPos) + |Encode(f)|
    {
      hide BigEndian, Number, FitsSigned, FitsUnsigned, Signed;
      match t {
        case TInt(n) =>
          var u := GetNumber(n);
          SignedTrip(f.v, n);
          r := Int(Signed(u, n), n);
        case TUInt(n) =>
          var u := GetNumber(n);
          UnsignedTrip(f.v, n);
          r := UInt(u, n);
        case TBool =>
          var b := GetRaw(1);
          assert b == [Encode(f)[0]];
          r := Bool(b[0] != 0);
        case TText =>
          SliceOf(buf, curPos, |Encode(f)|, 0, 4);
          SliceOf(buf, curPos, |Encode(f)|, 4, |f.s|);
          assert Encode(f)[0..4] == BigEndian(|f.s|, 4) && Encode(f)[4..4 + |f.s|] == f.s;
          var b := GetText(f.s);
          r := Text(b);
        case TRaw(n) =>
          var b := GetRaw(n);
          r := Raw(b);
      }
    }

    /** Reading the types of the written fields gives back the fields and
        consumes exactly their bytes. */
    method ReadAll(ts: seq<FieldType>, ghost fs: seq<Field>) returns (rs: seq<Field>)
      requires Has(EncodeAll(fs)) && |ts| == |fs|
      requires forall i :: 0 <= i < |fs| ==> FieldOK(fs[i]) && TypeOf(fs[i]) == ts[i]
      modifies this`curPos
      ensures rs == fs && curPos == bufStartPos + headSize + |EncodeAll(fs)|
    {
      EncodeNone();
      hide Encode, EncodeAll, FieldOK, TypeOf;
      curPos := bufStartPos + headSize;
      ghost var start, all := curPos, EncodeAll(fs);
      rs := [];
      var i := 0;
      assert fs[..0] == [];
      while i < |ts|
        invariant i <= |ts| && rs == fs[..i] && curPos == start + |EncodeAll(fs[..i])|
      {
        EncodeAllAt(fs, i);
        ghost var k, n := |EncodeAll(fs[..i])|, |Encode(fs[i])|;
        SliceOf(buf, start, |all|, k, n);
        var f := Read(ts[i], fs[i]);
        rs := rs + [f];
        i := i + 1;
      }
      assert fs[..i] == fs;
    }

    // -------------------------------------------------------------------
    // Receiving

    /** getReadCap */
    function ReadCap(): int
      reads this
    {
      if size >= 0 then size - curPos + headSize else if size == -1 then 2 else 4
    }

    predicate IsEnd()
      reads this
    {
      size >= 0 && curPos == size + headSize + bufStartPos
    }

    /** The message has taken exactly the bytes b of a frame. */
    ghost predicate Receiving(b: seq<Byte>)
      reads this
    {
      && bufStartPos == 0 && |buf| >= 8
      && (if |b| < 2 then size == -1 && headSize == 2 && curPos == |b| && buf[..curPos] == b
          else if IsLong(b) && |b| < 6 then size == -2 && headSize == 4 && curPos == |b| - 2 && buf[..curPos] == b[2..]
          else && size == BodyLen(b) < 0x8000_0000 && headSize == (if IsLong(b) then 4 else 2)
               && curPos == headSize + |b| - HeadLen(b) <= headSize + size <= |buf|
               && buf[headSize..curPos] == b[HeadLen(b)..])
    }

    /** A read ran past the end of the header, or the length in it is negative
        as an int: the size is never looked at again. */
    ghost predicate Stuck()
      reads this
    {
      bufStartPos == 0 && size < 0 && curPos >= headSize > 0
    }

    /** The bytes that Recv put at the cursor, then onReceive. */
    method Receive(data: seq<Byte>, ghost b: seq<Byte>)
      requires (Receiving(b) || Stuck()) && 0 < |data| <= ReadCap() && 0 <= curPos && curPos + |data| <= |buf|
      modifies this
      ensures old(Receiving(b)) ==>
                if |data| <= Remaining(b) && Sane(b + data) then Receiving(b + data) else Stuck()
      ensures old(Stuck()) ==> Stuck()
    {
      var pos := curPos;
      buf := buf[..pos] + data + buf[pos + |data|..];
      curPos := curPos + |data|;
      OnReceive(b, data);
    }

    /** onReceive, after the cursor has moved */
    method OnReceive(ghost b: seq<Byte>, ghost data: seq<Byte>)
      requires 0 < |data| <= curPos && (Moved(b, data) || (Stuck() && curPos > headSize))
      modifies this
      ensures old(Moved(b, data)) ==>
                if |data| <= Remaining(b) && Sane(b + data) then Receiving(b + data) else Stuck()
      ensures old(Stuck() && curPos > headSize) ==> Stuck()
    {
      if size >= 0 {
        SameHead(b, data);
      } else if size == -1 && curPos == headSize {
        OnHead(b + data);
      } else if size == -2 && curPos == headSize {
        SameHead(b, data);
        assert (b + data)[2..] == buf[..4];
        OnLongHead(b + data);
      } else if |b| >= 2 {
        SameHead(b, data);
        assert (b + data)[2..] == b[2..] + data;
      }
    }

    /** onReceive with the first two bytes. */
    method OnHead(ghost b: seq<Byte>)
      requires bufStartPos == 0 && |buf| >= 8 && |b| == 2 && buf[..2] == b
      modifies this
      ensures Receiving(b)
    {
      var val := Number(buf[..2]);
      LongIs(b);
      if val == 0xFFFF {
        curPos, size, headSize := 0, -2, 4;
        assert buf[..0] == b[2..];
      } else {
        assert b[..2] == b;
        size, headSize, curPos, bufStartPos := val, 2, 2, 0;
        CheckBufSize(size);
      }
    }

    /** onReceive with the four bytes after the mark of a long frame. */
    method OnLongHead(ghost b: seq<Byte>)
      requires bufStartPos == 0 && |buf| >= 8 && headSize == 4 && size == -2 && |b| == 6 && IsLong(b)
                 && buf[..4] == b[2..]
      modifies this
      ensures if Sane(b) then Receiving(b) else Stuck()
    {
      var val: int := Number(buf[..4]);
      NumberBound(buf[..4]);
      assert b[2..6] == b[2..];
      size := if val < 0x8000_0000 then val else val - 0x1_0000_0000;
      curPos, bufStartPos := headSize, 0;
      if size >= 0 { CheckBufSize(size); }
    }

    /** The state between Recv and onReceive. */
    ghost predicate Moved(b: seq<Byte>, data: seq<Byte>)
      reads this
    {
      && bufStartPos == 0 && |buf| >= 8 && 0 <= curPos <= |buf|
      && (if |b| < 2 then size == -1 && headSize == 2 && curPos == |b| + |data| && buf[..curPos] == b + data
          else if IsLong(b) && |b| < 6 then
            size == -2 && headSize == 4 && curPos == |b| - 2 + |data| && buf[..curPos] == b[2..] + data
          else && size == BodyLen(b) < 0x8000_0000 && headSize == (if IsLong(b) then 4 else 2)
               && curPos == headSize + |b| - HeadLen(b) + |data| <= headSize + size <= |buf|
               && buf[headSize..curPos] == b[HeadLen(b)..] + data)
    }
  }

  /** Writing any fields and reading their types back yields the fields. */
  method RoundTrip(pool: seq<Byte>, fs: seq<Field>) returns (rs: seq<Field>)
    requires |pool| >= 8 && |EncodeAll(fs)| < 0x8000_0000 && forall i :: 0 <= i < |fs| ==> FieldOK(fs[i])
    ensures rs == fs
  {
    var m := new NetMessage(pool);
    m.Build(fs);
    BuiltHas(m, EncodeAll(fs));
    rs := m.ReadAll(seq(|fs|, i requires 0 <= i < |fs| => TypeOf(fs[i])), fs);
  }

  lemma EncodeNone()
    ensures EncodeAll([]) == []
  {
  }

  lemma SliceOf(b: seq<Byte>, start: int, len: int, k: int, n: int)
    requires 0 <= start && start + len <= |b| && 0 <= k && 0 <= n && k + n <= len
    ensures b[start + k..start + k + n] == b[start..start + len][k..k + n]
  {
    var l, r := b[start + k..start + k + n], b[start..start + len][k..k + n];
    assert |l| == |r| && forall i :: 0 <= i < |l| ==> l[i] == r[i];
  }

  lemma BuiltHas(m: NetMessage, p: seq<Byte>)
    requires m.Built(p)
    ensures m.Has(p)
  {
    var f := m.buf[m.bufStartPos..6 + m.size];
    assert m.buf[6..6 + m.size] == f[m.headSize..];
    assert f[m.headSize..] == p;
  }
}
