/** A connection: messages leave in the order of the queue, whatever the
    socket takes at a time, and arrive whole, whatever it gives. */
module Connection {
  import opened Options
  import opened Codec
  import opened Message

  function Frames(ps: seq<seq<Byte>>): seq<Byte> {
    if ps == [] then [] else Frames(ps[..|ps| - 1]) + Frame(ps[|ps| - 1])
  }

  predicate Payload(p: seq<Byte>) {
    |p| < 0x8000_0000
  }

  predicate Payloads(ps: seq<seq<Byte>>) {
    forall i :: 0 <= i < |ps| ==> Payload(ps[i])
  }

  lemma {:induction false} FramesAt(ps: seq<seq<Byte>>, i: nat)
    requires i < |ps|
    ensures Frames(ps[..i + 1]) == Frames(ps[..i]) + Frame(ps[i])
    ensures Frames(ps[..i + 1]) <= Frames(ps)
  {
    assert ps[..i + 1][..i] == ps[..i];
    FramesPrefix(ps, i + 1);
  }

  lemma {:induction false} FramesPrefix(ps: seq<seq<Byte>>, i: nat)
    requires i <= |ps|
    ensures Frames(ps[..i]) <= Frames(ps)
    decreases |ps|
  {
    if i < |ps| {
      var qs := ps[..|ps| - 1];
      FramesPrefix(qs, i);
      assert qs[..i] == ps[..i];
    } else {
      assert ps[..i] == ps;
    }
  }

  // ---------------------------------------------------------------------
  // Prefixes of a frame

  lemma FrameHead(p: seq<Byte>)
    requires Payload(p)
    ensures var f := Frame(p);
            && |f| >= HeadLen(f) && |f| == HeadLen(f) + |p| && f[HeadLen(f)..] == p && BodyLen(f) == |p|
            && HeadLen(f) == (if |p| >= 0xFFFF then 6 else 2)
  {
    var f := Frame(p);
    Pow256Values();
    if |p| >= 0xFFFF {
      UnsignedTrip(|p|, 4);
      assert f[2..6] == BigEndian(|p|, 4);
    } else {
      UnsignedTrip(|p|, 2);
      assert f[..2] == BigEndian(|p|, 2);
      LongIs(f[..2]);
    }
  }

  /** While a frame is incomplete, what is lacking is in the frame. */
  lemma PrefixRemaining(p: seq<Byte>, b: seq<Byte>)
    requires Payload(p) && b <= Frame(p)
    ensures Sane(b) && 0 <= Remaining(b) <= |Frame(p)| - |b|
    ensures Remaining(b) == 0 <==> b == Frame(p)
  {
    var f := Frame(p);
    FrameHead(p);
    if |b| >= 2 {
      SameHead(b, f[|b|..]);
      assert f == b + f[|b|..];
    } else {
      assert |f| >= 2;
    }
  }

  ghost predicate Distinct(ms: seq<NetMessage>) {
    forall i, j :: 0 <= i < j < |ms| ==> ms[i] != ms[j]
  }

  /** n bytes of the frame of p have left. */
  ghost predicate Sent(m: NetMessage, p: seq<Byte>, n: nat)
    reads m
  {
    && m.size == |p| && (m.headSize == 2 || m.headSize == 6) && m.bufStartPos + m.headSize == 6 && |m.buf| >= 6 + m.size
    && m.buf[m.bufStartPos..6 + m.size] == Frame(p) && m.curPos == m.bufStartPos + n && n <= |Frame(p)|
  }

  lemma SentAll(m: NetMessage, p: seq<Byte>, n: nat)
    requires Sent(m, p, n)
    ensures |Frame(p)| == m.headSize + m.size && (m.IsEnd() <==> n == |Frame(p)|)
  {
  }

  function Min(a: int, b: int): int {
    if a < b then a else b
  }

  // ---------------------------------------------------------------------
  // What the receive loop reads

  /** How much getReadCap asks for when a message has taken the bytes b. */
  function Ask(b: seq<Byte>): int {
    if |b| < 2 then 2 else if IsLong(b) && |b| < 6 then 4 else Remaining(b)
  }

  function Taken(b: seq<Byte>, stream: seq<Byte>, want: nat): int {
    Min(want, Min(Ask(b), |stream|))
  }

  /** The bytes are those of a whole frame. */
  predicate Whole(b: seq<Byte>) {
    |b| >= HeadLen(b) && Remaining(b) == 0
  }

  /** No read of the schedule crosses the end of a header, if the message that
      is being received has taken the bytes b. */
  predicate Fits(b: seq<Byte>, stream: seq<Byte>, schedule: seq<nat>)
    decreases |schedule|
  {
    if schedule == [] || stream == [] then true
    else
      var n := Taken(b, stream, schedule[0]);
      && 0 < n <= Remaining(b)
      && Fits(if Whole(b + stream[..n]) then [] else b + stream[..n], stream[n..], schedule[1..])
  }

  /** A message that is being received has taken the bytes b: its length, if
      it is known, fits an int, and something is lacking. */
  predicate Part(b: seq<Byte>) {
    Sane(b) && Remaining(b) > 0
  }

  function Body(b: seq<Byte>): seq<Byte>
    requires |b| >= HeadLen(b)
  {
    b[HeadLen(b)..]
  }

  /** What a number of reads comes to: the payloads of the messages that were
      completed, the bytes that the last message has taken, and what was not
      read. If a read crosses the end of a header, or a length does not fit an
      int, ok is false, and part is not used. */
  datatype Reading = Reading(done: seq<seq<Byte>>, part: seq<Byte>, rest: seq<Byte>, ok: bool)

  function Add(done: seq<seq<Byte>>, r: Reading): Reading {
    r.(done := done + r.done)
  }

  /** The meaning of the receive loop, for any bytes. */
  function Read(b: seq<Byte>, stream: seq<Byte>, schedule: seq<nat>): Reading
    decreases |schedule|
  {
    if schedule == [] || stream == [] then Reading([], b, stream, true)
    else
      var n := Taken(b, stream, schedule[0]);
      if n <= 0 then Reading([], b, stream, true)
      else
        var b', rest := b + stream[..n], stream[n..];
        if n > Remaining(b) || !Sane(b') then Reading([], [], rest, false)
        else if Whole(b') then Add([Body(b')], Read([], rest, schedule[1..]))
        else Read(b', rest, schedule[1..])
  }

  /** Every read in a header returns all that is asked for. */
  predicate WholeHeads(b: seq<Byte>, stream: seq<Byte>, schedule: seq<nat>)
    decreases |schedule|
  {
    if schedule == [] || stream == [] then true
    else
      var n := Taken(b, stream, schedule[0]);
      && n > 0 && (|b| < HeadLen(b) ==> n == Ask(b))
      && WholeHeads(if Whole(b + stream[..n]) then [] else b + stream[..n], stream[n..], schedule[1..])
  }

  /** Then no read crosses the end of a header. */
  lemma {:induction false} WholeHeadsFit(b: seq<Byte>, stream: seq<Byte>, schedule: seq<nat>)
    requires WholeHeads(b, stream, schedule) && (b == [] || |b| == 2 || |b| >= HeadLen(b))
    ensures Fits(b, stream, schedule)
    decreases |schedule|
  {
    if schedule != [] && stream != [] {
      var n := Taken(b, stream, schedule[0]);
      if |b| >= 2 { SameHead(b, stream[..n]); }
      WholeHeadsFit(if Whole(b + stream[..n]) then [] else b + stream[..n], stream[n..], schedule[1..]);
    }
  }

  /** A header that comes in two reads: the second crosses its end. */
  lemma CrossingInput()
    ensures Frame([7]) == [0, 1, 7] && !Fits([], Frame([7]), [1, 2])
  {
    assert BigEndian(1, 2) == [0, 1];
    var f, s: seq<nat> := [0, 1, 7], [1, 2];
    assert Taken([], f, s[0]) == 1 && [] + f[..1] == [0] && f[1..] == [1, 7] && s[1..] == [2];
    assert Remaining([0]) == 1 && Taken([0], [1, 7], 2) == 2;
  }

  // ---------------------------------------------------------------------
  // The stream of frames

  lemma {:induction false} FramesCat(a: seq<seq<Byte>>, b: seq<seq<Byte>>)
    ensures Frames(a + b) == Frames(a) + Frames(b)
    decreases |b|
  {
    hide Frame;
    if b == [] {
      assert a + b == a;
    } else {
      var c := b[..|b| - 1];
      assert b == c + [b[|b| - 1]];
      assert (a + b)[..|a + b| - 1] == a + c && (a + b)[|a + b| - 1] == b[|b| - 1];
      FramesCat(a, c);
    }
  }

  lemma FramesFirst(ps: seq<seq<Byte>>)
    requires ps != []
    ensures Frames(ps) == Frame(ps[0]) + Frames(ps[1..])
  {
    hide Frame;
    assert ps == [ps[0]] + ps[1..];
    FramesCat([ps[0]], ps[1..]);
    var one := [ps[0]];
    assert one[..0] == [];
    assert Frames(one) == Frame(ps[0]);
  }

  /** After the bytes b of the first frame comes the stream. */
  ghost predicate Starts(ps: seq<seq<Byte>>, b: seq<Byte>, stream: seq<Byte>) {
    && b + stream <= Frames(ps) && Payloads(ps)
    && (b != [] ==> ps != [] && b < Frame(ps[0]))
  }

  /** The stream and the rest of the frame go together. */
  ghost predicate Agrees(stream: seq<Byte>, b: seq<Byte>, f: seq<Byte>)
    requires |b| <= |f|
  {
    stream <= f[|b|..] || f[|b|..] <= stream
  }

  lemma PrefixesAgree(b: seq<Byte>, stream: seq<Byte>, f: seq<Byte>, rest: seq<Byte>)
    requires b + stream <= f + rest && b <= f
    ensures Agrees(stream, b, f)
  {
    var all := f + rest;
    assert f == b + f[|b|..];
    assert all[|b|..] == f[|b|..] + rest;
    assert stream <= all[|b|..];
  }

  lemma StartsFrame(ps: seq<seq<Byte>>, b: seq<Byte>, stream: seq<Byte>)
    requires Starts(ps, b, stream) && stream != []
    ensures ps != [] && Payload(ps[0]) && b < Frame(ps[0]) && Agrees(stream, b, Frame(ps[0]))
  {
    hide Frame;
    if ps == [] { assert false; }
    FramesFirst(ps);
    FrameLong(ps[0]);
    PrefixesAgree(b, stream, Frame(ps[0]), Frames(ps[1..]));
  }

  /** n bytes further, within the first frame. */
  lemma StartsLater(ps: seq<seq<Byte>>, b: seq<Byte>, stream: seq<Byte>, n: nat)
    requires Starts(ps, b, stream) && n <= |stream| && ps != [] && b + stream[..n] <= Frame(ps[0])
               && b + stream[..n] != []
    ensures if b + stream[..n] == Frame(ps[0]) then Starts(ps[1..], [], stream[n..])
              else Starts(ps, b + stream[..n], stream[n..])
  {
    hide Frame;
    assert b + stream == b + stream[..n] + stream[n..];
    FramesFirst(ps);
    if b + stream[..n] == Frame(ps[0]) {
      CutFront(Frame(ps[0]), stream[n..], Frames(ps[1..]));
      assert [] + stream[n..] == stream[n..];
    }
  }

  lemma CutFront(a: seq<Byte>, b: seq<Byte>, c: seq<Byte>)
    requires a + b <= a + c
    ensures b <= c
  {
    assert b == (a + b)[|a|..] && c == (a + c)[|a|..];
  }

  /** A part of a frame is whole exactly if it is the frame. */
  lemma WholeIs(p: seq<Byte>, b: seq<Byte>)
    requires Payload(p) && b <= Frame(p)
    ensures Whole(b) <==> b == Frame(p)
    ensures b < Frame(p) ==> Remaining(b) > 0 && Ask(b) > 0
  {
    PrefixRemaining(p, b);
    FrameHead(p);
  }

  /** Messages with the payloads qs, and, unless b is empty, one more that has
      taken the bytes b of its frame. */
  ghost predicate Hold(ms: seq<NetMessage>, qs: seq<seq<Byte>>, b: seq<Byte>)
    reads ms
  {
    && |ms| == |qs| + (if b == [] then 0 else 1) && Distinct(ms)
    && (forall i :: 0 <= i < |qs| ==> Holds(ms[i], qs[i]))
    && (b != [] ==> ms[|qs|].Receiving(b))
  }

  /** Messages with the payloads qs, and one that waits for ever. */
  ghost predicate HoldStuck(ms: seq<NetMessage>, qs: seq<seq<Byte>>)
    reads ms
  {
    |ms| == |qs| + 1 && Distinct(ms) && (forall i :: 0 <= i < |qs| ==> Holds(ms[i], qs[i])) && ms[|qs|].Stuck()
  }

  lemma HoldLong(ms: seq<NetMessage>, qs: seq<seq<Byte>>, b: seq<Byte>, stuck: bool)
    requires if stuck then HoldStuck(ms, qs) else Hold(ms, qs, b)
    ensures |ms| >= |qs|
  {
  }

  lemma HoldTail(ms: seq<NetMessage>, qs: seq<seq<Byte>>, b: seq<Byte>, stuck: bool)
    requires qs != [] && if stuck then HoldStuck(ms, qs) else Hold(ms, qs, b)
    ensures ms != [] && FirstAt(ms, ms[0]) == 0 && ms[0] !in ms[1..]
    ensures if stuck then HoldStuck(ms[1..], qs[1..]) else Hold(ms[1..], qs[1..], b)
    ensures Holds(ms[0], qs[0])
  {
    hide Holds, NetMessage.Receiving, NetMessage.Stuck, FirstAt, Distinct;
    FirstIsHead(ms);
    var rest := ms[1..];
    assert forall i :: 0 <= i < |rest| ==> rest[i] == ms[i + 1];
  }

  lemma FirstIsHead(ms: seq<NetMessage>)
    requires ms != []
    ensures FirstAt(ms, ms[0]) == 0 && (Distinct(ms) ==> Distinct(ms[1..]) && ms[0] !in ms[1..])
  {
  }

  ghost function FirstAt(ms: seq<NetMessage>, m: NetMessage): (i: nat)
    requires m in ms
    ensures i < |ms| && ms[i] == m && m !in ms[..i]
  {
    if ms[0] == m then 0 else 1 + FirstAt(ms[1..], m)
  }

  class Connection {
    var sendList: seq<NetMessage>
    var recvList: seq<NetMessage>

    constructor ()
      ensures sendList == [] && recvList == []
    {
      sendList, recvList := [], [];
    }

    /** SendMsg */
    method SendMsg(msg: NetMessage)
      modifies this`sendList, msg`curPos
      ensures sendList == old(sendList) + [msg] && msg.curPos == msg.bufStartPos
    {
      msg.curPos := msg.bufStartPos;
      sendList := sendList + [msg];
    }

    /** The inner send loop of Update: one message, in pieces. The schedule
        says how much the socket takes at each call. */
    method SendOne(msg: NetMessage, schedule: seq<nat>, k0: nat, ghost p: seq<Byte>) returns (out: seq<Byte>, k: nat)
      requires Sent(msg, p, 0) && k0 <= |schedule|
      modifies msg`curPos
      ensures k0 <= k <= |schedule| && |out| <= |Frame(p)| && out == Frame(p)[..|out|] && Sent(msg, p, |out|)
      ensures msg.IsEnd() || k == |schedule|
      ensures (forall i :: 0 <= i < |schedule| ==> schedule[i] > 0) ==> |out| >= k - k0
    {
      out, k := [], k0;
      while !msg.IsEnd() && k < |schedule|
        invariant k0 <= k <= |schedule| && |out| <= |Frame(p)| && out == Frame(p)[..|out|] && Sent(msg, p, |out|)
        invariant (forall i :: 0 <= i < |schedule| ==> schedule[i] > 0) ==> |out| >= k - k0
        decreases |schedule| - k
      {
        SentAll(msg, p, |out|);
        var cap := msg.size - msg.curPos + msg.bufStartPos + msg.headSize;
        var n := Min(schedule[k], cap);
        ghost var f, o := Frame(p), |out|;
        SliceOf(msg.buf, msg.bufStartPos, |f|, o, n);
        assert f[..o + n] == f[..o] + f[o..o + n];
        out := out + msg.buf[msg.curPos..msg.curPos + n];
        msg.curPos := msg.curPos + n;
        k := k + 1;
      }
    }

    /** The send loop of Update: the wire gets the frames of the queue, in
        order, up to where the schedule ends. */
    method SendLoop(schedule: seq<nat>, ghost ps: seq<seq<Byte>>) returns (wire: seq<Byte>, ghost done: nat)
      requires |sendList| == |ps| && Distinct(sendList) && forall i :: 0 <= i < |ps| ==> Sent(sendList[i], ps[i], 0)
      modifies this`sendList, sendList
      ensures wire <= Frames(ps) && done <= |ps| && sendList == old(sendList)[done..]
      ensures Frames(ps[..done]) <= wire && (sendList == [] ==> wire == Frames(ps))
      ensures (forall i :: 0 <= i < |schedule| ==> schedule[i] > 0) ==> sendList == [] || |wire| >= |schedule|
    {
      hide Sent, Frame;
      wire, done := [], 0;
      var k := 0;
      assert ps[..0] == [];
      EmptyFrames();
      hide Frames;
      while sendList != []
        invariant done <= |ps| && sendList == old(sendList)[done..] && wire == Frames(ps[..done]) && k <= |schedule|
        invariant forall i :: done <= i < |ps| ==> Sent(old(sendList)[i], ps[i], 0)
        invariant (forall i :: 0 <= i < |schedule| ==> schedule[i] > 0) ==> |wire| >= k
        decreases |sendList|
      {
        var msg := sendList[0];
        assert msg == old(sendList)[done];
        var out;
        out, k := SendOne(msg, schedule, k, ps[done]);
        FramesAt(ps, done);
        PartOf(Frames(ps[..done]), Frame(ps[done]), |out|, Frames(ps));
        wire := wire + out;
        SentAll(msg, ps[done], |out|);
        if !msg.IsEnd() { return; }
        assert out == Frame(ps[done]);
        sendList := sendList[1..];
        done := done + 1;
      }
      assert ps[..done] == ps;
    }

    // -------------------------------------------------------------------
    // Receiving

    /** What the receive list holds while no read crossed a header. */
    ghost predicate Holding(qs: seq<seq<Byte>>, b: seq<Byte>)
      reads this, recvList
    {
      Hold(recvList, qs, b)
    }

    /** What it holds after that. */
    ghost predicate StuckAfter(qs: seq<seq<Byte>>)
      reads this, recvList
    {
      HoldStuck(recvList, qs)
    }

    /** The message that the next read goes to, if it is in the list already. */
    ghost function Last(): set<NetMessage>
      reads this
    {
      if recvList != [] then {recvList[|recvList| - 1]} else {}
    }

    ghost function First(): set<NetMessage>
      reads this
    {
      if recvList != [] then {recvList[0]} else {}
    }

    /** The choice of the message to read into: the last one, or a new one if
        that is complete. */
    method Current(ghost qs: seq<seq<Byte>>, ghost b: seq<Byte>, ghost stuck: bool) returns (msg: NetMessage)
      requires if stuck then StuckAfter(qs) else Holding(qs, b) && Part(b)
      modifies this`recvList
      ensures |recvList| == |qs| + 1 && Distinct(recvList) && recvList[|qs|] == msg
      ensures recvList[..|qs|] == old(recvList)[..|qs|] && forall i :: 0 <= i < |qs| ==> Holds(recvList[i], qs[i])
      ensures if stuck then msg.Stuck() else msg.Receiving(b)
      ensures if b == [] && !stuck then fresh(msg) else recvList == old(recvList)
    {
      hide NetMessage.Receiving, Part;
      if !stuck {
        if b == [] && qs != [] { HoldsEnds(recvList[|qs| - 1], qs[|qs| - 1]); }
        if b != [] { ReceivingCap(recvList[|qs|], b); }
      }
      if recvList != [] && !recvList[|recvList| - 1].IsEnd() {
        msg := recvList[|recvList| - 1];
      } else {
        msg := new NetMessage(seq(512, _ => 0));
        NewReceives(msg);
        recvList := recvList + [msg];
      }
    }

    /** One pass of the receive loop. At most what getReadCap asks for is read;
        n == 0 stands for a stuck message whose buffer is full. */
    method ReceiveOne(stream: seq<Byte>, want: nat, ghost qs: seq<seq<Byte>>, ghost b: seq<Byte>, ghost stuck: bool)
      returns (n: nat)
      requires stream != [] && want > 0
      requires if stuck then StuckAfter(qs) else Holding(qs, b) && Part(b)
      modifies this`recvList, Last()
      ensures n <= |stream| && |recvList| == |qs| + 1 && |old(recvList)| >= |qs|
                && recvList[..|qs|] == old(recvList)[..|qs|]
      ensures if b == [] && !stuck then fresh(recvList[|qs|]) else recvList == old(recvList)
      ensures !stuck ==> n == Taken(b, stream, want) > 0
      ensures var b' := b + stream[..n];
              if stuck || n > Remaining(b) || !Sane(b') then StuckAfter(qs)
              else if Whole(b') then Holding(qs + [Body(b')], []) else Holding(qs, b') && Part(b')
    {
      hide Remaining, NetMessage.Receiving, NetMessage.Stuck, Holds, Part, Sane, Whole;
      var msg := Current(qs, b, stuck);
      if !stuck { ReceivingCap(msg, b); } else { StuckCap(msg); }
      n := Min(want, Min(msg.ReadCap(), |stream|));
      if msg.curPos + n > |msg.buf| { return 0; }
      msg.Receive(stream[..n], b);
      ghost var b' := b + stream[..n];
      if !stuck && n <= Remaining(b) && Sane(b') {
        PartStep(b, stream[..n]);
        if Whole(b') { Arrived(msg, b'); }
      }
    }

    /** The receive loop of Update on the bytes that are there to be read; the
        schedule says how much the socket gives at each call. The list holds
        what Read says. From the first read that crosses the end of a header,
        or that brings a negative length, its last message waits for ever. */
    method ReceiveLoop(stream: seq<Byte>, schedule: seq<nat>, ghost qs: seq<seq<Byte>>, ghost b0: seq<Byte>,
                       ghost stuck0: bool)
      returns (off: nat)
      requires if stuck0 then StuckAfter(qs) else Holding(qs, b0) && Part(b0)
      requires forall i :: 0 <= i < |schedule| ==> schedule[i] > 0
      modifies this`recvList, Last()
      ensures off <= |stream| && |recvList| >= |qs| && |old(recvList)| >= |qs|
      ensures forall m :: m in recvList ==> fresh(m) || m in old(recvList)
      ensures recvList[..|qs|] == old(recvList[..|qs|])
      ensures stuck0 ==> StuckAfter(qs)
      ensures !stuck0 ==>
                var r := Read(b0, stream, schedule);
                if r.ok then Holding(qs + r.done, r.part) && Part(r.part) && stream[off..] == r.rest
                             && (off == |stream| || off >= |schedule|)
                else StuckAfter(qs + r.done)
    {
      hide Hold, HoldStuck, Read, Taken, Part, Whole, Body, Remaining, Sane, SoFar;
      off := 0;
      var k := 0;
      ghost var stuck, done, b := stuck0, [], b0;
      HoldLong(recvList, qs, b0, stuck0);
      ReadStart(qs, b0, stream, schedule, stuck0);
      while k < |schedule| && off < |stream|
        invariant k <= |schedule| && off <= |stream| && (stuck || k <= off)
        invariant |recvList| >= |qs| && |old(recvList)| >= |qs| && recvList[..|qs|] == old(recvList[..|qs|])
        invariant forall m :: m in recvList ==> fresh(m) || m in old(recvList)
        invariant if stuck then StuckAfter(qs + done) else Holding(qs + done, b) && Part(b)
        invariant SoFar(b0, stream, schedule, stuck0, done, b, stuck, off, k)
        invariant forall m :: m in Last() ==> fresh(m) || m in old(Last())
        decreases |schedule| - k
      {
        var n := ReceiveOne(stream[off..], schedule[k], qs + done, b, stuck);
        if n == 0 { break; }
        stuck, done, b := ReadStep(qs, b0, stream, schedule, stuck0, done, b, stuck, off, k, n);
        off := off + n;
        k := k + 1;
      }
      ReadEnd(qs, b0, stream, schedule, stuck0, done, b, stuck, off, k);
    }

    /** getMsg */
    method GetMsg() returns (msg: NetMessage?)
      ensures msg == if recvList == [] then null else recvList[0]
    {
      msg := if recvList == [] then null else recvList[0];
    }

    /** RemoveMsg: the first occurrence leaves the list. */
    method RemoveMsg(msg: NetMessage)
      modifies this`recvList
      ensures msg !in old(recvList) ==> recvList == old(recvList)
      ensures msg in old(recvList) ==>
                var i := FirstAt(old(recvList), msg);
                recvList == old(recvList)[..i] + old(recvList)[i + 1..]
    {
      var i := 0;
      while i < |recvList|
        invariant i <= |recvList| && recvList == old(recvList) && msg !in recvList[..i]
      {
        assert recvList[..i + 1] == recvList[..i] + [recvList[i]];
        if recvList[i] == msg {
          recvList := recvList[..i] + recvList[i + 1..];
          return;
        }
        i := i + 1;
      }
    }

    /** HasPendingMsg: what a program can ask before it loads a message. */
    method HasPendingMsg() returns (r: bool)
      ensures r <==> recvList != [] && recvList[0].IsEnd()
    {
      var msg := GetMsg();
      r := msg != null && msg.IsEnd();
    }

    /** LoadMsg takes the first message, complete or not. With an empty list
        the source goes on with a null pointer. */
    method Load() returns (msg: NetMessage?)
      modifies this`recvList, First()`curPos
      ensures msg == if old(recvList) == [] then null else old(recvList)[0]
      ensures recvList == if old(recvList) == [] then [] else old(recvList)[1..]
      ensures msg != null ==> msg.curPos == msg.bufStartPos + msg.headSize
    {
      msg := GetMsg();
      if msg == null { return; }
      FirstIsHead(recvList);
      RemoveMsg(msg);
      msg.curPos := msg.bufStartPos + msg.headSize;
    }
  }

  lemma EmptyFrames()
    ensures Frames([]) == []
  {
  }

  lemma PartOf(a: seq<Byte>, f: seq<Byte>, n: nat, all: seq<Byte>)
    requires a + f <= all && n <= |f|
    ensures a + f[..n] <= all
  {
  }

  lemma NextPart(stream: seq<Byte>, n: nat, f: seq<Byte>, b: seq<Byte>)
    requires b <= f && n <= |stream| && |b| + n <= |f| && Agrees(stream, b, f)
    ensures b + stream[..n] <= f
  {
    assert f == b + f[|b|..];
    assert stream[..n] == f[|b|..][..n];
  }

  /** How much of the frame a message asks for. */
  lemma ReceivingCap(m: NetMessage, b: seq<Byte>)
    requires m.Receiving(b)
    ensures m.ReadCap() == Ask(b) && m.curPos >= 0 && m.curPos + Ask(b) <= |m.buf|
    ensures Part(b) ==> Ask(b) > 0 && !m.IsEnd()
  {
  }

  lemma PartNone()
    ensures Part([])
  {
  }

  /** A read that crosses nothing leaves a part or a whole. */
  lemma PartStep(b: seq<Byte>, data: seq<Byte>)
    requires Part(b) && |data| <= Remaining(b) && Sane(b + data)
    ensures Whole(b + data) || Part(b + data)
  {
    if |b| >= 2 { SameHead(b, data); }
  }

  /** A complete message with this payload. */
  ghost predicate Holds(m: NetMessage, p: seq<Byte>)
    reads m
  {
    m.IsEnd() && m.size == |p| && m.Has(p)
  }

  lemma HoldsEnds(m: NetMessage, p: seq<Byte>)
    requires Holds(m, p)
    ensures m.IsEnd()
  {
  }

  lemma HoldsPayload(m: NetMessage, p: seq<Byte>)
    requires Holds(m, p)
    ensures m.IsEnd() && m.Has(p) && 0 <= m.bufStartPos + m.headSize <= m.bufStartPos + m.headSize + m.size <= |m.buf|
    ensures m.buf[m.bufStartPos + m.headSize..m.bufStartPos + m.headSize + m.size] == p
  {
  }

  lemma Arrived(m: NetMessage, b: seq<Byte>)
    requires Whole(b) && m.Receiving(b)
    ensures Holds(m, Body(b))
  {
  }

  lemma FrameLong(p: seq<Byte>)
    ensures |Frame(p)| >= 2
  {
  }

  lemma NewReceives(m: NetMessage)
    requires |m.buf| >= 8 && m.size == -1 && m.headSize == 2 && m.curPos == 0 && m.bufStartPos == 0
    ensures m.Receiving([])
  {
  }

  lemma StuckCap(m: NetMessage)
    requires m.Stuck()
    ensures m.ReadCap() > 0 && m.curPos > 0 && !m.IsEnd()
  {
  }

  // ---------------------------------------------------------------------
  // The receive loop

  /** Where the receive loop is: the first k reads took off bytes. */
  predicate SoFar(b0: seq<Byte>, stream: seq<Byte>, schedule: seq<nat>, stuck0: bool,
                  done: seq<seq<Byte>>, b: seq<Byte>, stuck: bool, off: nat, k: nat)
  {
    && off <= |stream| && k <= |schedule| && (stuck0 ==> stuck && done == [])
    && (!stuck ==> Read(b0, stream, schedule) == Add(done, Read(b, stream[off..], schedule[k..])))
    && (stuck && !stuck0 ==> !Read(b0, stream, schedule).ok && Read(b0, stream, schedule).done == done)
  }

  lemma ReadStart(qs: seq<seq<Byte>>, b: seq<Byte>, stream: seq<Byte>, schedule: seq<nat>, stuck: bool)
    ensures qs + [] == qs && SoFar(b, stream, schedule, stuck, [], b, stuck, 0, 0)
  {
    assert stream[0..] == stream && schedule[0..] == schedule;
  }

  lemma ReadStep(qs: seq<seq<Byte>>, b0: seq<Byte>, stream: seq<Byte>, schedule: seq<nat>, stuck0: bool,
                 done: seq<seq<Byte>>, b: seq<Byte>, stuck: bool, off: nat, k: nat, n: nat)
    returns (stuck': bool, done': seq<seq<Byte>>, b': seq<Byte>)
    requires SoFar(b0, stream, schedule, stuck0, done, b, stuck, off, k)
    requires off < |stream| && k < |schedule| && 0 < n <= |stream[off..]|
    requires !stuck ==> n == Taken(b, stream[off..], schedule[k])
    ensures SoFar(b0, stream, schedule, stuck0, done', b', stuck', off + n, k + 1)
    ensures var taken := b + stream[off..][..n];
            && stuck' == (stuck || n > Remaining(b) || !Sane(taken))
            && if stuck' then done' == done
               else if Whole(taken)
               then |taken| >= HeadLen(taken) && qs + done' == qs + done + [Body(taken)] && b' == []
               else done' == done && b' == taken
    ensures Part([])
  {
    var taken := b + stream[off..][..n];
    assert stream[off..][n..] == stream[off + n..];
    assert schedule[k..][0] == schedule[k] && schedule[k..][1..] == schedule[k + 1..];
    stuck', done', b' := stuck || n > Remaining(b) || !Sane(taken), done, taken;
    if !stuck' && Whole(taken) {
      done', b' := done + [Body(taken)], [];
    }
  }

  lemma ReadEnd(qs: seq<seq<Byte>>, b0: seq<Byte>, stream: seq<Byte>, schedule: seq<nat>, stuck0: bool,
                done: seq<seq<Byte>>, b: seq<Byte>, stuck: bool, off: nat, k: nat)
    requires SoFar(b0, stream, schedule, stuck0, done, b, stuck, off, k)
    ensures stuck0 ==> stuck && qs + done == qs
    ensures !stuck && (off == |stream| || k == |schedule|) ==>
              Read(b0, stream, schedule) == Reading(done, b, stream[off..], true)
    ensures stuck && !stuck0 ==> !Read(b0, stream, schedule).ok && Read(b0, stream, schedule).done == done
  {
    assert done + [] == done && qs + [] == qs;
  }

  /** On a stream of frames the completed messages are the payloads, and
      nothing but a read that crosses the end of a header goes wrong. */
  lemma {:induction false} ReadFrames(ps: seq<seq<Byte>>, b: seq<Byte>, stream: seq<Byte>, schedule: seq<nat>)
    requires Starts(ps, b, stream) && forall i :: 0 <= i < |schedule| ==> schedule[i] > 0
    ensures var r := Read(b, stream, schedule);
            && |r.done| <= |ps| && r.done == ps[..|r.done|] && r.ok == Fits(b, stream, schedule)
            && (r.ok ==> Starts(ps[|r.done|..], r.part, r.rest) && b + stream == Frames(r.done) + r.part + r.rest)
    decreases |schedule|
  {
    hide Frame, Frames, Starts, Remaining;
    assert ps[0..] == ps && ps[..0] == [];
    EmptyFrames();
    if schedule == [] || stream == [] {
      assert b + stream == [] + b + stream;
    } else {
      StartsFrame(ps, b, stream);
      WholeIs(ps[0], b);
      var n := Taken(b, stream, schedule[0]);
      if n <= Remaining(b) { ReadFrame(ps, b, stream, schedule, n); }
    }
  }

  lemma {:induction false} ReadFrame(ps: seq<seq<Byte>>, b: seq<Byte>, stream: seq<Byte>, schedule: seq<nat>, n: nat)
    requires Starts(ps, b, stream) && forall i :: 0 <= i < |schedule| ==> schedule[i] > 0
    requires schedule != [] && stream != [] && ps != [] && Payload(ps[0]) && b < Frame(ps[0])
    requires Agrees(stream, b, Frame(ps[0])) && n == Taken(b, stream, schedule[0]) <= |stream|
    requires 0 < n <= Remaining(b)
    ensures var r := Read(b, stream, schedule);
            && |r.done| <= |ps| && r.done == ps[..|r.done|] && r.ok == Fits(b, stream, schedule)
            && (r.ok ==> Starts(ps[|r.done|..], r.part, r.rest) && b + stream == Frames(r.done) + r.part + r.rest)
    decreases |schedule|, 0
  {
    hide Frame, Frames, Starts, Remaining, Sane, Read, Fits, Taken, Whole, Body, IsLong, BodyLen, Agrees;
    var p, b', rest := ps[0], b + stream[..n], stream[n..];
    ReadFirst(b, stream, schedule, n);
    PrefixRemaining(p, b);
    NextPart(stream, n, Frame(p), b);
    PrefixRemaining(p, b');
    WholeIs(p, b');
    StartsLater(ps, b, stream, n);
    assert b + stream == b' + rest;
    if b' == Frame(p) {
      ReadFrames(ps[1..], [], rest, schedule[1..]);
      BodyIs(p);
      var r := Read([], rest, schedule[1..]);
      assert [p] + r.done == ps[..1 + |r.done|];
      FramesFirst([p] + r.done);
      assert ([p] + r.done)[1..] == r.done;
      if r.ok {
        assert ps[1..][|r.done|..] == ps[1 + |r.done|..];
        CatFront(Frame(p), rest, Frames(r.done), r.part, r.rest);
      }
    } else {
      ReadFrames(ps, b', rest, schedule[1..]);
    }
  }

  lemma ReadFirst(b: seq<Byte>, stream: seq<Byte>, schedule: seq<nat>, n: nat)
    requires stream != [] && schedule != [] && n == Taken(b, stream, schedule[0]) && 0 < n <= Remaining(b)
    ensures var b', rest := b + stream[..n], stream[n..];
            && (Sane(b') && Whole(b') ==>
                  && |b'| >= HeadLen(b') && Read(b, stream, schedule) == Add([Body(b')], Read([], rest, schedule[1..]))
                  && Fits(b, stream, schedule) == Fits([], rest, schedule[1..]))
            && (Sane(b') && !Whole(b') ==>
                  && Read(b, stream, schedule) == Read(b', rest, schedule[1..])
                  && Fits(b, stream, schedule) == Fits(b', rest, schedule[1..]))
  {
  }

  lemma CatFront(a: seq<Byte>, rest: seq<Byte>, c: seq<Byte>, d: seq<Byte>, e: seq<Byte>)
    requires [] + rest == c + d + e
    ensures a + rest == (a + c) + d + e
  {
    assert [] + rest == rest;
  }

  lemma BodyIs(p: seq<Byte>)
    requires Payload(p)
    ensures |Frame(p)| >= HeadLen(Frame(p)) && Body(Frame(p)) == p
  {
    FrameHead(p);
  }

  /** Messages that one end builds and sends arrive at the other end, in order
      and with the same payloads, whatever the socket takes and gives, unless
      a read crosses the end of a header. */
  method Transfer(sender: Connection, receiver: Connection, takes: seq<nat>, gives: seq<nat>, ghost ps: seq<seq<Byte>>)
    returns (wire: seq<Byte>, ghost done: nat, ghost b: seq<Byte>)
    requires |sender.sendList| == |ps| && Distinct(sender.sendList) && receiver.recvList == [] && sender != receiver
    requires forall i :: 0 <= i < |ps| ==> Payload(ps[i]) && Sent(sender.sendList[i], ps[i], 0)
    requires forall i :: 0 <= i < |gives| ==> gives[i] > 0
    modifies sender`sendList, sender.sendList, receiver`recvList
    ensures wire <= Frames(ps) && done <= |ps| && (sender.sendList == [] ==> wire == Frames(ps))
    ensures Fits([], wire, gives) ==> receiver.Holding(ps[..done], b)
    ensures Fits([], wire, gives) && sender.sendList == [] && |gives| >= |wire| ==> done == |ps| && b == []
    ensures !Fits([], wire, gives) ==> receiver.StuckAfter(ps[..done])
  {
    hide Sent, Frames, Payload, Fits;
    ghost var sent;
    wire, sent := sender.SendLoop(takes, ps);
    assert [] + wire == wire;
    PartNone();
    var off := receiver.ReceiveLoop(wire, gives, [], [], false);
    ReadFrames(ps, [], wire, gives);
    ghost var r := Read([], wire, gives);
    done, b := |r.done|, r.part;
    assert [] + r.done == r.done;
    if r.ok && off == |Frames(ps)| { AllArrived(ps, done, b); }
  }

  lemma AllArrived(ps: seq<seq<Byte>>, done: nat, b: seq<Byte>)
    requires done <= |ps| && Frames(ps) == Frames(ps[..done]) + b && (b != [] ==> done < |ps| && b < Frame(ps[done]))
    ensures done == |ps| && b == []
  {
    hide Frame;
    if done < |ps| {
      FramesAt(ps, done);
      FrameLong(ps[done]);
    } else {
      assert ps[..done] == ps;
    }
  }
}
