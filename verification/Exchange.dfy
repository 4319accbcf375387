/** Fields from one end of a connection to the other: written into messages,
    sent, received, loaded and read. */
module Exchange {
  import opened Codec
  import opened Message
  import opened Connection
  import opened ConnectionRuns

  function Encoded(fss: seq<seq<Field>>): (ps: seq<seq<Byte>>)
    ensures |ps| == |fss| && forall i :: 0 <= i < |fss| ==> ps[i] == EncodeAll(fss[i])
  {
    seq(|fss|, i requires 0 <= i < |fss| => EncodeAll(fss[i]))
  }

  predicate Sendable(fs: seq<Field>) {
    Payload(EncodeAll(fs)) && forall i :: 0 <= i < |fs| ==> FieldOK(fs[i])
  }

  predicate Typed(fs: seq<Field>, ts: seq<FieldType>) {
    |ts| == |fs| && forall i :: 0 <= i < |fs| ==> TypeOf(fs[i]) == ts[i]
  }

  /** Builds the messages and puts them in the queue. */
  method SendAll(sender: Connection, fss: seq<seq<Field>>)
    requires sender.sendList == [] && forall i :: 0 <= i < |fss| ==> Sendable(fss[i])
    modifies sender`sendList
    ensures |sender.sendList| == |fss| && Distinct(sender.sendList) && fresh(sender.sendList)
    ensures forall i :: 0 <= i < |fss| ==> Sent(sender.sendList[i], EncodeAll(fss[i]), 0)
  {
    hide EncodeAll, Frame, FieldOK;
    var i := 0;
    while i < |fss|
      invariant i <= |fss| && |sender.sendList| == i && Distinct(sender.sendList) && fresh(sender.sendList)
      invariant forall j :: 0 <= j < i ==> Sent(sender.sendList[j], EncodeAll(fss[j]), 0)
    {
      var msg := new NetMessage(seq(512, _ => 0));
      msg.Build(fss[i]);
      sender.SendMsg(msg);
      i := i + 1;
    }
  }

  /** Loads and reads messages as long as there is a complete one. */
  method ReadMessages(receiver: Connection, tss: seq<seq<FieldType>>, ghost s: State, ghost fss: seq<seq<Field>>)
    returns (rss: seq<seq<Field>>)
    requires Is(receiver, s, if s.Going? then s.waiting else []) && !s.Broken? && |s.queue| <= |fss| == |tss|
    requires forall i :: 0 <= i < |s.queue| ==> s.queue[i] == EncodeAll(fss[i])
    requires forall i :: 0 <= i < |fss| ==> Sendable(fss[i]) && Typed(fss[i], tss[i])
    modifies receiver`recvList, (set m | m in receiver.recvList)
    ensures rss == fss[..|s.queue|]
  {
    hide EncodeAll, FieldOK, Holds, Hold, HoldStuck, Part;
    rss := [];
    ghost var s1, waiting := s, if s.Going? then s.waiting else [];
    while true
      invariant |rss| <= |s.queue| && rss == fss[..|rss|] && s1 == s.(queue := s.queue[|rss|..])
      invariant Is(receiver, s1, waiting)
      invariant forall m :: m in receiver.recvList ==> m in old(receiver.recvList)
      decreases |s.queue| - |rss|
    {
      FirstOf(receiver, s1, waiting);
      var pending := receiver.HasPendingMsg();
      if !pending { break; }
      var n := |rss|;
      HoldsPayload(receiver.recvList[0], s.queue[n]);
      assert forall m :: m in receiver.First() ==> m in receiver.recvList;
      var msg := receiver.Load();
      var fs := msg.ReadAll(tss[n], fss[n]);
      rss := rss + [fs];
      s1 := s.(queue := s.queue[n + 1..]);
    }
  }

  /** The socket takes and gives n bytes, whatever it does at a time. */
  predicate Enough(takes: seq<nat>, gives: seq<nat>, n: nat) {
    |takes| > n && |gives| >= n && forall i :: 0 <= i < |takes| ==> takes[i] > 0
  }

  /** The fields written at one end are read at the other, message by message:
      a message for every frame that the reads complete, and all of them if the
      schedules are long enough and no read crosses the end of a header. */
  method Exchange(fss: seq<seq<Field>>, tss: seq<seq<FieldType>>, takes: seq<nat>, gives: seq<nat>)
    returns (rss: seq<seq<Field>>, wire: seq<Byte>)
    requires forall i :: 0 <= i < |fss| ==> Sendable(fss[i])
    requires |tss| == |fss| && forall i :: 0 <= i < |fss| ==> Typed(fss[i], tss[i])
    requires forall i :: 0 <= i < |gives| ==> gives[i] > 0
    ensures wire <= Frames(Encoded(fss))
    ensures |Read([], wire, gives).done| <= |fss| && rss == fss[..|Read([], wire, gives).done|]
    ensures Enough(takes, gives, |Frames(Encoded(fss))|) && Fits([], Frames(Encoded(fss)), gives) ==> rss == fss
  {
    hide EncodeAll, Frames, FieldOK, Read, Fits;
    wire := SendSide(fss, takes);
    rss := ReceiveSide(wire, gives, tss, fss);
  }

  method SendSide(fss: seq<seq<Field>>, takes: seq<nat>) returns (wire: seq<Byte>)
    requires forall i :: 0 <= i < |fss| ==> Sendable(fss[i])
    ensures wire <= Frames(Encoded(fss))
    ensures |takes| > |Frames(Encoded(fss))| && (forall i :: 0 <= i < |takes| ==> takes[i] > 0) ==>
              wire == Frames(Encoded(fss))
  {
    hide EncodeAll, Frames, FieldOK, Sent, Payload;
    var sender := new Connection();
    SendAll(sender, fss);
    ghost var sent;
    wire, sent := sender.SendLoop(takes, Encoded(fss));
  }

  method ReceiveSide(wire: seq<Byte>, gives: seq<nat>, tss: seq<seq<FieldType>>, ghost fss: seq<seq<Field>>)
    returns (rss: seq<seq<Field>>)
    requires wire <= Frames(Encoded(fss)) && forall i :: 0 <= i < |gives| ==> gives[i] > 0
    requires |tss| == |fss| && forall i :: 0 <= i < |fss| ==> Sendable(fss[i]) && Typed(fss[i], tss[i])
    ensures |Read([], wire, gives).done| <= |fss| && rss == fss[..|Read([], wire, gives).done|]
    ensures wire == Frames(Encoded(fss)) && Fits([], wire, gives) && |gives| >= |wire| ==> rss == fss
  {
    hide EncodeAll, Frames, Frame, FieldOK, Read, Fits, Part, Hold, HoldStuck, Payload;
    ghost var ps, r := Encoded(fss), Read([], wire, gives);
    AllPayloads(fss);
    assert [] + wire == wire;
    ReadFrames(ps, [], wire, gives);
    var receiver := new Connection();
    NothingHeld(receiver);
    var off := receiver.ReceiveLoop(wire, gives, [], [], false);
    assert [] + r.done == r.done;
    assert forall m :: m in receiver.recvList ==> fresh(m);
    rss := ReadMessages(receiver, tss, if r.ok then Going(r.done, r.part, r.rest) else Jammed(r.done), fss);
    if wire == Frames(ps) && r.ok && off == |wire| {
      assert wire[off..] == [];
      AllRead(ps, r);
      assert fss[..|fss|] == fss;
    }
  }

  lemma AllRead(ps: seq<seq<Byte>>, r: Reading)
    requires |r.done| <= |ps| && r.done == ps[..|r.done|] && r.rest == []
    requires Starts(ps[|r.done|..], r.part, r.rest) && [] + Frames(ps) == Frames(r.done) + r.part + r.rest
    ensures |r.done| == |ps|
  {
    hide Frame, Frames;
    assert [] + Frames(ps) == Frames(ps) && Frames(r.done) + r.part + [] == Frames(r.done) + r.part;
    AllArrived(ps, |r.done|, r.part);
  }

  lemma AllPayloads(fss: seq<seq<Field>>)
    requires forall i :: 0 <= i < |fss| ==> Sendable(fss[i])
    ensures Payloads(Encoded(fss))
  {
  }
}
