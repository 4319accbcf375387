/** A receiving connection over many updates, with messages loaded between
    them at any time. */
module ConnectionRuns {
  import opened Codec
  import opened Message
  import opened Connection

  /** Bytes arrive and Update reads as much of them as the schedule says; the
      program loads the first message, or it asks hasPendingMsg and loads the
      message if there is one. */
  datatype Event = Arrive(bytes: seq<Byte>, schedule: seq<nat>) | LoadMsg | PollMsg

  /** What a load brings: the payload of a complete message, or a message of
      which only a part has arrived. */
  datatype Got = Complete(p: seq<Byte>) | Early

  /** The payloads in the receive list, what has been taken of one more message
      and what waits to be read. Jammed: that message is stuck. Broken: nothing
      is known any more, after a load from an empty list, which follows a null
      pointer, and after a load of the stuck message. */
  datatype State = Going(queue: seq<seq<Byte>>, part: seq<Byte>, waiting: seq<Byte>)
                 | Jammed(queue: seq<seq<Byte>>) | Broken

  function Next(s: State, e: Event): (State, seq<Got>) {
    if s.Broken? then (Broken, [])
    else match e
    case Arrive(bytes, schedule) =>
      if s.Jammed? then (s, [])
      else
        var r := Read(s.part, s.waiting + bytes, schedule);
        (if r.ok then Going(s.queue + r.done, r.part, r.rest) else Jammed(s.queue + r.done), [])
    case LoadMsg =>
      if s.queue != [] then (s.(queue := s.queue[1..]), [Complete(s.queue[0])])
      else if s.Jammed? then (Broken, [Early])
      else if s.part == [] then (Broken, [])
      else (s.(part := []), [Early])
    case PollMsg =>
      if s.queue != [] then (s.(queue := s.queue[1..]), [Complete(s.queue[0])]) else (s, [])
  }

  /** A run from the empty list: the state, and what the loads brought. */
  function Run(events: seq<Event>): (State, seq<Got>) {
    if events == [] then (Going([], [], []), [])
    else
      var (s, got) := Run(events[..|events| - 1]);
      var (s', more) := Next(s, events[|events| - 1]);
      (s', got + more)
  }

  function Arrived(events: seq<Event>): seq<Byte> {
    if events == [] then []
    else
      var e := events[|events| - 1];
      Arrived(events[..|events| - 1]) + if e.Arrive? then e.bytes else []
  }

  predicate Positive(events: seq<Event>) {
    forall i, k :: 0 <= i < |events| && events[i].Arrive? && 0 <= k < |events[i].schedule| ==> events[i].schedule[k] > 0
  }

  /** Every load finds a complete message: hasPendingMsg would have said so. */
  predicate Ready(events: seq<Event>) {
    forall i :: 0 <= i < |events| && events[i].LoadMsg? ==> var s := Run(events[..i]).0; !s.Broken? && s.queue != []
  }

  /** No read crosses the end of a header. */
  predicate AllFit(events: seq<Event>) {
    forall i :: 0 <= i < |events| && events[i].Arrive? ==>
      var s := Run(events[..i]).0; s.Going? ==> Read(s.part, s.waiting + events[i].bytes, events[i].schedule).ok
  }

  // ---------------------------------------------------------------------
  // The connection does what the run says

  ghost predicate Is(conn: Connection, s: State, waiting: seq<Byte>)
    reads conn, conn.recvList
  {
    match s
    case Going(q, b, w) => conn.Holding(q, b) && Part(b) && w == waiting
    case Jammed(q) => conn.StuckAfter(q)
    case Broken => true
  }

  method ArriveOne(conn: Connection, waiting: seq<Byte>, bytes: seq<Byte>, schedule: seq<nat>, ghost s: State)
    returns (waiting': seq<Byte>)
    requires Is(conn, s, waiting) && !s.Broken? && forall k :: 0 <= k < |schedule| ==> schedule[k] > 0
    modifies conn`recvList, conn.Last()
    ensures Is(conn, Next(s, Arrive(bytes, schedule)).0, waiting')
    ensures forall m :: m in conn.recvList ==> fresh(m) || m in old(conn.recvList)
  {
    hide Hold, HoldStuck, Read, Part;
    var stream := waiting + bytes;
    var off := conn.ReceiveLoop(stream, schedule, s.queue, if s.Going? then s.part else [], s.Jammed?);
    waiting' := stream[off..];
  }

  /** The first message of the list. */
  lemma FirstOf(conn: Connection, s: State, waiting: seq<Byte>)
    requires Is(conn, s, waiting) && !s.Broken?
    ensures s.queue != [] ==>
              && conn.recvList != [] && conn.recvList[0] !in conn.recvList[1..]
              && Holds(conn.recvList[0], s.queue[0]) && conn.recvList[0].IsEnd()
              && if s.Jammed? then HoldStuck(conn.recvList[1..], s.queue[1..])
                 else Hold(conn.recvList[1..], s.queue[1..], s.part)
    ensures s.queue == [] ==>
              && |conn.recvList| == (if s.Jammed? || s.part != [] then 1 else 0)
              && (conn.recvList != [] ==> !conn.recvList[0].IsEnd())
  {
    hide NetMessage.Receiving, Part;
    var ms, b := conn.recvList, if s.Going? then s.part else [];
    if s.queue != [] {
      HoldTail(ms, s.queue, b, s.Jammed?);
    } else if s.Going? && b != [] {
      ReceivingCap(ms[0], b);
    }
  }

  /** LoadMsg, and what the program finds in the message. The list may be
      empty: missing. */
  method LoadOne(conn: Connection, ghost s: State, ghost waiting: seq<Byte>)
    returns (got: seq<Got>, missing: bool, ghost s': State)
    requires Is(conn, s, waiting) && !s.Broken?
    modifies conn`recvList, conn.First()`curPos
    ensures var (s1, got1) := Next(s, LoadMsg);
            got == got1 && (missing ==> s1.Broken?) && (!s1.Broken? ==> !missing && s' == s1)
    ensures !missing ==> Is(conn, s', waiting) && !s'.Broken?
    ensures forall m :: m in conn.recvList ==> m in old(conn.recvList)
  {
    hide Hold, HoldStuck, Holds, Part;
    FirstOf(conn, s, waiting);
    if s.queue != [] { HoldsPayload(conn.recvList[0], s.queue[0]); }
    var complete := conn.HasPendingMsg();
    var msg := conn.Load();
    s' := Next(s, LoadMsg).0;
    if msg == null { return [], true, s'; }
    missing := false;
    if complete {
      var p := msg.GetRaw(msg.size);
      got := [Complete(p)];
    } else {
      got := [Early];
      NothingHeld(conn);
      if s'.Broken? { s' := Going([], [], waiting); }
    }
  }

  method PollOne(conn: Connection, ghost s: State, ghost waiting: seq<Byte>) returns (got: seq<Got>)
    requires Is(conn, s, waiting) && !s.Broken?
    modifies conn`recvList, conn.First()`curPos
    ensures got == Next(s, PollMsg).1 && Is(conn, Next(s, PollMsg).0, waiting)
    ensures forall m :: m in conn.recvList ==> m in old(conn.recvList)
  {
    hide NetMessage.Receiving, NetMessage.Stuck, Holds, Part, Hold, HoldStuck;
    FirstOf(conn, s, waiting);
    got := [];
    var pending := conn.HasPendingMsg();
    if pending {
      var missing;
      ghost var s';
      got, missing, s' := LoadOne(conn, s, waiting);
    }
  }

  lemma RunNext(events: seq<Event>, i: nat)
    requires i < |events|
    ensures var (s, got) := Run(events[..i]);
            var (s', more) := Next(s, events[i]);
            Run(events[..i + 1]) == (s', got + more)
  {
    assert events[..i + 1][..i] == events[..i];
  }

  lemma RunStart(events: seq<Event>)
    ensures Run(events[..0]) == (Going([], [], []), []) && events[..|events|] == events && Part([])
  {
  }

  lemma BrokenStays(events: seq<Event>, i: nat)
    requires i <= |events|
    ensures Run(events[..i]).1 <= Run(events).1
    ensures Run(events[..i]).0.Broken? ==> Run(events).0.Broken? && Run(events).1 == Run(events[..i]).1
    decreases |events| - i
  {
    hide Run, Next;
    if i == |events| {
      assert events[..i] == events;
    } else {
      RunNext(events, i);
      NextKinds(Run(events[..i]).0, events[i]);
      assert Run(events[..i]).1 + [] == Run(events[..i]).1;
      BrokenStays(events, i + 1);
    }
  }

  /** Any run of updates, loads and polls, on any bytes. */
  method Receive(conn: Connection, events: seq<Event>) returns (got: seq<Got>, waiting: seq<Byte>)
    requires conn.recvList == [] && Positive(events)
    modifies conn`recvList
    ensures Is(conn, Run(events).0, waiting)
    ensures Run(events).1 <= got && (!Run(events).0.Broken? ==> got == Run(events).1)
  {
    hide Hold, HoldStuck, Part, Next, Run;
    got, waiting := [], [];
    var i := 0;
    RunStart(events);
    NothingHeld(conn);
    ghost var s: State := Going([], [], []);
    while i < |events|
      invariant i <= |events| && !s.Broken? && Is(conn, s, waiting)
      invariant forall m :: m in conn.recvList ==> fresh(m)
      invariant Run(events[..i]).1 <= got
      invariant !Run(events[..i]).0.Broken? ==> Run(events[..i]) == (s, got)
    {
      RunNext(events, i);
      NextKinds(s, events[i]);
      NextKinds(Run(events[..i]).0, events[i]);
      assert forall m :: m in conn.Last() || m in conn.First() ==> m in conn.recvList;
      assert got + [] == got;
      match events[i] {
        case Arrive(bytes, schedule) =>
          waiting := ArriveOne(conn, waiting, bytes, schedule, s);
          s := Next(s, events[i]).0;
        case LoadMsg =>
          var more, missing;
          ghost var s';
          more, missing, s' := LoadOne(conn, s, waiting);
          got := got + more;
          if missing {
            BrokenStays(events, i + 1);
            return;
          }
          s := s';
        case PollMsg =>
          var more := PollOne(conn, s, waiting);
          got := got + more;
          s := Next(s, events[i]).0;
      }
      i := i + 1;
    }
  }

  lemma NextKinds(s: State, e: Event)
    ensures Next(Broken, e) == (Broken, [])
    ensures !e.LoadMsg? && !s.Broken? ==> !Next(s, e).0.Broken?
    ensures e.Arrive? ==> Next(s, e).1 == []
  {
  }

  lemma NothingHeld(conn: Connection)
    requires conn.recvList == []
    ensures conn.Holding([], []) && Part([])
  {
  }

  // ---------------------------------------------------------------------
  // What a run on frames delivers

  /** The loads brought the payloads of ps in order, the list and the bytes
      that wait hold the rest of what arrived. */
  predicate Delivered(events: seq<Event>, ps: seq<seq<Byte>>) {
    var (s, got) := Run(events);
    var g := |got|;
    && s.Going? && g + |s.queue| <= |ps|
    && (forall i :: 0 <= i < g ==> got[i] == Complete(ps[i])) && s.queue == ps[g..g + |s.queue|]
    && Arrived(events) == Frames(ps[..g + |s.queue|]) + s.part + s.waiting
  }

  /** The same without what a stuck message has taken. */
  predicate InOrder(s: State, got: seq<Got>, ps: seq<seq<Byte>>) {
    var g := |got|;
    && !s.Broken? && g + |s.queue| <= |ps|
    && (forall i :: 0 <= i < g ==> got[i] == Complete(ps[i])) && s.queue == ps[g..g + |s.queue|]
  }

  /** Nothing that arrived is missing. */
  predicate Accounted(s: State, got: seq<Got>, ps: seq<seq<Byte>>, arrived: seq<Byte>)
    requires InOrder(s, got, ps) && s.Going?
  {
    var t := |got| + |s.queue|;
    && arrived == Frames(ps[..t]) + s.part + s.waiting
    && (s.part != [] ==> t < |ps| && s.part < Frame(ps[t]))
  }

  lemma Before(events: seq<Event>)
    requires events != []
    ensures var pre, e := events[..|events| - 1], events[|events| - 1];
            && (Ready(events) <==> Ready(pre) && (e.LoadMsg? ==> !Run(pre).0.Broken? && Run(pre).0.queue != []))
            && (AllFit(events) <==> AllFit(pre) && (e.Arrive? && Run(pre).0.Going? ==>
                  Read(Run(pre).0.part, Run(pre).0.waiting + e.bytes, e.schedule).ok))
            && (Positive(events) ==> Positive(pre)) && Arrived(pre) <= Arrived(events)
  {
    hide Run, Read;
    var pre := events[..|events| - 1];
    assert forall i :: 0 <= i < |pre| ==> pre[..i] == events[..i] && pre[i] == events[i];
    assert events[..|events| - 1] == pre;
  }

  lemma NoEvents(ps: seq<seq<Byte>>)
    ensures InOrder(Going([], [], []), [], ps) && Accounted(Going([], [], []), [], ps, []) && AllFit([])
  {
    assert ps[..0] == [];
  }

  /** What is left of the frames starts with what waits and arrives. */
  lemma NextStarts(ps: seq<seq<Byte>>, t: nat, b: seq<Byte>, waiting: seq<Byte>, bytes: seq<Byte>)
    requires t <= |ps| && Frames(ps[..t]) + b + waiting + bytes <= Frames(ps)
    requires Payloads(ps) && (b != [] ==> t < |ps| && b < Frame(ps[t]))
    ensures Starts(ps[t..], b, waiting + bytes)
  {
    hide Frame, Frames, Payloads;
    RestOf(ps, t);
    FramesCat(ps[..t], ps[t..]);
    CutParts(Frames(ps[..t]), b, waiting, bytes, Frames(ps[t..]));
  }

  lemma RestOf(ps: seq<seq<Byte>>, t: nat)
    requires t <= |ps| && Payloads(ps)
    ensures ps == ps[..t] + ps[t..] && Payloads(ps[t..]) && (t < |ps| ==> ps[t..] != [] && ps[t..][0] == ps[t])
  {
  }

  lemma CutParts(a: seq<Byte>, b: seq<Byte>, waiting: seq<Byte>, bytes: seq<Byte>, rest: seq<Byte>)
    requires a + b + waiting + bytes <= a + rest
    ensures b + (waiting + bytes) <= rest
  {
    assert a + b + waiting + bytes == a + (b + (waiting + bytes));
    CutFront(a, b + (waiting + bytes), rest);
  }

  lemma Later(ps: seq<seq<Byte>>, g: nat, t: nat, t': nat, done: nat)
    requires g <= t <= t' <= |ps| && t' == t + done
    ensures ps[t..][..done] == ps[t..t'] && ps[t..][done..] == ps[t'..]
    ensures ps[g..t] + ps[t..t'] == ps[g..t']
    ensures Frames(ps[..t']) == Frames(ps[..t]) + Frames(ps[t..t'])
  {
    hide Frame, Frames;
    FramesCat(ps[..t], ps[t..t']);
    assert ps[..t] + ps[t..t'] == ps[..t'];
  }

  lemma BytesMove(a: seq<Byte>, b: seq<Byte>, waiting: seq<Byte>, bytes: seq<Byte>, c: seq<Byte>, b': seq<Byte>,
                  rest: seq<Byte>)
    requires b + (waiting + bytes) == c + b' + rest
    ensures a + b + waiting + bytes == a + c + b' + rest
  {
    assert a + b + waiting + bytes == a + (b + (waiting + bytes));
    assert a + c + b' + rest == a + (c + b' + rest);
  }

  lemma ArriveKeeps(s: State, got: seq<Got>, bytes: seq<Byte>, schedule: seq<nat>, ps: seq<seq<Byte>>,
                    arrived: seq<Byte>)
    requires InOrder(s, got, ps) && s.Going? && Accounted(s, got, ps, arrived) && Payloads(ps)
    requires arrived + bytes <= Frames(ps) && forall k :: 0 <= k < |schedule| ==> schedule[k] > 0
    ensures var s' := Next(s, Arrive(bytes, schedule)).0;
            && InOrder(s', got, ps) && (s'.Going? <==> Read(s.part, s.waiting + bytes, schedule).ok)
            && (s'.Going? ==> Accounted(s', got, ps, arrived + bytes))
  {
    hide Frame, Frames, Read, Payloads, InOrder, Accounted;
    var t := Total(s, got, ps, arrived);
    var t' := ArriveParts(|got|, t, s.queue, s.part, s.waiting, bytes, schedule, ps, arrived);
    Totals(s, Next(s, Arrive(bytes, schedule)).0, got, ps, t', arrived + bytes);
  }

  lemma Total(s: State, got: seq<Got>, ps: seq<seq<Byte>>, arrived: seq<Byte>) returns (t: nat)
    requires InOrder(s, got, ps) && s.Going? && Accounted(s, got, ps, arrived)
    ensures |got| <= t <= |ps| && s.queue == ps[|got|..t] && arrived == Frames(ps[..t]) + s.part + s.waiting
    ensures s.part != [] ==> t < |ps| && s.part < Frame(ps[t])
  {
    hide Frame, Frames;
    t := |got| + |s.queue|;
  }

  lemma Totals(s: State, s': State, got: seq<Got>, ps: seq<seq<Byte>>, t: nat, arrived: seq<Byte>)
    requires InOrder(s, got, ps) && !s'.Broken? && |got| <= t <= |ps| && s'.queue == ps[|got|..t]
    requires s'.Going? ==>
               && arrived == Frames(ps[..t]) + s'.part + s'.waiting
               && (s'.part != [] ==> t < |ps| && s'.part < Frame(ps[t]))
    ensures InOrder(s', got, ps) && (s'.Going? ==> Accounted(s', got, ps, arrived))
  {
    hide Frame, Frames;
    assert |got| + |s'.queue| == t;
  }

  lemma ArriveParts(g: nat, t: nat, queue: seq<seq<Byte>>, b: seq<Byte>, waiting: seq<Byte>, bytes: seq<Byte>,
                    schedule: seq<nat>, ps: seq<seq<Byte>>, arrived: seq<Byte>) returns (t': nat)
    requires g <= t <= |ps| && queue == ps[g..t] && arrived == Frames(ps[..t]) + b + waiting
    requires b != [] ==> t < |ps| && b < Frame(ps[t])
    requires Payloads(ps) && arrived + bytes <= Frames(ps) && forall k :: 0 <= k < |schedule| ==> schedule[k] > 0
    ensures var r := Read(b, waiting + bytes, schedule);
            && t <= t' <= |ps| && |queue + r.done| == t' - g && queue + r.done == ps[g..t']
            && (r.ok ==> arrived + bytes == Frames(ps[..t']) + r.part + r.rest
                         && (r.part != [] ==> t' < |ps| && r.part < Frame(ps[t'])))
  {
    hide Frame, Frames, Read, Payloads, Fits, Starts;
    var r := Read(b, waiting + bytes, schedule);
    NextStarts(ps, t, b, waiting, bytes);
    ReadFrames(ps[t..], b, waiting + bytes, schedule);
    t' := t + |r.done|;
    Later(ps, g, t, t', |r.done|);
    if r.ok {
      StartsPart(ps[t'..], r.part, r.rest);
      BytesMove(Frames(ps[..t]), b, waiting, bytes, Frames(r.done), r.part, r.rest);
    }
  }

  lemma StartsPart(ps: seq<seq<Byte>>, b: seq<Byte>, stream: seq<Byte>)
    requires Starts(ps, b, stream)
    ensures b != [] ==> ps != [] && b < Frame(ps[0])
  {
  }

  lemma TakeKeeps(s: State, got: seq<Got>, ps: seq<seq<Byte>>, arrived: seq<Byte>)
    requires InOrder(s, got, ps) && s.queue != [] && (s.Going? ==> Accounted(s, got, ps, arrived))
    ensures var (s', more) := Next(s, LoadMsg);
            && InOrder(s', got + more, ps) && (s'.Going? <==> s.Going?)
            && (s'.Going? ==> Accounted(s', got + more, ps, arrived))
  {
    hide Frame, Frames;
  }

  lemma EventKeeps(s: State, got: seq<Got>, e: Event, ps: seq<seq<Byte>>, arrived: seq<Byte>)
    requires InOrder(s, got, ps) && (s.Going? ==> Accounted(s, got, ps, arrived)) && Payloads(ps)
    requires e.LoadMsg? ==> s.queue != []
    requires e.Arrive? ==> arrived + e.bytes <= Frames(ps) && forall k :: 0 <= k < |e.schedule| ==> e.schedule[k] > 0
    ensures var (s', more) := Next(s, e);
            && InOrder(s', got + more, ps)
            && (s'.Going? <==> s.Going? && (e.Arrive? ==> Read(s.part, s.waiting + e.bytes, e.schedule).ok))
            && (s'.Going? ==> Accounted(s', got + more, ps, arrived + if e.Arrive? then e.bytes else []))
  {
    hide InOrder, Accounted, Read, Frames, Payloads;
    NotBroken(s, got, ps);
    assert got + [] == got && arrived + [] == arrived;
    match e
    case Arrive(bytes, schedule) =>
      if s.Going? { ArriveKeeps(s, got, bytes, schedule, ps, arrived); }
    case LoadMsg => TakeKeeps(s, got, ps, arrived);
    case PollMsg => if s.queue != [] { TakeKeeps(s, got, ps, arrived); }
  }

  lemma NotBroken(s: State, got: seq<Got>, ps: seq<seq<Byte>>)
    requires InOrder(s, got, ps)
    ensures !s.Broken?
  {
  }

  /** If every load finds a complete message, the loads bring the payloads that
      were sent, in order, none lost or twice, even if a read crosses the end
      of a header; and if none does, nothing that arrived is missing. */
  lemma {:induction false} LoadsInOrder(events: seq<Event>, ps: seq<seq<Byte>>)
    requires Ready(events) && Positive(events) && Payloads(ps) && Arrived(events) <= Frames(ps)
    ensures var (s, got) := Run(events);
            && InOrder(s, got, ps) && (s.Going? <==> AllFit(events))
            && (s.Going? ==> Accounted(s, got, ps, Arrived(events)))
    decreases |events|
  {
    hide Frames, Read, Ready, AllFit, Payloads, InOrder, Accounted, Next;
    if events == [] {
      NoEvents(ps);
    } else {
      Before(events);
      var pre, e := events[..|events| - 1], events[|events| - 1];
      LoadsInOrder(pre, ps);
      var (s, got) := Run(pre);
      EventKeeps(s, got, e, ps, Arrived(pre));
    }
  }

  /** An early load shows: what it brought is Early, or the run is broken. */
  lemma {:induction false} EarlyShows(events: seq<Event>)
    requires !Ready(events)
    ensures Run(events).0.Broken? || Early in Run(events).1
    decreases |events|
  {
    hide Read, Ready, AllFit, Positive;
    if events == [] {
      NoLoads();
    } else {
      Before(events);
      if !Ready(events[..|events| - 1]) { EarlyShows(events[..|events| - 1]); }
    }
  }

  /** The loads deliver what was sent, and nothing is missing, exactly if every
      load finds a complete message and no read crosses the end of a header. */
  lemma {:induction false} DeliveredExactly(events: seq<Event>, ps: seq<seq<Byte>>)
    requires Positive(events) && Payloads(ps) && Arrived(events) <= Frames(ps)
    ensures Delivered(events, ps) <==> Ready(events) && AllFit(events)
  {
    hide Run, Read, Ready, AllFit, Positive, Frames;
    if Ready(events) { LoadsInOrder(events, ps); } else { EarlyShows(events); }
  }

  lemma NoLoads()
    ensures Ready([])
  {
  }

  /** The frame of the payload 7, loaded after one byte: the message is gone,
      and the next one waits for 263 bytes more. */
  lemma EarlyInput()
    ensures var events := [Arrive([0], [1]), LoadMsg, Arrive([1, 7], [2])];
            && Arrived(events) == Frame([7]) && AllFit(events) && !Ready(events)
            && Run(events) == (Going([], [1, 7], []), [Early]) && Remaining([1, 7]) == 263
  {
    var e0, e1, e2 := Arrive([0], [1]), LoadMsg, Arrive([1, 7], [2]);
    var events := [e0, e1, e2];
    EarlyReads();
    EarlyNext();
    hide Next, Read;
    var none: seq<Got> := [];
    assert none + none == none && none + [Early] == [Early] && [Early] + none == [Early];
    assert events[..0] == [] && events[..1] == [e0] && events[..2] == [e0, e1] && events[..3] == events;
    RunNext(events, 0);
    RunNext(events, 1);
    RunNext(events, 2);
    EarlyArrived(e0, e1, e2);
  }

  lemma EarlyArrived(e0: Event, e1: Event, e2: Event)
    requires e0.Arrive? && e0.bytes == [0] && e1.LoadMsg? && e2.Arrive? && e2.bytes == [1, 7]
    ensures Arrived([e0, e1, e2]) == [0, 1, 7]
  {
    assert [e0, e1, e2][..2] == [e0, e1] && [e0, e1][..1] == [e0] && [e0][..0] == [];
    assert Arrived([e0]) == [0] && Arrived([e0, e1]) == [0];
  }

  lemma EarlyNext()
    ensures Next(Going([], [], []), Arrive([0], [1])) == (Going([], [0], []), [])
    ensures Next(Going([], [0], []), LoadMsg) == (Going([], [], []), [Early])
    ensures Next(Going([], [], []), Arrive([1, 7], [2])) == (Going([], [1, 7], []), [])
    ensures [] + [0] == [0] && [] + [1, 7] == [1, 7]
  {
    EarlyReads();
    hide Read;
    var none: seq<seq<Byte>> := [];
    assert [] + [0] == [0] && [] + [1, 7] == [1, 7] && none + none == none;
  }

  lemma EarlyReads()
    ensures Read([], [0], [1]) == Reading([], [0], [], true) && Read([], [1, 7], [2]) == Reading([], [1, 7], [], true)
    ensures Frame([7]) == [0, 1, 7] && Remaining([1, 7]) == 263
  {
    var s1, s2: seq<nat> := [1], [2];
    assert [] + [0][..1] == [0] && [0][1..] == [] && s1[1..] == [];
    assert [] + [1, 7][..2] == [1, 7] && [1, 7][2..] == [] && s2[1..] == [];
    assert Number([1, 7]) == 263 by {
      assert [1, 7][..1] == [1] && [1][..0] == [];
    }
    assert BigEndian(1, 2) == [0, 1];
  }
}
