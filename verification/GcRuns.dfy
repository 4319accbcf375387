/** Whole runs: any interleaving of a program and the collector. */
module GcRuns {
  import opened GcHeap
  import opened GcMark
  import opened GcLinks
  import opened GcInv
  import opened GcSweep
  import opened GcWrite
  import opened GcAlloc
  import opened GcSeen
  import opened GcExact
  import opened GcFinal
  import opened Gc

  // ---------------------------------------------------------------------
  // What a program can reach

  function EntryKids(node: seq<Entry>): seq<Val> {
    if node == [] then []
    else (if node[0].val == Nil then []
          else (if node[0].key.Key? then [node[0].key.v] else []) + [node[0].val]) + EntryKids(node[1..])
  }

  /** The values that a program can read from an object, weak entries too. */
  function Kids(h: Heap, o: Ref): seq<Val>
    requires o in h
  {
    match h[o]
    case Str(_) => []
    case Udata(meta, env) => [meta, env]
    case Open(_, _) => [UpValue(h, h[o])]
    case Closed(v) => [v]
    case Closure(refs) => refs
    case Proto(refs) => refs
    case Table(meta, slots, node, _) => [meta] + slots + EntryKids(node)
    case Thread(globals, stack, _) => [globals] + stack
  }

  lemma {:induction false} EntryKidsAre(node: seq<Entry>, x: Ref)
    ensures Ptr(x) in EntryKids(node) <==> NodeRefers(node, x)
  {
    if node != [] {
      EntryKidsAre(node[1..], x);
      var a := if node[0].val == Nil then [] else (if node[0].key.Key? then [node[0].key.v] else []) + [node[0].val];
      assert EntryKids(node) == a + EntryKids(node[1..]);
      assert Ptr(x) in a <==> EntryRefers(node[0], x);
      assert node == [node[0]] + node[1..];
    }
  }

  lemma KidsAre(h: Heap, o: Ref, x: Ref)
    requires o in h
    ensures Ptr(x) in Kids(h, o) <==> Refers(h, o, x)
  {
    if h[o].Table? { EntryKidsAre(h[o].node, x); }
  }

  /** The value at the end of a path of reads; nil if there is no such path. */
  function Follow(h: Heap, v: Val, path: seq<nat>): Val
    decreases |path|
  {
    if path == [] then v
    else if v.Ptr? && v.r in h && path[0] < |Kids(h, v.r)| then Follow(h, Kids(h, v.r)[path[0]], path[1..])
    else Nil
  }

  /** Where paths start: the running thread, the main thread, the registry and
      the basic metatables. */
  function Start(R: Roots, i: nat): Val {
    if i == 0 then Ptr(R.running) else if i == 1 then Ptr(R.main) else if i == 2 then R.registry
    else if i - 3 < |R.mt| then R.mt[i - 3] else Nil
  }

  lemma {:induction false} FollowLive(m: MarkState, g: Globals, v: Val, path: seq<nat>)
    requires Intact(m.h, m.c, g.cw, g.fixed) && LiveVal(m.h, m.c, g.cw, g.fixed, v)
    ensures LiveVal(m.h, m.c, g.cw, g.fixed, Follow(m.h, v, path))
    decreases |path|
  {
    hide Refers, Kids;
    if path != [] && v.Ptr? && v.r in m.h && path[0] < |Kids(m.h, v.r)| {
      var w := Kids(m.h, v.r)[path[0]];
      if w.Ptr? { KidsAre(m.h, v.r, w.r); assert w in Kids(m.h, v.r); }
      FollowLive(m, g, w, path[1..]);
    }
  }

  /** In every state that keeps the invariant, whatever the program can reach
      is in the heap and will not be freed. */
  lemma ReachableLive(m: MarkState, g: Globals, i: nat, path: seq<nat>)
    requires Inv(m, g)
    ensures LiveVal(m.h, m.c, g.cw, g.fixed, Follow(m.h, Start(g.R, i), path))
  {
    hide PhaseOK, Linked;
    FollowLive(m, g, Start(g.R, i), path);
  }

  /** The invariant of the mark phase in its usual words: a black object that
      does not wait for its finalizer has no pointer to a white one. */
  lemma NoBlackToWhite(m: MarkState, g: Globals, o: Ref, r: Ref)
    requires Inv(m, g) && g.phase == Propagate && o in m.h && o in m.c && m.c[o] == Black && o !in g.tmudata
    requires Holds(m.h, o, r)
    ensures r in m.c && !m.c[r].White?
  {
    BlackNotPending(m, g, o);
    WasDone(m, g, o);
  }

  lemma BlackNotPending(m: MarkState, g: Globals, o: Ref)
    requires Inv(m, g) && g.phase == Propagate && o in m.h && o in m.c && m.c[o] == Black && o !in g.tmudata
    ensures o !in Pending(m, g)
  {
    hide Common, Tri, NoDangling, GrayTables;
    assert ListsOK(m) && StacksGray(m);
  }

  lemma StacksNeverBlack(m: MarkState, g: Globals, o: Ref)
    requires Inv(m, g) && o in m.h && o in m.c && (m.h[o].Thread? || m.h[o].Open?)
    ensures m.c[o] != Black
  {
    hide PhaseOK, Linked, Intact, RootsLive;
  }

  // ---------------------------------------------------------------------
  // Runs

  /** An operand of the program: a value it makes up, or one it can reach. */
  datatype Operand = Const(n: int) | Path(start: nat, path: seq<nat>)

  datatype Shape =
    | NewTable(tm: Tm) | NewUdata(meta: Operand, env: Operand) | NewClosure(refs: seq<Operand>)
    | NewProto(refs: seq<Operand>) | NewUpval(v: Operand) | NewThread(globals: Operand)

  /** One step of a run. New objects get an address r that is not in use. */
  datatype Op =
    | GcStep | GcFull
    | Store(obj: Operand, field: Field, v: Operand)
    | StoreEntry(obj: Operand, i: nat, key: Operand, v: Operand)
    | StoreUpval(u: Operand, v: Operand)
    | Create(r: Ref, shape: Shape)
    | MakeString(r: Ref, hash: nat)
    | InternString(s: Ref)
    | FixedString(s: Ref)
    | Capture(level: nat, r: Ref, r2: Ref)
    | CloseFrom(level: nat)
    | SetBasicMt(i: nat, v: Operand)
    | Switch(th: Operand)

  function Eval(h: Heap, R: Roots, x: Operand): Val {
    match x
    case Const(n) => Prim(n)
    case Path(start, path) => Follow(h, Start(R, start), path)
  }

  function EvalAll(h: Heap, R: Roots, xs: seq<Operand>): seq<Val> {
    seq(|xs|, i requires 0 <= i < |xs| => Eval(h, R, xs[i]))
  }

  function Build(h: Heap, R: Roots, shape: Shape): Obj {
    match shape
    case NewTable(tm) => Table(Nil, [], [], tm)
    case NewUdata(meta, env) => Udata(Eval(h, R, meta), Eval(h, R, env))
    case NewClosure(refs) => Closure(EvalAll(h, R, refs))
    case NewProto(refs) => Proto(EvalAll(h, R, refs))
    case NewUpval(v) => Closed(Eval(h, R, v))
    case NewThread(globals) => Thread(Eval(h, R, globals), [], [])
  }

  lemma EvalLive(m: MarkState, g: Globals, x: Operand)
    requires Inv(m, g)
    ensures LiveVal(m.h, m.c, g.cw, g.fixed, Eval(m.h, g.R, x))
  {
    hide Inv;
    if x.Path? { ReachableLive(m, g, x.start, x.path); }
  }

  lemma BuildLive(m: MarkState, g: Globals, r: Ref, shape: Shape)
    requires Inv(m, g)
    ensures var h' := m.h[r := Build(m.h, g.R, shape)]; forall x :: Refers(h', r, x) ==> IsLive(m, g, x)
  {
    hide Inv, Eval;
    forall x: Operand ensures LiveVal(m.h, m.c, g.cw, g.fixed, Eval(m.h, g.R, x)) { EvalLive(m, g, x); }
  }

  // ---------------------------------------------------------------------
  // What each step does

  /** The value on top of the stack of the running thread. */
  function Pushed(h: Heap, R: Roots, v: Val): Heap {
    if R.running in h && h[R.running].Thread? then Put(h, R.running, GcWrite.Stack(|h[R.running].stack|), v) else h
  }

  /** A store through the object that an operand leads to. */
  function Stored(h: Heap, o: Val, f: Field, v: Val): Heap {
    if o.Ptr? && o.r in h && !h[o.r].Str? && !h[o.r].Open? then Put(h, o.r, f, v) else h
  }

  function UpvalStored(h: Heap, o: Val, v: Val): Heap {
    if o.Ptr? && o.r in h && h[o.r].Closed? then Put(h, o.r, Value, v)
    else if o.Ptr? && o.r in h && h[o.r].Open? && h[o.r].thread in h
    then Put(h, h[o.r].thread, GcWrite.Stack(h[o.r].level), v) else h
  }

  /** A closure with the upvalue of a stack slot is pushed; only the thread
      changes. */
  ghost predicate Captured(h0: Heap, R: Roots, level: nat, r: Ref, r2: Ref, h: Heap) {
    var th := R.running;
    && th in h0 && h0[th].Thread?
    && if level < |h0[th].stack| && r !in h0 && r2 !in h0 && r != r2 then
         && r2 in h && h[r2].Closure? && |h[r2].refs| == 1 && h[r2].refs[0].Ptr?
         && var u := h[r2].refs[0].r;
         && u in h && h[u] == Open(th, level) && (u in h0 || u == r)
         && (forall w :: w in h0[th].openupval && w in h0 && h0[w] == Open(th, level) ==> u == w)
         && th in h && h[th].Thread? && h[th].stack == h0[th].stack + [Ptr(r2)] && h[th].globals == h0[th].globals
         && (forall x :: x in h0 && x != th ==> x in h && h[x] == h0[x]) && h.Keys <= h0.Keys + {r, r2}
       else h == h0
  }

  /** The open upvalues of the running thread from a level on are closed. */
  ghost predicate ClosedFrom(m0: MarkState, g0: Globals, level: nat, m: MarkState, g: Globals) {
    var th := g0.R.running;
    && Preserves(m0, g0, m, g) && th in m0.h && m0.h[th].Thread? && th in m.h && m.h[th].Thread?
    && m.h[th].stack == m0.h[th].stack
    && forall u :: u in m0.h[th].openupval ==>
         && u in m0.h && m0.h[u].Open?
         && if m0.h[u].level < level then u in m.h[th].openupval && u in m.h && m.h[u] == m0.h[u]
            else u !in m.h[th].openupval && (u in m.h ==> m.h[u].Closed?)
  }

  ghost predicate Does(op: Op, m0: MarkState, g0: Globals, m: MarkState, g: Globals) {
    var h0, R := m0.h, g0.R;
    match op
    case GcStep => g.R == R && Untouched(h0, m, g)
    case GcFull =>
      && g.R == R && LosesOnlyGone(h0, m, g) && KeepsGripped(h0, m.h) && ClearsExactly(h0, m.h, g.finalized)
      && SparesFinalizable(m0, g0, m.h) && FinalizesOnly(h0, R, g0.tmudata, g0.finalized, g.finalized)
    case Store(obj, field, v) =>
      g.R == R && m.h == if field.EntryVal? then h0 else Stored(h0, Eval(h0, R, obj), field, Eval(h0, R, v))
    case StoreEntry(obj, i, key, v) =>
      g.R == R && m.h == Stored(h0, Eval(h0, R, obj), EntryVal(i, Eval(h0, R, key)), Eval(h0, R, v))
    case StoreUpval(u, v) => g.R == R && m.h == UpvalStored(h0, Eval(h0, R, u), Eval(h0, R, v))
    case Create(r, shape) =>
      g.R == R && m.h == if r in h0 then h0 else Pushed(h0[r := Build(h0, R, shape)], R, Ptr(r))
    case MakeString(r, hash) => g.R == R && m.h == if r in h0 then h0 else Pushed(h0[r := Str(hash)], R, Ptr(r))
    case InternString(s) => g.R == R && m.h == if s in h0 && h0[s].Str? then Pushed(h0, R, Ptr(s)) else h0
    case FixedString(s) => g.R == R && m.h == h0 && (s in h0 && h0[s].Str? ==> s in g.fixed)
    case Capture(level, r, r2) => g.R == R && Captured(h0, R, level, r, r2, m.h)
    case CloseFrom(level) => g.R == R && ClosedFrom(m0, g0, level, m, g)
    case SetBasicMt(i, v) => m.h == h0 && g.R == R.(mt := PutVal(R.mt, i, Eval(h0, R, v)))
    case Switch(th) =>
      var o := Eval(h0, R, th);
      m.h == h0 && g.R == if o.Ptr? && o.r in h0 && h0[o.r].Thread? then R.(running := o.r) else R
  }

  /** A new value goes to the stack of the running thread. */
  method Push(c: Collector, v: Val)
    requires c.Valid() && LiveVal(c.m.h, c.m.c, c.g.cw, c.g.fixed, v)
    modifies c
    ensures c.Valid() && c.g == old(c.g) && c.m.h == Pushed(old(c.m.h), c.g.R, v)
  {
    RunningIs(c.m, c.g);
    var th := c.g.R.running;
    hide Inv;
    c.SetField(th, Stack(|c.m.h[th].stack|), v);
  }

  lemma RunningIs(m: MarkState, g: Globals)
    requires Inv(m, g)
    ensures IsLive(m, g, g.R.running) && g.R.running in m.h && m.h[g.R.running].Thread?
  {
    hide PhaseOK, Linked, Intact;
  }

  method DoStore(c: Collector, o: Val, f: Field, v: Val)
    requires c.Valid() && LiveVal(c.m.h, c.m.c, c.g.cw, c.g.fixed, o) && LiveVal(c.m.h, c.m.c, c.g.cw, c.g.fixed, v)
    requires LiveVal(c.m.h, c.m.c, c.g.cw, c.g.fixed, KeyOf(f))
    modifies c
    ensures c.Valid() && c.g == old(c.g) && c.m.h == Stored(old(c.m.h), o, f, v)
  {
    hide Inv, Put;
    if o.Ptr? && !c.m.h[o.r].Str? && !c.m.h[o.r].Open? { c.SetField(o.r, f, v); }
  }

  lemma CaptureRefers(h: Heap, r: Ref, u: Ref)
    ensures var h' := h[r := Closure([Ptr(u)])]; forall x :: Refers(h', r, x) ==> x == u
  {
  }

  method DoCapture(c: Collector, level: nat, r: Ref, r2: Ref)
    requires c.Valid()
    modifies c
    ensures c.Valid() && c.g.R == old(c.g.R) && Captured(old(c.m.h), old(c.g.R), level, r, r2, c.m.h)
  {
    hide Inv, Refers, Live;
    RunningIs(c.m, c.g);
    var th := c.g.R.running;
    if level < |c.m.h[th].stack| && r !in c.m.h && r2 !in c.m.h && r != r2 {
      ghost var h0, R := c.m.h, c.g.R;
      var u := c.FindUpval(th, level, r);
      CaptureRefers(c.m.h, r2, u);
      ghost var h1 := c.m.h;
      c.New(r2, Closure([Ptr(u)]));
      Push(c, Ptr(r2));
      CapturedIs(h0, R, level, r, r2, u, h1, c.m.h);
    }
  }

  lemma CapturedIs(h0: Heap, R: Roots, level: nat, r: Ref, r2: Ref, u: Ref, h1: Heap, h: Heap)
    requires var th := R.running;
             && th in h0 && h0[th].Thread? && level < |h0[th].stack| && r !in h0 && r2 !in h0 && r != r2
             && u in h1 && h1[u] == Open(th, level) && (u in h0 || u == r) && r2 !in h1
             && (forall w :: w in h0[th].openupval && w in h0 && h0[w] == Open(th, level) ==> u == w)
             && th in h1 && h1[th].Thread? && h1[th].stack == h0[th].stack && h1[th].globals == h0[th].globals
             && h0.Keys <= h1.Keys <= h0.Keys + {r} && forall x :: x in h0 && x != th ==> h1[x] == h0[x]
    requires h == Pushed(h1[r2 := Closure([Ptr(u)])], R, Ptr(r2))
    ensures Captured(h0, R, level, r, r2, h)
  {
    assert u != R.running && r2 != R.running;
  }

  method RunOne(c: Collector, op: Op)
    requires c.Valid()
    modifies c
    ensures c.Valid() && c.g.R.registry == old(c.g.R.registry) && Does(op, old(c.m), old(c.g), c.m, c.g)
  {
    hide Inv, Eval, Build, Put, Captured, Untouched, LosesOnlyGone, KeepsGripped, ClearsExactly, SparesFinalizable;
    hide FinalizesOnly, FinalizesAll;
    hide Preserves;
    var h, R := c.m.h, c.g.R;
    forall x: Operand ensures LiveVal(h, c.m.c, c.g.cw, c.g.fixed, Eval(h, R, x)) { EvalLive(c.m, c.g, x); }
    match op {
      case GcStep => c.SingleStep();
      case GcFull => c.FullGC({});
      case Store(obj, field, v) =>
        if !field.EntryVal? { DoStore(c, Eval(h, R, obj), field, Eval(h, R, v)); }
      case StoreEntry(obj, i, key, v) =>
        DoStore(c, Eval(h, R, obj), EntryVal(i, Eval(h, R, key)), Eval(h, R, v));
      case StoreUpval(u, v) =>
        var o := Eval(h, R, u);
        if o.Ptr? && (h[o.r].Open? || h[o.r].Closed?) { c.SetUpval(o.r, Eval(h, R, v)); }
      case Create(r, shape) =>
        if r !in h {
          BuildLive(c.m, c.g, r, shape);
          BuildKind(h, R, shape);
          c.New(r, Build(h, R, shape));
          Push(c, Ptr(r));
        }
      case MakeString(r, hash) =>
        if r !in h {
          c.NewString(r, hash);
          Push(c, Ptr(r));
        }
      case InternString(s) =>
        if s in h && h[s].Str? {
          c.FindString(s);
          Push(c, Ptr(s));
        }
      case FixedString(s) =>
        if s in h && h[s].Str? {
          c.FindString(s);
          c.FixString(s);
        }
      case Capture(level, r, r2) => DoCapture(c, level, r, r2);
      case CloseFrom(level) =>
        RunningIs(c.m, c.g);
        c.CloseUpvals(R.running, level);
      case SetBasicMt(i, v) => c.SetMt(i, Eval(h, R, v));
      case Switch(th) =>
        var o := Eval(h, R, th);
        if o.Ptr? && h[o.r].Thread? { c.Resume(o.r); }
    }
  }

  lemma BuildKind(h: Heap, R: Roots, shape: Shape)
    ensures var o := Build(h, R, shape); !o.Str? && !o.Open? && (o.Thread? ==> o.openupval == [])
  {
  }

  /** In every run of program and collector steps, from the start on, no object
      that the program can reach is ever freed or about to be freed. */
  method Run(mainthread: Ref, globals: Ref, registry: Ref, buckets: nat, ops: seq<Op>)
    returns (c: Collector, ghost trace: seq<(MarkState, Globals)>)
    requires buckets > 0 && mainthread != globals && mainthread != registry && globals != registry
    ensures c.Valid() && c.g.R.registry == Ptr(registry)
    ensures |trace| == |ops| + 1 && trace[0].0.h == NewHeap(mainthread, globals, registry)
            && trace[|ops|] == (c.m, c.g)
    ensures forall n :: 0 <= n < |ops| ==> Does(ops[n], trace[n].0, trace[n].1, trace[n + 1].0, trace[n + 1].1)
    ensures forall n :: 0 <= n < |trace| ==> Inv(trace[n].0, trace[n].1)
    ensures forall i: nat, path: seq<nat> :: LiveVal(c.m.h, c.m.c, c.g.cw, c.g.fixed,
              Follow(c.m.h, Start(c.g.R, i), path))
  {
    hide Inv, Does;
    c := new Collector(mainthread, globals, registry, buckets);
    trace := [(c.m, c.g)];
    var n := 0;
    while n < |ops|
      invariant n <= |ops| && fresh(c) && c.Valid() && c.g.R.registry == Ptr(registry)
      invariant |trace| == n + 1 && trace[0].0.h == NewHeap(mainthread, globals, registry) && trace[n] == (c.m, c.g)
      invariant forall k :: 0 <= k < n ==> Does(ops[k], trace[k].0, trace[k].1, trace[k + 1].0, trace[k + 1].1)
      invariant forall k :: 0 <= k < |trace| ==> Inv(trace[k].0, trace[k].1)
    {
      RunOne(c, ops[n]);
      trace := trace + [(c.m, c.g)];
      n := n + 1;
    }
    forall i: nat, path: seq<nat>
      ensures LiveVal(c.m.h, c.m.c, c.g.cw, c.g.fixed, Follow(c.m.h, Start(c.g.R, i), path))
    {
      ReachableLive(c.m, c.g, i, path);
    }
  }
}
