/** What holds in every state of a collector. */
module GcInv {
  import opened GcHeap
  import opened GcMark
  import opened GcLinks
  import opened GcClear

  /** Threads and open upvalues are never black. */
  ghost predicate NoBlackStacks(h: Heap, c: Marks)
    requires h.Keys == c.Keys
  {
    forall o :: o in h && (h[o].Thread? || h[o].Open?) ==> c[o] != Black
  }

  /** Userdata that wait for their finalizer are not dead. */
  ghost predicate TmuOK(c: Marks, cw: bool, tmudata: seq<Ref>) {
    forall u :: u in tmudata ==> u in c && (c[u] == Black || c[u] == White(cw))
  }

  /** Fixed are the main thread and some strings. */
  ghost predicate FixedOK(h: Heap, fixed: set<Ref>, mainthread: Ref) {
    forall r :: r in fixed ==> r in h && (h[r].Str? || r == mainthread)
  }

  /** Nothing is marked between two cycles, except userdata to be finalized. */
  ghost predicate Rested(h: Heap, c: Marks, cw: bool, tmudata: seq<Ref>)
    requires h.Keys == c.Keys
  {
    forall o :: o in h && o !in tmudata ==> c[o] == White(cw)
  }

  /** The first n chains of the string table are swept. */
  ghost predicate StringsSwept(h: Heap, c: Marks, cw: bool, size: nat, n: nat)
    requires h.Keys == c.Keys && size > 0
  {
    forall s :: s in h && h[s].Str? && Bucket(h[s], size) < n ==> c[s] == White(cw)
  }

  ghost predicate ObjSwept(h: Heap, c: Marks, cw: bool, o: Ref)
    requires h.Keys == c.Keys
  {
    && o in h && c[o] == White(cw)
    && (h[o].Thread? ==> forall u :: u in h[o].openupval ==> u in h && c[u] == White(cw))
  }

  /** The first n objects of the root list are swept. */
  ghost predicate RootsSwept(h: Heap, c: Marks, cw: bool, rootgc: seq<Ref>, n: nat)
    requires h.Keys == c.Keys
  {
    n <= |rootgc| && forall i :: 0 <= i < n ==> ObjSwept(h, c, cw, rootgc[i])
  }

  /** After the flip the unmarked objects are dead, and nothing live refers to
      them. */
  lemma FlipIntact(h: Heap, c: Marks, cw: bool, fixed: set<Ref>, mainthread: Ref)
    requires h.Keys == c.Keys && AllMarked(h, c) && OneWhite(c, cw) && NoDangling(h)
    requires FixedOK(h, fixed, mainthread) && Marked(c, mainthread)
    ensures Intact(h, c, !cw, fixed)
    ensures forall o :: Marked(c, o) ==> Live(h, c, !cw, fixed, o)
  {
    hide HoldsPlain;
    forall o, r | Live(h, c, !cw, fixed, o) && Refers(h, o, r) ensures Live(h, c, !cw, fixed, r) {
      if h[o].Str? { assert false by { NoStringRefers(h, o, r); } }
      assert Marked(c, o);
    }
  }

  lemma NoStringRefers(h: Heap, o: Ref, r: Ref)
    requires o in h && h[o].Str?
    ensures !Refers(h, o, r)
  {
  }

  /** In a state with one white only, nothing is dead. */
  lemma OneWhiteIntact(h: Heap, c: Marks, cw: bool, fixed: set<Ref>)
    requires h.Keys == c.Keys && OneWhite(c, cw)
    ensures Intact(h, c, cw, fixed) <==> NoDangling(h)
    ensures forall r :: Live(h, c, cw, fixed, r) <==> r in h
  {
    hide Refers;
  }

  /** What atomic leaves to the sweep. */
  lemma AtomicFlip(m: MarkState, h: Heap, c: Marks, fin: set<Ref>, cw: bool, tmudata: seq<Ref>, fixed: set<Ref>,
                   mainthread: Ref)
    requires MarkInv(m, cw, {}) && m.gray == [] && ClearedUpto(m, fin, h, c, |m.weak|) && AllMarked(h, c)
    requires FixedOK(m.h, fixed, mainthread) && Marked(m.c, mainthread)
    requires forall u :: u in tmudata ==> u in m.h && m.h[u].Udata? && Marked(m.c, u)
    ensures h.Keys == c.Keys && SameButTables(m.h, h) && Intact(h, c, !cw, fixed) && TmuOK(c, !cw, tmudata)
    ensures NoBlackStacks(h, c) && FixedOK(h, fixed, mainthread)
    ensures forall r :: Marked(c, r) ==> Live(h, c, !cw, fixed, r)
    ensures forall r :: r in c ==> c[r] != White(!cw)
  {
    assert StacksGray(m) && OneWhite(m.c, cw);
    hide MarkInv, Refers, ClearTable, NoDangling;
    assert StringsMarked(m.h, m.c, c);
    assert OneWhite(c, cw);
    FlipIntact(h, c, cw, fixed, mainthread);
  }

  /** The places from which a program reaches its objects. */
  datatype Roots = Roots(main: Ref, running: Ref, registry: Val, mt: seq<Val>)

  ghost predicate RootsLive(h: Heap, c: Marks, cw: bool, fixed: set<Ref>, R: Roots) {
    && Live(h, c, cw, fixed, R.main) && h[R.main].Thread? && Live(h, c, cw, fixed, R.running) && h[R.running].Thread?
    && LiveVal(h, c, cw, fixed, R.registry) && forall v :: v in R.mt ==> LiveVal(h, c, cw, fixed, v)
  }

  ghost predicate RootsMarked(c: Marks, R: Roots) {
    && Marked(c, R.main) && Marked(c, R.running) && (R.registry.Ptr? ==> Marked(c, R.registry.r))
    && forall v :: v in R.mt && v.Ptr? ==> Marked(c, v.r)
  }

  lemma RootsMarkedStay(h0: Heap, c0: Marks, h: Heap, c: Marks, R: Roots)
    requires RootsMarked(c0, R) && Progress(h0, c0, h, c)
    ensures RootsMarked(c, R)
  {
  }

  lemma RootsMarkedLive(h0: Heap, c0: Marks, cw0: bool, h: Heap, c: Marks, cw: bool, fixed: set<Ref>, R: Roots)
    requires RootsLive(h0, c0, cw0, fixed, R) && RootsMarked(c, R) && SameButTables(h0, h)
    requires forall r :: Marked(c, r) ==> Live(h, c, cw, fixed, r)
    ensures RootsLive(h, c, cw, fixed, R)
  {
  }

  lemma StringsKeepRoots(h: Heap, c0: Marks, c: Marks, R: Roots)
    requires RootsMarked(c0, R) && StringsMarked(h, c0, c)
    ensures RootsMarked(c, R)
  {
  }

  lemma RootsIn(h: Heap, c: Marks, cw: bool, fixed: set<Ref>, R: Roots)
    requires RootsLive(h, c, cw, fixed, R)
    ensures R.main in h && R.running in h && forall v :: v in R.mt && v.Ptr? ==> v.r in h
  {
  }

  lemma AtomicRoots(m: MarkState, fin: set<Ref>, h: Heap, c: Marks, fixed: set<Ref>, mainthread: Ref, h0: Heap,
                    R: Roots)
    requires ClearedUpto(m, fin, h, c, |m.weak|) && RootsMarked(m.c, R) && SameButTables(h0, m.h)
               && FixedOK(h0, fixed, mainthread)
    requires R.main == mainthread
    ensures RootsMarked(c, R) && Marked(m.c, mainthread) && FixedOK(m.h, fixed, mainthread) && SameButTables(h0, h)
  {
    hide Refers, ClearTable, NoDangling;
    StringsKeepRoots(m.h, m.c, c, R);
  }

  lemma NoneSwept(h: Heap, c: Marks, cw: bool, size: nat)
    requires h.Keys == c.Keys && size > 0
    ensures StringsSwept(h, c, cw, size, 0)
  {
  }

  lemma TablesKeepKeys(h0: Heap, h: Heap)
    requires SameButTables(h0, h)
    ensures h.Keys == h0.Keys
  {
  }

  datatype Phase = Pause | Propagate | SweepString | Sweep | Finalize

  /** The rest of the state of a collector. */
  datatype Globals = Globals(
    finalized: set<Ref>, fixed: set<Ref>, rootgc: seq<Ref>, sweepgc: nat, strt: seq<seq<Ref>>, sweepstrgc: nat,
    uvhead: seq<Ref>, tmudata: seq<Ref>, cw: bool, phase: Phase, R: Roots)

  ghost function Pending(m: MarkState, g: Globals): set<Ref> {
    PSet(m.h, m.again, m.weak, g.tmudata)
  }

  ghost predicate PhaseOK(m: MarkState, g: Globals)
    requires m.h.Keys == m.c.Keys && |g.strt| > 0
  {
    match g.phase
    case Pause => Rested(m.h, m.c, g.cw, g.tmudata)
    case Finalize => Rested(m.h, m.c, g.cw, g.tmudata)
    case Propagate =>
      && MarkInv(m, g.cw, Pending(m, g))
      && Marked(m.c, g.R.main) && (g.R.registry.Ptr? ==> Marked(m.c, g.R.registry.r))
    case SweepString => StringsSwept(m.h, m.c, g.cw, |g.strt|, g.sweepstrgc) && g.sweepgc == 0
        && g.sweepstrgc < |g.strt|
    case Sweep => StringsSwept(m.h, m.c, g.cw, |g.strt|, |g.strt|) && RootsSwept(m.h, m.c, g.cw, g.rootgc, g.sweepgc)
  }

  /** Whatever a program can reach is alive. */
  ghost predicate Alive(m: MarkState, g: Globals) {
    && m.h.Keys == m.c.Keys
    && Intact(m.h, m.c, g.cw, g.fixed) && RootsLive(m.h, m.c, g.cw, g.fixed, g.R)
    && FixedOK(m.h, g.fixed, g.R.main) && TmuOK(m.c, g.cw, g.tmudata) && NoBlackStacks(m.h, m.c)
  }

  /** What every state keeps besides the invariant of its phase. */
  ghost predicate Common(m: MarkState, g: Globals) {
    Alive(m, g) && |g.strt| > 0 && Linked(m.h, g.rootgc, g.strt, g.tmudata, g.uvhead)
  }

  /** The invariant of the collector. */
  ghost predicate Inv(m: MarkState, g: Globals) {
    Common(m, g) && PhaseOK(m, g)
  }

  /** What the marking part of atomic leaves. */
  ghost predicate AtomicMarked(m0: MarkState, g0: Globals, m: MarkState, g: Globals) {
    && g == g0.(finalized := g.finalized, rootgc := g.rootgc, tmudata := g.tmudata)
    && MarkInv(m, g.cw, {}) && m.gray == [] && SameButTables(m0.h, m.h)
    && Linked(m.h, g.rootgc, g.strt, g.tmudata, g.uvhead) && RootsMarked(m.c, g.R)
    && forall u :: u in g.tmudata ==> u in m.h && m.h[u].Udata? && Marked(m.c, u)
  }

  /** atomic ends in a state where only unmarked objects are dead. */
  lemma AtomicEnds(m0: MarkState, g0: Globals, m1: MarkState, g1: Globals, m: MarkState, g: Globals)
    requires Inv(m0, g0) && g0.phase == Propagate && AtomicMarked(m0, g0, m1, g1)
    requires ClearedUpto(m1, g1.finalized, m.h, m.c, |m1.weak|) && AllMarked(m.h, m.c)
    requires g == g1.(cw := !g1.cw, sweepstrgc := 0, sweepgc := 0, phase := SweepString)
    ensures Inv(m, g) && m.h.Keys == m0.h.Keys && RootsMarked(m.c, g.R)
  {
    hide MarkInv, Linked, StringsSwept, Intact, RootsMarked, AllMarked, RootsLive, ClearedUpto, SameButTables;
    hide FixedOK, TmuOK, NoBlackStacks, Live;
    AtomicRoots(m1, g1.finalized, m.h, m.c, g.fixed, g.R.main, m0.h, g.R);
    TablesKeepKeys(m0.h, m.h);
    AtomicFlip(m1, m.h, m.c, g1.finalized, g0.cw, g.tmudata, g.fixed, g.R.main);
    LinkedStays(m1.h, m.h, g.rootgc, g.strt, g.tmudata, g.uvhead);
    RootsMarkedLive(m0.h, m0.c, g0.cw, m.h, m.c, g.cw, g.fixed, g.R);
    NoneSwept(m.h, m.c, g.cw, |g.strt|);
  }

  lemma LinkedParts(h: Heap, rootgc: seq<Ref>, strt: seq<seq<Ref>>, tmudata: seq<Ref>, uvhead: seq<Ref>)
    requires Linked(h, rootgc, strt, tmudata, uvhead)
    ensures RootsOK(h, rootgc, tmudata) && StringsOK(h, strt) && OpenOK(h, uvhead)
  {
  }

  lemma AtomicUdataEnds(m0: MarkState, g0: Globals, m1: MarkState, m: MarkState, g: Globals)
    requires Inv(m0, g0) && g == g0.(finalized := g.finalized, rootgc := g.rootgc, tmudata := g.tmudata)
    requires SameButTables(m0.h, m1.h) && Progress(m1.h, m1.c, m.h, m.c) && RootsMarked(m1.c, g0.R)
    requires MarkInv(m, g.cw, {}) && m.gray == []
    requires RootsOK(m.h, g.rootgc, g.tmudata) && forall u :: u in g.tmudata ==> Marked(m.c, u)
    ensures AtomicMarked(m0, g0, m, g)
  {
    hide MarkInv, RootsOK, StringsOK, OpenOK, Progress, RootsMarked, NoDup, Intact, RootsLive;
    RootsMarkedStay(m1.h, m1.c, m.h, m.c, g0.R);
    ProgressFacts(m1.h, m1.c, m.h, m.c);
    TmuFacts(m.h, g.rootgc, g.tmudata);
    StringsStay(m0.h, m.h, g.strt);
    OpenStays(m0.h, m.h, g.uvhead);
  }

  /** Marking keeps what every state keeps. */
  lemma MarkCommon(m0: MarkState, g0: Globals, m: MarkState, g: Globals, P: set<Ref>)
    requires Common(m0, g0) && MarkInv(m, g.cw, P) && SameButTables(m0.h, m.h) && g == g0.(phase := g.phase)
    ensures Common(m, g)
  {
    MarkInvFacts(m, g.cw, P);
    assert StacksGray(m);
    hide MarkInv, Intact, RootsOK, StringsOK, OpenOK, NoDangling;
    OneWhiteIntact(m.h, m.c, g.cw, g.fixed);
    LinkedStays(m0.h, m.h, g.rootgc, g.strt, g.tmudata, g.uvhead);
    hide Linked, SameButTables;
    MarkRoots(m0, g0, m, g);
  }

  lemma MarkRoots(m0: MarkState, g0: Globals, m: MarkState, g: Globals)
    requires Common(m0, g0) && SameButTables(m0.h, m.h) && g == g0.(phase := g.phase)
    requires m.h.Keys == m.c.Keys && OneWhite(m.c, g.cw) && StacksGray(m)
    ensures RootsLive(m.h, m.c, g.cw, g.fixed, g.R) && FixedOK(m.h, g.fixed, g.R.main)
    ensures TmuOK(m.c, g.cw, g.tmudata) && NoBlackStacks(m.h, m.c)
  {
    TmuFacts(m0.h, g0.rootgc, g0.tmudata);
    hide Linked, Intact;
    hide RootsLive, FixedOK, TmuOK, NoBlackStacks, SameButTables;
    RootsStayLive(m0.h, m0.c, m.h, m.c, g.cw, g.fixed, g.R);
    MarkTmuOK(m0.h, m, g.cw, g.tmudata);
  }

  lemma MarkTmuOK(h0: Heap, m: MarkState, cw: bool, tmudata: seq<Ref>)
    requires m.h.Keys == m.c.Keys && OneWhite(m.c, cw) && StacksGray(m) && SameButTables(h0, m.h)
    requires forall u :: u in tmudata ==> u in h0 && h0[u].Udata?
    ensures TmuOK(m.c, cw, tmudata) && NoBlackStacks(m.h, m.c)
  {
  }

  lemma RootsStayLive(h0: Heap, c0: Marks, h: Heap, c: Marks, cw: bool, fixed: set<Ref>, R: Roots)
    requires RootsLive(h0, c0, cw, fixed, R) && FixedOK(h0, fixed, R.main) && SameButTables(h0, h) && OneWhite(c, cw)
    ensures RootsLive(h, c, cw, fixed, R) && FixedOK(h, fixed, R.main)
  {
  }

  /** The start of a cycle. */
  lemma MarkStart(m: MarkState, g: Globals)
    requires Common(m, g) && Rested(m.h, m.c, g.cw, g.tmudata)
    ensures var m' := m.(gray := [], again := [], weak := []);
            MarkInv(m', g.cw, Pending(m', g))
  {
    var m' := m.(gray := [], again := [], weak := []);
    TmuFacts(m.h, g.rootgc, g.tmudata);
    assert OneWhite(m.c, g.cw);
    OneWhiteIntact(m.h, m.c, g.cw, g.fixed);
    hide Linked, Intact, NoDangling, RootsLive, Done;
    assert forall o :: o in m.h && Marked(m.c, o) ==> o in g.tmudata && m.h[o].Udata? && m.c[o] == Black;
  }
}
