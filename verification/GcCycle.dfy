/** The steps from phase to phase. */
module GcCycle {
  import opened GcHeap
  import opened GcMark
  import opened GcLinks
  import opened GcInv
  import opened GcSweep
  import opened GcClose

  lemma RegistryIn(h: Heap, c: Marks, cw: bool, fixed: set<Ref>, R: Roots)
    requires RootsLive(h, c, cw, fixed, R) && Intact(h, c, cw, fixed)
    ensures h[R.main].Thread? && (R.registry.Ptr? ==> R.registry.r in h)
    ensures h[R.main].globals.Ptr? ==> h[R.main].globals.r in h
  {
    assert h[R.main].globals.Ptr? ==> Refers(h, R.main, h[R.main].globals.r);
  }

  lemma MarkRootEnds(m0: MarkState, g0: Globals, m: MarkState, g: Globals)
    requires Inv(m0, g0) && m.h == m0.h && m.again == [] && m.weak == [] && g == g0.(phase := Propagate)
    requires MarkInv(m, g.cw, Pending(m0.(gray := [], again := [], weak := []), g0))
    requires Marked(m.c, g.R.main) && (g.R.registry.Ptr? ==> Marked(m.c, g.R.registry.r))
    ensures Inv(m, g)
  {
    hide MarkInv, PhaseOK, Common, Marked;
    var P := Pending(m0.(gray := [], again := [], weak := []), g0);
    assert P == Pending(m, g);
    MarkCommon(m0, g0, m, g, P);
    MarkPhase(m, g);
  }

  lemma MarkPhase(m: MarkState, g: Globals)
    requires Common(m, g) && g.phase == Propagate && MarkInv(m, g.cw, Pending(m, g))
    requires Marked(m.c, g.R.main) && (g.R.registry.Ptr? ==> Marked(m.c, g.R.registry.r))
    ensures Inv(m, g)
  {
    hide MarkInv, Alive, Linked, Pending, Marked;
  }

  lemma PropagateEnds(m0: MarkState, m: MarkState, g: Globals)
    requires Inv(m0, g) && g.phase == Propagate && m0.gray != [] && Progress(m0.h, m0.c, m.h, m.c)
    requires MarkInv(m, g.cw, Pending(m0, g) - {m0.gray[0]}) && Grown(m0.again, m.again) && Grown(m0.weak, m.weak)
    ensures Inv(m, g) && SameButTables(m0.h, m.h)
  {
    hide MarkInv, Common;
    var P := Pending(m0, g) - {m0.gray[0]};
    ProgressFacts(m0.h, m0.c, m.h, m.c);
    assert Marked(m0.c, g.R.main) && (g.R.registry.Ptr? ==> Marked(m0.c, g.R.registry.r));
    assert P <= Pending(m, g);
    hide Progress, Pending, PhaseOK;
    MarkInvMono(m, g.cw, P, Pending(m, g));
    MarkCommon(m0, g, m, g, P);
    MarkPhase(m, g);
  }

  lemma FinalizerInv(m0: MarkState, g0: Globals, m: MarkState, g: Globals)
    requires Inv(m0, g0) && g0.phase == Finalize && g0.tmudata != []
    requires m == Whiten(m0, g0.cw, g0.tmudata[0])
    requires g == g0.(tmudata := g0.tmudata[1..], rootgc := [g0.tmudata[0]] + g0.rootgc)
    ensures Inv(m, g)
  {
    hide Alive, Linked, Rested;
    var o := g0.tmudata[0];
    InvKeys(m0, g0);
    FinalizerLists(m0, g0, g);
    TmuLive(m0, g0, o);
    WhitenAlive(m0, g0, o);
    FewerTmu(m, g0, g);
    FinalizerRested(m0, g0, m, g);
  }

  lemma FinalizerRested(m0: MarkState, g0: Globals, m: MarkState, g: Globals)
    requires m0.h.Keys == m0.c.Keys && Rested(m0.h, m0.c, g0.cw, g0.tmudata)
    requires g0.tmudata != [] && g0.tmudata[0] in m0.h
    requires m == Whiten(m0, g0.cw, g0.tmudata[0]) && g.tmudata == g0.tmudata[1..] && g.cw == g0.cw
    ensures m.h.Keys == m.c.Keys && Rested(m.h, m.c, g.cw, g.tmudata)
  {
    assert forall x :: x in g0.tmudata ==> x == g0.tmudata[0] || x in g.tmudata;
  }

  lemma TmuLive(m: MarkState, g: Globals, o: Ref)
    requires Alive(m, g) && o in g.tmudata
    ensures IsLive(m, g, o)
  {
    hide Intact, RootsLive;
  }

  lemma FewerTmu(m: MarkState, g0: Globals, g: Globals)
    requires Alive(m, g0) && g == g0.(tmudata := g.tmudata, rootgc := g.rootgc) && forall x :: x in g.tmudata ==>
               x in g0.tmudata
    ensures Alive(m, g)
  {
    hide Intact, RootsLive;
  }

  lemma FinalizerLists(m0: MarkState, g0: Globals, g: Globals)
    requires Linked(m0.h, g0.rootgc, g0.strt, g0.tmudata, g0.uvhead) && g0.tmudata != []
    requires g == g0.(tmudata := g0.tmudata[1..], rootgc := [g0.tmudata[0]] + g0.rootgc)
    ensures Linked(m0.h, g.rootgc, g.strt, g.tmudata, g.uvhead)
  {
    hide StringsOK, OpenOK;
    assert g0.tmudata[0] in g0.tmudata;
    assert forall x :: x in g.tmudata ==> x in g0.tmudata && x != g0.tmudata[0];
  }

  // ---------------------------------------------------------------------
  // A cycle ends

  function Rank(phase: Phase): nat {
    match phase
    case Propagate => 4
    case SweepString => 3
    case Sweep => 2
    case Finalize => 1
    case Pause => 0
  }

  ghost function RankSet(m: MarkState, g: Globals): set<Ref> {
    match g.phase
    case Propagate => Whites(m.c)
    case Sweep => m.h.Keys
    case _ => {}
  }

  ghost function RankNum(m: MarkState, g: Globals): nat {
    match g.phase
    case Propagate => |m.gray|
    case SweepString => if g.sweepstrgc <= |g.strt| then |g.strt| - g.sweepstrgc else 0
    case Sweep => if g.sweepgc <= |g.rootgc| then |g.rootgc| - g.sweepgc else 0
    case Finalize => |g.tmudata|
    case Pause => 0
  }

  /** A step brings the end of the cycle nearer. */
  ghost predicate Falls(m0: MarkState, g0: Globals, m: MarkState, g: Globals) {
    || Rank(g.phase) < Rank(g0.phase)
    || (g.phase == g0.phase && RankSet(m, g) < RankSet(m0, g0))
    || (g.phase == g0.phase && RankSet(m, g) == RankSet(m0, g0) && RankNum(m, g) < RankNum(m0, g0))
  }

  lemma PreservesLive(m0: MarkState, g0: Globals, m: MarkState, g: Globals)
    requires Preserves(m0, g0, m, g)
    ensures forall o :: IsLive(m0, g0, o) ==> o in m.h
    ensures forall o :: IsLive(m, g, o) ==> IsLive(m0, g0, o)
  {
    hide SameValue;
  }

  /** When all lists are swept, everything but tmudata is white. */
  lemma SweepEnds(m: MarkState, g: Globals)
    requires Inv(m, g) && g.phase == Sweep && g.sweepgc >= |g.rootgc|
    ensures Inv(m, g.(phase := Finalize))
  {
    assert m.h.Keys == m.c.Keys && StringsSwept(m.h, m.c, g.cw, |g.strt|, |g.strt|)
        && RootsSwept(m.h, m.c, g.cw, g.rootgc, |g.rootgc|);
    assert Linked(m.h, g.rootgc, g.strt, g.tmudata, g.uvhead);
    hide Inv;
    assert Rested(m.h, m.c, g.cw, g.tmudata) by {
      forall o | o in m.h && o !in g.tmudata ensures m.c[o] == White(g.cw) { AllSwept(m, g, o); }
    }
    RestPhase(m, g, Finalize);
  }

  lemma RestPhase(m: MarkState, g: Globals, p: Phase)
    requires Inv(m, g) && m.h.Keys == m.c.Keys && Rested(m.h, m.c, g.cw, g.tmudata) && (p == Finalize || p == Pause)
    ensures Inv(m, g.(phase := p))
  {
    hide Linked, Intact, RootsLive, Rested;
  }

  lemma AllSwept(m: MarkState, g: Globals, o: Ref)
    requires m.h.Keys == m.c.Keys && |g.strt| > 0 && StringsSwept(m.h, m.c, g.cw, |g.strt|, |g.strt|)
    requires RootsSwept(m.h, m.c, g.cw, g.rootgc, |g.rootgc|) && Linked(m.h, g.rootgc, g.strt, g.tmudata, g.uvhead)
    requires o in m.h && o !in g.tmudata
    ensures m.c[o] == White(g.cw)
  {
    hide Bucket, NoDup;
    if m.h[o].Str? {
      assert Bucket(m.h[o], |g.strt|) < |g.strt|;
    } else if m.h[o].Open? {
      var th := m.h[o].thread;
      TmuFacts(m.h, g.rootgc, g.tmudata);
      assert th in g.rootgc;
      var i :| 0 <= i < |g.rootgc| && g.rootgc[i] == th;
      assert ObjSwept(m.h, m.c, g.cw, th);
    } else {
      var i :| 0 <= i < |g.rootgc| && g.rootgc[i] == o;
      assert ObjSwept(m.h, m.c, g.cw, o);
    }
  }

  lemma CycleEnds(m: MarkState, g: Globals)
    requires Inv(m, g) && g.phase == Finalize
    ensures Inv(m, g.(phase := Pause))
  {
    InvKeys(m, g);
    hide Common;
    assert Rested(m.h, m.c, g.cw, g.tmudata);
    RestPhase(m, g, Pause);
  }

  /** Between cycles and while marking no object is dead. */
  lemma NothingDead(m: MarkState, g: Globals)
    requires Inv(m, g) && !Sweeping(g)
    ensures forall o :: o in m.h ==> IsLive(m, g, o)
  {
    InvKeys(m, g);
    assert TmuOK(m.c, g.cw, g.tmudata);
    if g.phase == Propagate { MarkInvFacts(m, g.cw, Pending(m, g)); }
    hide Common, MarkInv;
  }

  /** luaC_fullgc gives up marking. */
  lemma AbortMark(m: MarkState, g: Globals)
    requires Inv(m, g)
    ensures Inv(m.(gray := [], again := [], weak := []), g.(sweepstrgc := 0, sweepgc := 0, phase := SweepString))
    ensures Preserves(m, g, m.(gray := [], again := [], weak := []),
              g.(sweepstrgc := 0, sweepgc := 0, phase := SweepString))
  {
    hide PhaseOK, Linked, Alive, Preserves;
    InvKeys(m, g);
    NoneSwept(m.h, m.c, g.cw, |g.strt|);
    AbortPhase(m, g);
    AbortAlive(m, g);
  }

  lemma AbortAlive(m: MarkState, g: Globals)
    requires Alive(m, g)
    ensures var m', g' := m.(gray := [], again := [], weak := []),
              g.(sweepstrgc := 0, sweepgc := 0, phase := SweepString);
            Alive(m', g') && Preserves(m, g, m', g')
  {
    hide Intact, RootsLive;
  }

  lemma AbortPhase(m: MarkState, g: Globals)
    requires m.h.Keys == m.c.Keys && |g.strt| > 0 && StringsSwept(m.h, m.c, g.cw, |g.strt|, 0)
    ensures PhaseOK(m.(gray := [], again := [], weak := []), g.(sweepstrgc := 0, sweepgc := 0, phase := SweepString))
  {
  }
}
