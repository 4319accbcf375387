/** Which userdata a collection finalizes. */
module GcFinal {
  import opened GcHeap
  import opened GcMark
  import opened GcLinks
  import opened GcInv
  import opened GcSweep
  import opened GcClose
  import opened GcCycle
  import opened GcBound
  import opened GcSeen
  import opened GcExact

  // ---------------------------------------------------------------------
  // The law

  /** K holds the roots, and what its members refer to strongly. Userdata that
      already wait for their finalizers do not count: they are not traversed
      before the others have been chosen. */
  ghost predicate Reached(h: Heap, R: Roots, tmudata: seq<Ref>, K: set<Ref>) {
    && RootsWithin(R, K)
    && forall o, r :: o in K && o in h && o !in tmudata && Grips(h, o, r) ==> r in K
  }

  /** Nothing that the program reaches by strong references is finalized. */
  ghost predicate FinalizesOnly(h0: Heap, R: Roots, tmudata: seq<Ref>, fin0: set<Ref>, fin: set<Ref>) {
    exists K :: Reached(h0, R, tmudata, K) && fin - fin0 !! K
  }

  /** Every userdata outside X that has a finalizer is finalized. */
  ghost predicate FinalizesBeyond(h0: Heap, fin0: set<Ref>, fin: set<Ref>, X: set<Ref>) {
    forall u :: Finalizable(h0, fin0, u) && u !in X ==> u in fin
  }

  // ---------------------------------------------------------------------
  // The atomic step

  ghost function MarkedSet(c: Marks): (K: set<Ref>)
    ensures forall r :: r in K <==> Marked(c, r)
  {
    set r | r in c && Marked(c, r)
  }

  /** Before userdata are separated, what is marked has been reached. */
  lemma MarkedReached(h0: Heap, m: MarkState, cw: bool, R: Roots, tmudata: seq<Ref>)
    requires MarkInv(m, cw, Elems(tmudata)) && m.gray == [] && ModesOK(m) && RootsMarked(m.c, R)
    requires OnlyTrimmed(h0, m.h)
    ensures Reached(h0, R, tmudata, MarkedSet(m.c))
  {
    hide MarkInv, ModesOK, OnlyTrimmed, Grips, Marked;
    forall o, r | Marked(m.c, o) && o in h0 && o !in tmudata && Grips(h0, o, r) ensures Marked(m.c, r) {
      TrimmedGrips(h0, m.h, o, r);
      MarkedGrips(m, cw, Elems(tmudata), o, r);
    }
  }

  /** What luaC_separateudata chose, said of the heap before the atomic step. */
  lemma SeparatedFinal(h0: Heap, m: MarkState, cw: bool, R: Roots, tmudata: seq<Ref>, fin0: set<Ref>, fin: set<Ref>)
    requires MarkInv(m, cw, Elems(tmudata)) && m.gray == [] && ModesOK(m) && RootsMarked(m.c, R)
    requires OnlyTrimmed(h0, m.h)
    requires forall u :: u in fin && u !in fin0 ==> !Marked(m.c, u)
    ensures FinalizesOnly(h0, R, tmudata, fin0, fin)
  {
    hide MarkInv, ModesOK, OnlyTrimmed, Marked, Reached, RootsMarked;
    MarkedReached(h0, m, cw, R, tmudata);
    assert fin - fin0 !! MarkedSet(m.c);
  }

  lemma SeparatedBeyond(h0: Heap, m: MarkState, tmudata: seq<Ref>, fin0: set<Ref>, fin: set<Ref>, X: set<Ref>)
    requires OnlyTrimmed(h0, m.h) && MarkedIn(m.c, X) && forall u :: u in tmudata ==> u in X
    requires forall u :: Finalizable(m.h, fin0, u) && !Marked(m.c, u) && u !in tmudata ==> u in fin
    ensures FinalizesBeyond(h0, fin0, fin, X)
  {
    hide Finalizable, OnlyTrimmed;
    TrimmedFinalizable(h0, m.h, fin0);
  }

  // ---------------------------------------------------------------------
  // Steps before and after it

  lemma TrimmedOnly(h0: Heap, h1: Heap, R: Roots, tmudata: seq<Ref>, fin0: set<Ref>, fin: set<Ref>)
    requires OnlyTrimmed(h0, h1) && FinalizesOnly(h1, R, tmudata, fin0, fin)
    ensures FinalizesOnly(h0, R, tmudata, fin0, fin)
  {
    hide OnlyTrimmed, Grips;
    var K :| Reached(h1, R, tmudata, K) && fin - fin0 !! K;
    forall o, r | o in K && o in h0 && o !in tmudata && Grips(h0, o, r) ensures r in K { TrimmedGrips(h0, h1, o, r); }
    assert Reached(h0, R, tmudata, K);
  }

  lemma TrimmedBeyond(h0: Heap, h1: Heap, fin0: set<Ref>, fin: set<Ref>, X: set<Ref>)
    requires OnlyTrimmed(h0, h1) && FinalizesBeyond(h1, fin0, fin, X)
    ensures FinalizesBeyond(h0, fin0, fin, X)
  {
    hide Finalizable, OnlyTrimmed;
    TrimmedFinalizable(h0, h1, fin0);
  }

  /** A sweep goes before. */
  lemma SweptOnly(m0: MarkState, g0: Globals, m1: MarkState, g1: Globals, fin: set<Ref>)
    requires Preserves(m0, g0, m1, g1) && Intact(m0.h, m0.c, g0.cw, g0.fixed) && RootsWithin(g1.R, m1.h.Keys)
    requires forall o :: o in m1.h ==> IsLive(m1, g1, o)
    requires FinalizesOnly(m1.h, g1.R, g1.tmudata, g1.finalized, fin)
    ensures FinalizesOnly(m0.h, g1.R, g1.tmudata, g1.finalized, fin)
  {
    hide IsLive, Grips, Refers, Preserves, Intact;
    var K :| Reached(m1.h, g1.R, g1.tmudata, K) && fin - g1.finalized !! K;
    var K' := K * m1.h.Keys;
    forall o, r | o in K' && o in m0.h && o !in g1.tmudata && Grips(m0.h, o, r) ensures r in K' {
      SweptGripsLive(m0, g0, m1, g1, o, r);
    }
    assert Reached(m0.h, g1.R, g1.tmudata, K');
  }

  lemma SweptGripsLive(m0: MarkState, g0: Globals, m1: MarkState, g1: Globals, o: Ref, r: Ref)
    requires Preserves(m0, g0, m1, g1) && Intact(m0.h, m0.c, g0.cw, g0.fixed) && IsLive(m1, g1, o)
    requires o in m0.h && Grips(m0.h, o, r)
    ensures o in m1.h && Grips(m1.h, o, r) && r in m1.h
  {
    SweptGrips(m0, g0, m1, g1, o, r);
    assert Refers(m0.h, o, r);
    hide Refers, Grips, TableKeeps;
    assert IsLive(m0, g0, r) && SameValue(m0.h, m1.h, r);
  }

  lemma RootsInHeap(m: MarkState, g: Globals)
    requires Inv(m, g)
    ensures RootsWithin(g.R, m.h.Keys)
  {
    hide PhaseOK, Linked;
    RootsIn(m.h, m.c, g.cw, g.fixed, g.R);
    RegistryIn(m.h, m.c, g.cw, g.fixed, g.R);
  }

  lemma ProgressTrimmed(h0: Heap, c0: Marks, h: Heap, c: Marks)
    requires Progress(h0, c0, h, c)
    ensures OnlyTrimmed(h0, h)
  {
  }

  lemma BoundMarked(h: Heap, c: Marks, X: set<Ref>)
    requires Bound(h, c, X)
    ensures MarkedIn(c, X)
  {
  }

  /** The four parts of markroot. */
  lemma MarkRootMarks(h: Heap, c0: Marks, c1: Marks, c2: Marks, c3: Marks, c: Marks, R: Roots)
    requires Progress(h, c0, h, c1) && Progress(h, c1, h, c2) && Progress(h, c2, h, c3) && Progress(h, c3, h, c)
    requires BlackStrong(h, c0) && Marked(c1, R.main) && (R.registry.Ptr? ==> Marked(c3, R.registry.r))
    ensures BlackStrong(h, c) && Marked(c, R.main) && (R.registry.Ptr? ==> Marked(c, R.registry.r))
  {
    hide IsWeak;
  }

  lemma HeldStays(g0: Globals, g: Globals, X: set<Ref>)
    requires RootsHeld(g0, X) && g.R == g0.R && g.tmudata == g0.tmudata
    ensures RootsHeld(g, X)
  {
  }

  lemma RetainsEncloses(m: MarkState, g: Globals, X: set<Ref>)
    requires Retains(m, g, X)
    ensures Encloses(m, g, X)
  {
    hide ClosedUnder;
  }

  /** One object has to be on the root list before it moves to tmudata. */
  lemma SeparatesIs(m: MarkState, rootgc: seq<Ref>, tmudata: seq<Ref>, fin: set<Ref>, u: Ref)
    requires RootsOK(m.h, rootgc, tmudata) && m.h.Keys == m.c.Keys
    requires Finalizable(m.h, fin, u) && !Marked(m.c, u) && u !in tmudata
    ensures u in rootgc && u in m.h && m.h[u].Udata? && u in m.c && m.c[u].White? && u !in fin
    ensures HasFinalizer(m.h, m.h[u].meta)
  {
    hide HasFinalizer;
  }

  /** Of the userdata that were alive before a collection, the ones outside X
      that have a finalizer are finalized. */
  ghost predicate FinalizesAll(m0: MarkState, g0: Globals, fin: set<Ref>, X: set<Ref>) {
    forall u :: IsLive(m0, g0, u) && Finalizable(m0.h, g0.finalized, u) && u !in X ==> u in fin
  }

  lemma SweptBeyond(m0: MarkState, g0: Globals, m1: MarkState, g1: Globals, fin: set<Ref>, X: set<Ref>)
    requires Preserves(m0, g0, m1, g1) && Intact(m0.h, m0.c, g0.cw, g0.fixed) && g1.finalized == g0.finalized
    requires FinalizesBeyond(m1.h, g1.finalized, fin, X)
    ensures FinalizesAll(m0, g0, fin, X)
  {
    hide Refers, IsLive;
    forall u | IsLive(m0, g0, u) && Finalizable(m0.h, g0.finalized, u) ensures Finalizable(m1.h, g1.finalized, u) {
      assert SameValue(m0.h, m1.h, u);
      MetaStays(m0, g0, m1, g1, u);
    }
  }

  /** A sweep does not make more objects reachable. */
  lemma SweptEncloses(m0: MarkState, g0: Globals, m: MarkState, g: Globals, X: set<Ref>)
    requires Preserves(m0, g0, m, g) && Intact(m0.h, m0.c, g0.cw, g0.fixed) && forall o :: o in m.h ==> IsLive(m, g, o)
    requires g.R == g0.R && g.tmudata == g0.tmudata && Encloses(m0, g0, X)
    ensures Encloses(m, g, X)
  {
    assert forall o :: o in m.h ==> IsLive(m0, g0, o) && SameValue(m0.h, m.h, o);
    assert forall o :: IsLive(m0, g0, o) ==> o in m.h;
    hide Preserves, Intact, IsLive;
    forall p, x | p in X && p in m.h && Strong(m.h, p, x) ensures x in X {
      assert Strong(m0.h, p, x) by { SweptStrong(m0, g0, m, p, x); }
    }
  }
}
