/** What a collection may keep at most: sets of objects that are closed under
    strong references. */
module GcBound {
  import opened GcHeap
  import opened GcMark
  import opened GcLinks
  import opened GcClear
  import opened GcInv
  import opened GcSweep
  import opened GcClose
  import opened GcCycle

  /** o has a reference to r that is not weak. */
  predicate Grips(h: Heap, o: Ref, r: Ref)
    requires o in h
  {
    if h[o].Table? then TableKeeps(h[o], WeakKeys(h, h[o].meta), WeakVals(h, h[o].meta), r)
    else HoldsPlain(h, h[o], r)
  }

  // Which references are weak, by the modes of the table

  lemma StrongTableGrips(h: Heap, o: Ref, r: Ref)
    requires o in h && h[o].Table? && !IsWeak(h, h[o].meta)
    ensures Grips(h, o, r) <==> Refers(h, o, r)
  {
  }

  /** A weak table grips its metatable; with weak keys only, it also grips its
      values, and with weak values only, its keys. */
  lemma WeakTableGrips(h: Heap, o: Ref, r: Ref)
    requires o in h && h[o].Table?
    ensures h[o].meta == Ptr(r) ==> Grips(h, o, r)
    ensures WeakKeys(h, h[o].meta) && WeakVals(h, h[o].meta) ==> (Grips(h, o, r) <==> h[o].meta == Ptr(r))
    ensures var inValues := Ptr(r) in h[o].slots || exists e :: e in h[o].node && e.val == Ptr(r);
            && (WeakKeys(h, h[o].meta) && !WeakVals(h, h[o].meta) && h[o].meta != Ptr(r) ==>
                  (Grips(h, o, r) <==> inValues))
            && (!WeakKeys(h, h[o].meta) && WeakVals(h, h[o].meta) && h[o].meta != Ptr(r) ==>
                  (Grips(h, o, r) <==> exists e :: e in h[o].node && e.val != Nil && e.key == Key(Ptr(r))))
  {
  }

  /** The modes and the finalizer are the fields of the metatable. */
  lemma ModesAre(h: Heap, mt: Ref, t: Obj)
    requires mt in h && t.Table? && h[mt] == t
    ensures (WeakKeys(h, Ptr(mt)) <==> t.tm.weakKey) && (WeakVals(h, Ptr(mt)) <==> t.tm.weakVal)
    ensures HasFinalizer(h, Ptr(mt)) <==> t.tm.gc
    ensures forall n :: !WeakKeys(h, Prim(n)) && !WeakVals(h, Prim(n)) && !HasFinalizer(h, Prim(n))
  {
  }

  /** o may keep r alive: strings in weak tables are not treated as weak. */
  predicate Strong(h: Heap, o: Ref, r: Ref)
    requires o in h
  {
    Grips(h, o, r) || (h[o].Table? && r in h && h[r].Str? && Refers(h, o, r))
  }

  ghost predicate ClosedUnder(h: Heap, X: set<Ref>) {
    forall o, r :: o in X && o in h && Strong(h, o, r) ==> r in X
  }

  ghost predicate MarkedIn(c: Marks, X: set<Ref>) {
    forall r :: Marked(c, r) ==> r in X
  }

  /** Marking from what is marked now stays within X. */
  ghost predicate Bound(h: Heap, c: Marks, X: set<Ref>) {
    ClosedUnder(h, X) && MarkedIn(c, X)
  }

  lemma PlainIn(h: Heap, X: set<Ref>, o: Ref)
    requires ClosedUnder(h, X) && o in X && o in h && !h[o].Table?
    ensures forall x :: HoldsPlain(h, h[o], x) ==> x in X
  {
    hide HoldsPlain;
    forall x | HoldsPlain(h, h[o], x) ensures x in X { assert Grips(h, o, x) && Strong(h, o, x); }
  }

  lemma TableIn(h: Heap, X: set<Ref>, o: Ref)
    requires ClosedUnder(h, X) && o in X && o in h && h[o].Table?
    ensures forall x :: TableKeeps(h[o], WeakKeys(h, h[o].meta), WeakVals(h, h[o].meta), x) ==> x in X
    ensures forall x :: x in h && h[x].Str? && Refers(h, o, x) ==> x in X
  {
    hide TableKeeps, Refers;
    forall x | TableKeeps(h[o], WeakKeys(h, h[o].meta), WeakVals(h, h[o].meta), x) ensures x in X {
      assert Grips(h, o, x) && Strong(h, o, x);
    }
    forall x | x in h && h[x].Str? && Refers(h, o, x) ensures x in X { assert Strong(h, o, x); }
  }

  lemma MarkOneIn(c: Marks, X: set<Ref>, o: Ref, col: Colour)
    requires MarkedIn(c, X) && o in X
    ensures MarkedIn(c[o := col], X)
  {
  }

  lemma TrimmedClosed(h0: Heap, h: Heap, o: Ref, X: set<Ref>)
    requires Trimmed(h0, h, o) && ClosedUnder(h0, X)
    ensures ClosedUnder(h, X)
  {
    TrimmedRefers(h0, h, o);
    hide HoldsPlain, Refers;
    forall p, x | p in X && p in h && Strong(h, p, x) ensures x in X {
      if p == o { TrimNodeRefers(h0[o].node, x); }
      assert Strong(h0, p, x);
    }
  }

  /** What the traversal of a weak table noted is what its metatable says. */
  ghost predicate ModesOK(m: MarkState) {
    forall o :: o in m.weak ==> ModeNoted(m, o)
  }

  predicate ModeNoted(m: MarkState, o: Ref) {
    && o in m.h && m.h[o].Table?
    && (o in m.wk <==> WeakKeys(m.h, m.h[o].meta)) && (o in m.wv <==> WeakVals(m.h, m.h[o].meta))
    && IsWeak(m.h, m.h[o].meta)
  }

  lemma ModesStay(m0: MarkState, m: MarkState, o: Ref)
    requires ModesOK(m0) && (m.h == m0.h || Trimmed(m0.h, m.h, o))
    requires forall x :: x != o ==> (x in m.wk <==> x in m0.wk) && (x in m.wv <==> x in m0.wv)
    requires m.weak == m0.weak || m.weak == [o] + m0.weak
    requires o !in m0.weak && (m.weak == m0.weak || ModeNoted(m, o))
    ensures ModesOK(m)
  {
  }

  lemma TraversedModes(m0: MarkState, m: MarkState, o: Ref, c1: Marks, c2: Marks, cw: bool, P: set<Ref>)
    requires MarkInv(m0, cw, P) && Traversed(m0, m, o, c1, c2) && ModesOK(m0)
    requires m.weak == m0.weak || ModeNoted(m, o)
    ensures ModesOK(m)
  {
    assert o in m0.gray && o !in m0.weak;
    hide MarkInv, Marking, Done, ModesOK, ModeNoted;
    ModesStay(m0, m, o);
  }

  // ---------------------------------------------------------------------
  // The atomic step

  /** fasttm(metatable, TM_GC) */
  predicate HasFinalizer(h: Heap, meta: Val) {
    meta.Ptr? && meta.r in h && h[meta.r].Table? && h[meta.r].tm.gc
  }

  ghost predicate RootsWithin(R: Roots, X: set<Ref>) {
    R.main in X && R.running in X && (R.registry.Ptr? ==> R.registry.r in X)
    && forall v :: v in R.mt && v.Ptr? ==> v.r in X
  }

  /** Userdata that have or will get their turn to be finalized. */
  ghost predicate TmuWithin(h: Heap, g: Globals, X: set<Ref>) {
    && (forall u :: u in g.tmudata ==> u in X)
    && forall u :: u in h && h[u].Udata? && u !in g.finalized && HasFinalizer(h, h[u].meta) ==> u in X
  }

  ghost predicate Covers(h: Heap, g: Globals, X: set<Ref>) {
    RootsWithin(g.R, X) && TmuWithin(h, g, X) && g.fixed <= X
  }

  lemma TmuStays(h0: Heap, c0: Marks, h: Heap, c: Marks, g: Globals, X: set<Ref>)
    requires Progress(h0, c0, h, c) && TmuWithin(h0, g, X)
    ensures TmuWithin(h, g, X)
  {
    forall u | u in h && h[u].Udata? && HasFinalizer(h, h[u].meta)
        ensures h0[u] == h[u] && HasFinalizer(h0, h0[u].meta) {
    }
  }

  lemma WeakIn(m: MarkState, cw: bool, X: set<Ref>)
    requires MarkInv(m, cw, {}) && m.gray == [] && Bound(m.h, m.c, X)
    ensures forall o :: o in m.weak ==> o in X
  {
    WeakFacts(m, cw);
  }

  lemma ClearedClosed(h0: Heap, c: Marks, fin: set<Ref>, o: Ref, weakVal: bool, X: set<Ref>)
    requires o in h0 && h0[o].Table? && NoDangling(h0) && ClosedUnder(h0, X)
    ensures ClosedUnder(h0[o := ClearTable(h0, c, fin, h0[o], weakVal)], X)
  {
    var h := h0[o := ClearTable(h0, c, fin, h0[o], weakVal)];
    ClearOneOther(h0, h, c, fin, o, weakVal);
    assert forall p: Obj, x :: HoldsPlain(h, p, x) == HoldsPlain(h0, p, x);
    hide Refers, HoldsPlain, Cleared, ClearTable, NoDangling;
    forall p, x | p in X && p in h && Strong(h, p, x) ensures x in X {
      if p == o { ClearedStrong(h0, c, fin, o, weakVal, x); }
      assert Strong(h0, p, x);
    }
  }

  lemma ClearedStrong(h0: Heap, c: Marks, fin: set<Ref>, o: Ref, weakVal: bool, x: Ref)
    requires o in h0 && h0[o].Table? && NoDangling(h0)
    requires Strong(h0[o := ClearTable(h0, c, fin, h0[o], weakVal)], o, x)
    ensures Strong(h0, o, x)
  {
  }

  /** After the flip, what is alive was marked or is fixed. */
  lemma LiveIn(m0: MarkState, g0: Globals, m1: MarkState, g1: Globals, m: MarkState, g: Globals, X: set<Ref>)
    requires AtomicMarked(m0, g0, m1, g1) && ClearedUpto(m1, g1.finalized, m.h, m.c, |m1.weak|)
    requires g == g1.(cw := !g1.cw, sweepstrgc := 0, sweepgc := 0, phase := SweepString)
    requires Covers(m0.h, g0, X) && Bound(m.h, m.c, X)
    ensures forall o :: IsLive(m, g, o) ==> o in X
  {
    hide ClosedUnder, Linked, RootsMarked, SameButTables, NoDangling, Refers, ClearTable, TmuWithin, RootsWithin;
    MarkInvFacts(m1, g1.cw, {});
    hide MarkInv;
    assert StringsMarked(m1.h, m1.c, m.c);
  }

  // ---------------------------------------------------------------------
  // A whole collection

  /** X is closed under strong references and holds the roots, what is fixed
      and what waits for its finalizer: a collection may not keep more. */
  ghost predicate Retains(m: MarkState, g: Globals, X: set<Ref>) {
    ClosedUnder(m.h, X) && Covers(m.h, g, X)
  }

  ghost predicate AliveIn(m: MarkState, g: Globals, X: set<Ref>) {
    forall o :: IsLive(m, g, o) ==> o in X
  }

  lemma MarkRootStart(m: MarkState, g: Globals)
    requires Inv(m, g) && (g.phase == Pause || g.phase == Finalize)
    ensures g.R.main in m.h && g.R.running in m.h && m.h[g.R.main].Thread?
    ensures forall v :: v in g.R.mt && v.Ptr? ==> v.r in m.h
    ensures (g.R.registry.Ptr? ==> g.R.registry.r in m.h)
              && (m.h[g.R.main].globals.Ptr? ==> m.h[g.R.main].globals.r in m.h)
    ensures var m' := m.(gray := [], again := [], weak := []);
            MarkInv(m', g.cw, Pending(m', g))
  {
    RootsIn(m.h, m.c, g.cw, g.fixed, g.R);
    RegistryIn(m.h, m.c, g.cw, g.fixed, g.R);
    MarkStart(m, g);
  }

  lemma RetainsSame(m0: MarkState, g0: Globals, m: MarkState, g: Globals, X: set<Ref>)
    requires Retains(m0, g0, X) && m.h == m0.h && g == g0.(phase := g.phase)
    ensures Retains(m, g, X)
  {
    hide ClosedUnder;
  }

  /** X holds the roots and the userdata that already wait. */
  ghost predicate RootsHeld(g: Globals, X: set<Ref>) {
    RootsWithin(g.R, X) && forall u :: u in g.tmudata ==> u in X
  }

  /** X is such a set and closed under strong references. */
  ghost predicate Encloses(m: MarkState, g: Globals, X: set<Ref>) {
    ClosedUnder(m.h, X) && RootsHeld(g, X)
  }

  lemma RestIn(m: MarkState, g: Globals, X: set<Ref>)
    requires Inv(m, g) && (g.phase == Pause || g.phase == Finalize) && Encloses(m, g, X)
    ensures Bound(m.h, m.c, X)
    ensures g.R.main in m.h && (m.h[g.R.main].globals.Ptr? ==> m.h[g.R.main].globals.r in X)
    ensures g.R.main in X && (g.R.registry.Ptr? ==> g.R.registry.r in X) && RootsWithin(g.R, X) && RootsHeld(g, X)
  {
    assert Rested(m.h, m.c, g.cw, g.tmudata) && m.h.Keys == m.c.Keys;
    RootsIn(m.h, m.c, g.cw, g.fixed, g.R);
    RegistryIn(m.h, m.c, g.cw, g.fixed, g.R);
    hide Inv, ClosedUnder;
    PlainIn(m.h, X, g.R.main);
  }

  /** A sweep does not make more objects reachable. */
  lemma SweptRetains(m0: MarkState, g0: Globals, m: MarkState, g: Globals, X: set<Ref>)
    requires Preserves(m0, g0, m, g) && Intact(m0.h, m0.c, g0.cw, g0.fixed) && forall o :: o in m.h ==> IsLive(m, g, o)
    requires g.R == g0.R && g.tmudata == g0.tmudata && g.finalized == g0.finalized && g.fixed == g0.fixed
    requires Retains(m0, g0, X)
    ensures Retains(m, g, X)
  {
    assert forall o :: o in m.h ==> IsLive(m0, g0, o) && SameValue(m0.h, m.h, o);
    hide Preserves;
    forall u | u in m.h && m.h[u].Udata? && HasFinalizer(m.h, m.h[u].meta)
        ensures m0.h[u] == m.h[u] && HasFinalizer(m0.h, m0.h[u].meta) {
      assert SameValue(m0.h, m.h, u) && SameValue(m0.h, m.h, m.h[u].meta.r);
    }
    hide Intact, IsLive;
    forall p, x | p in X && p in m.h && Strong(m.h, p, x) ensures x in X {
      assert Strong(m0.h, p, x) by { SweptStrong(m0, g0, m, p, x); }
    }
  }

  lemma SweptStrong(m0: MarkState, g0: Globals, m: MarkState, p: Ref, x: Ref)
    requires Intact(m0.h, m0.c, g0.cw, g0.fixed) && p in m.h && IsLive(m0, g0, p) && Strong(m.h, p, x)
    requires forall o :: IsLive(m0, g0, o) ==> o in m.h
    requires forall o :: o in m.h ==> SameValue(m0.h, m.h, o)
    ensures Strong(m0.h, p, x)
  {
    assert SameValue(m0.h, m.h, p);
    if m.h[p].Table? {
      assert m.h[p] == m0.h[p];
      if m.h[p].meta.Ptr? && m.h[p].meta.r in m0.h {
        assert Refers(m0.h, p, m.h[p].meta.r);
        assert SameValue(m0.h, m.h, m.h[p].meta.r);
      }
      if x in m.h { assert SameValue(m0.h, m.h, x); }
    }
  }

  lemma InvIntact(m: MarkState, g: Globals)
    requires Inv(m, g)
    ensures Intact(m.h, m.c, g.cw, g.fixed)
  {
    hide Linked, PhaseOK;
  }

  lemma AliveStays(m0: MarkState, g0: Globals, m: MarkState, g: Globals, X: set<Ref>)
    requires AliveIn(m0, g0, X) && Inv(m0, g0)
    requires Sweeping(g0) ==> Preserves(m0, g0, m, g)
    requires g0.phase == Finalize ==> m.h == m0.h
    requires g0.phase == Finalize || Sweeping(g0)
    ensures AliveIn(m, g, X)
  {
    if g0.phase == Finalize { NothingDead(m0, g0); }
    hide Inv, SameValue;
  }

  lemma AllIn(m: MarkState, g: Globals, X: set<Ref>)
    requires AliveIn(m, g, X) && forall o :: o in m.h ==> IsLive(m, g, o)
    ensures m.h.Keys <= X
  {
  }
}
