/** What a collection may change in the objects it keeps. */
module GcSeen {
  import opened GcHeap
  import opened GcMark
  import opened GcLinks
  import opened GcClear
  import opened GcInv
  import opened GcSweep
  import opened GcClose
  import opened GcCycle
  import opened GcBound

  /** The key of an entry without a value cannot be seen. */
  ghost predicate SeenEntry(e0: Entry, e: Entry, G: set<Ref>) {
    || (e.val == e0.val && (e0.val != Nil ==> e.key == e0.key))
    || (e.val == Nil && exists x :: x in G && EntryRefers(e0, x))
  }

  ghost predicate SeenTable(t0: Obj, t: Obj, G: set<Ref>)
    requires t0.Table?
  {
    && t.Table? && t.meta == t0.meta && t.tm == t0.tm && |t.slots| == |t0.slots| && |t.node| == |t0.node|
    && (forall i :: 0 <= i < |t.slots| ==>
          t.slots[i] == t0.slots[i] || (t.slots[i] == Nil && t0.slots[i].Ptr? && t0.slots[i].r in G))
    && forall i :: 0 <= i < |t.node| ==> SeenEntry(t0.node[i], t.node[i], G)
  }

  /** To a program, o is what it was, except that a table may have lost
      entries that refer to objects of G. */
  ghost predicate Seen(h0: Heap, h: Heap, o: Ref, G: set<Ref>) {
    o in h0 && o in h && if h0[o].Table? then SeenTable(h0[o], h[o], G) else SameValue(h0, h, o)
  }

  lemma SeenMore(h0: Heap, h: Heap, o: Ref, G: set<Ref>, G': set<Ref>)
    requires Seen(h0, h, o, G) && G <= G'
    ensures Seen(h0, h, o, G')
  {
  }

  lemma SeenTrans(h0: Heap, h1: Heap, h2: Heap, o: Ref, G: set<Ref>)
    requires Seen(h0, h1, o, G) && Seen(h1, h2, o, G)
    ensures Seen(h0, h2, o, G)
  {
  }

  // ---------------------------------------------------------------------
  // Marking

  /** Tables may have lost the keys of empty entries, nothing else changed. */
  ghost predicate OnlyTrimmed(h0: Heap, h: Heap) {
    && h.Keys == h0.Keys
    && (forall o :: o in h0 ==> h[o] == h0[o] || (h0[o].Table? && h[o] == h0[o].(node := TrimNode(h0[o].node))))
  }

  lemma ProgressTrims(h0: Heap, c0: Marks, h1: Heap, c1: Marks, h2: Heap, c2: Marks)
    requires Progress(h0, c0, h1, c1) && Progress(h1, c1, h2, c2)
    ensures OnlyTrimmed(h0, h2)
  {
    ProgressTrans(h0, c0, h1, c1, h2, c2);
  }

  lemma TrimmedSeen(h0: Heap, h: Heap, o: Ref, G: set<Ref>)
    requires OnlyTrimmed(h0, h) && o in h
    ensures Seen(h0, h, o, G)
  {
  }

  // ---------------------------------------------------------------------
  // The atomic step

  /** The objects of h0 that are dead, and those that had a finalizer called. */
  ghost function Lost(h0: Heap, m: MarkState, g: Globals): (G: set<Ref>)
    ensures forall x :: x in G <==> (x in h0 && !IsLive(m, g, x)) || x in g.finalized
  {
    (set x | x in h0 && !IsLive(m, g, x)) + g.finalized
  }

  lemma ClearedLost(m0: MarkState, g0: Globals, m1: MarkState, g1: Globals, m: MarkState, g: Globals, v: Val,
                    isKey: bool)
    requires Inv(m0, g0) && AtomicMarked(m0, g0, m1, g1) && ClearedUpto(m1, g1.finalized, m.h, m.c, |m1.weak|)
    requires g == g1.(cw := !g1.cw, sweepstrgc := 0, sweepgc := 0, phase := SweepString)
    requires Cleared(m1.h, m1.c, g1.finalized, v, isKey)
    ensures v.Ptr? && v.r in Lost(m0.h, m, g)
  {
    hide MarkInv, Inv, ClearedUpto, AtomicMarked, NoDangling;
    FixedFacts(m0, g0);
    MarkedFacts(m0, g0, m1, g1);
    ClearedFacts(m1, g1.finalized, m.h, m.c);
    MarkInvFacts(m1, g1.cw, {});
  }

  lemma AtomicSeen(m0: MarkState, g0: Globals, m1: MarkState, g1: Globals, m: MarkState, g: Globals, o: Ref)
    requires Inv(m0, g0) && AtomicMarked(m0, g0, m1, g1) && ClearedUpto(m1, g1.finalized, m.h, m.c, |m1.weak|)
    requires g == g1.(cw := !g1.cw, sweepstrgc := 0, sweepgc := 0, phase := SweepString)
    requires OnlyTrimmed(m0.h, m1.h) && o in m.h
    ensures Seen(m0.h, m.h, o, Lost(m0.h, m, g))
  {
    hide AtomicMarked, Inv, Lost, ClearedUpto, SameButTables, OnlyTrimmed, Seen, Cleared, ClearTable;
    var G := Lost(m0.h, m, g);
    forall v, isKey | Cleared(m1.h, m1.c, g1.finalized, v, isKey) ensures v.Ptr? && v.r in G {
      ClearedLost(m0, g0, m1, g1, m, g, v, isKey);
    }
    ClearedObject(m1, g1.finalized, m.h, m.c, o);
    TrimmedSeen(m0.h, m1.h, o, G);
    ClearSeen(m1.h, m1.c, g1.finalized, m.h, o, o in m1.wv, G);
    SeenTrans(m0.h, m1.h, m.h, o, G);
  }

  lemma ClearedObject(m: MarkState, fin: set<Ref>, h: Heap, c: Marks, o: Ref)
    requires ClearedUpto(m, fin, h, c, |m.weak|) && o in h
    ensures SameButTables(m.h, h) && o in m.h
    ensures h[o] == m.h[o] || (m.h[o].Table? && h[o] == ClearTable(m.h, m.c, fin, m.h[o], o in m.wv))
  {
    hide ClearTable, Refers, NoDangling, StringsMarked;
    assert m.weak[..|m.weak|] == m.weak;
  }

  lemma ClearSeen(h0: Heap, c: Marks, fin: set<Ref>, h: Heap, o: Ref, weakVal: bool, G: set<Ref>)
    requires SameButTables(h0, h) && o in h0
    requires h[o] == h0[o] || (h0[o].Table? && h[o] == ClearTable(h0, c, fin, h0[o], weakVal))
    requires forall v, isKey :: Cleared(h0, c, fin, v, isKey) ==> v.Ptr? && v.r in G
    ensures Seen(h0, h, o, G)
  {
    if h0[o].Table? && h[o] != h0[o] {
      hide Cleared, SameButTables;
      forall i | 0 <= i < |h0[o].node| ensures SeenEntry(h0[o].node[i], h[o].node[i], G) {
        var e := h0[o].node[i];
        assert h[o].node[i] == ClearEntry(h0, c, fin, e);
        if e.val != Nil && KeyCleared(h0, c, fin, e.key) { assert EntryRefers(e, e.key.v.r); }
        if e.val != Nil && Cleared(h0, c, fin, e.val, false) { assert EntryRefers(e, e.val.r); }
      }
    }
  }

  // ---------------------------------------------------------------------
  // Runs

  /** What is alive has been there and looks the same. */
  ghost predicate Untouched(h0: Heap, m: MarkState, g: Globals) {
    forall o :: IsLive(m, g, o) ==> Seen(h0, m.h, o, Lost(h0, m, g))
  }

  lemma SweepUntouched(m0: MarkState, g0: Globals, m: MarkState, g: Globals)
    requires Preserves(m0, g0, m, g)
    ensures Untouched(m0.h, m, g)
  {
    forall o | IsLive(m, g, o) ensures Seen(m0.h, m.h, o, Lost(m0.h, m, g)) {
      assert IsLive(m0, g0, o) && SameValue(m0.h, m.h, o);
    }
  }

  lemma TrimUntouched(h0: Heap, m: MarkState, g: Globals)
    requires OnlyTrimmed(h0, m.h)
    ensures Untouched(h0, m, g)
  {
    hide OnlyTrimmed, Seen;
    forall o | IsLive(m, g, o) ensures Seen(h0, m.h, o, Lost(h0, m, g)) { TrimmedSeen(h0, m.h, o, Lost(h0, m, g)); }
  }

  lemma SameUntouched(h0: Heap, m: MarkState, g: Globals)
    requires m.h == h0
    ensures Untouched(h0, m, g)
  {
  }

  lemma UntouchedTrans(h0: Heap, m1: MarkState, g1: Globals, m: MarkState, g: Globals)
    requires Untouched(h0, m1, g1) && Untouched(m1.h, m, g) && m1.h.Keys <= h0.Keys && g1.finalized <= g.finalized
    requires forall o :: IsLive(m, g, o) ==> IsLive(m1, g1, o)
    ensures Untouched(h0, m, g)
  {
    hide Seen, IsLive;
    var G := Lost(h0, m, g);
    forall o | IsLive(m, g, o) ensures Seen(h0, m.h, o, G) {
      SeenMore(h0, m1.h, o, Lost(h0, m1, g1), G);
      SeenMore(m1.h, m.h, o, Lost(m1.h, m, g), G);
      SeenTrans(h0, m1.h, m.h, o, G);
    }
  }

  lemma ProgressUntouched(m0: MarkState, m: MarkState, g: Globals)
    requires Progress(m0.h, m0.c, m.h, m.c)
    ensures Untouched(m0.h, m, g) && OnlyTrimmed(m0.h, m.h)
  {
    assert OnlyTrimmed(m0.h, m.h);
    TrimUntouched(m0.h, m, g);
  }

  /** After a collection: what is left looks as before, and tables have lost
      only entries that refer to freed objects or finalized userdata. */
  ghost predicate LosesOnlyGone(h0: Heap, m: MarkState, g: Globals) {
    forall o :: o in m.h ==> Seen(h0, m.h, o, h0.Keys - m.h.Keys + g.finalized)
  }

  lemma SeenAll(h0: Heap, m: MarkState, g: Globals)
    requires Untouched(h0, m, g) && forall o :: o in m.h ==> IsLive(m, g, o)
    ensures LosesOnlyGone(h0, m, g)
  {
    hide Seen;
    forall o | o in m.h ensures Seen(h0, m.h, o, h0.Keys - m.h.Keys + g.finalized) {
      SeenMore(h0, m.h, o, Lost(h0, m, g), h0.Keys - m.h.Keys + g.finalized);
    }
  }

  // ---------------------------------------------------------------------
  // What is kept alive

  /** Whatever had a strong reference from an object that is alive is alive. */
  ghost predicate Grasped(h0: Heap, m: MarkState, g: Globals) {
    forall o, r :: IsLive(m, g, o) && o in h0 && Grips(h0, o, r) ==> IsLive(m, g, r)
  }

  /** The same when nothing is dead. */
  ghost predicate KeepsGripped(h0: Heap, h: Heap) {
    forall o, r :: o in h && o in h0 && Grips(h0, o, r) ==> r in h
  }

  lemma TrimmedGrips(h0: Heap, h: Heap, o: Ref, r: Ref)
    requires OnlyTrimmed(h0, h) && o in h0 && Grips(h0, o, r)
    ensures o in h && Grips(h, o, r)
  {
    if h0[o].Table? && h[o] != h0[o] { TrimNodeRefers(h0[o].node, r); }
  }

  /** At the end of marking, what a marked object grips is marked. */
  lemma MarkedGrips(m: MarkState, cw: bool, P: set<Ref>, o: Ref, r: Ref)
    requires MarkInv(m, cw, P) && m.gray == [] && ModesOK(m) && o in m.h && o !in P && Marked(m.c, o)
    requires Grips(m.h, o, r)
    ensures Marked(m.c, r)
  {
    hide ListsOK, StacksGray, NoDangling;
    assert Done(m.h, m.c, m.wk, m.wv, o);
    if m.h[o].Table? && m.c[o] != Black { assert o in m.weak && ModeNoted(m, o); }
    assert GcHeap.Keeps(m.h, m.c, m.wk, m.wv, o, r);
  }

  /** The atomic step makes exactly the unmarked objects dead. */
  lemma AtomicColours(m0: MarkState, g0: Globals, m1: MarkState, g1: Globals, m: MarkState, g: Globals, o: Ref)
    requires Inv(m0, g0) && AtomicMarked(m0, g0, m1, g1) && ClearedUpto(m1, g1.finalized, m.h, m.c, |m1.weak|)
    requires g == g1.(cw := !g1.cw, sweepstrgc := 0, sweepgc := 0, phase := SweepString)
    ensures m0.h.Keys == m1.h.Keys && MarkInv(m1, g1.cw, {}) && m1.gray == []
    ensures IsLive(m, g, o) ==> o in m0.h && (m0.h[o].Str? || Marked(m1.c, o))
    ensures Marked(m1.c, o) ==> IsLive(m, g, o)
  {
    hide MarkInv, Inv, ClearedUpto, AtomicMarked, NoDangling;
    FixedFacts(m0, g0);
    MarkedFacts(m0, g0, m1, g1);
    ClearedFacts(m1, g1.finalized, m.h, m.c);
    MarkInvFacts(m1, g1.cw, {});
  }

  lemma FixedFacts(m: MarkState, g: Globals)
    requires Inv(m, g)
    ensures FixedOK(m.h, g.fixed, g.R.main) && g.R.main in m.h
  {
    hide PhaseOK, Linked, Intact;
  }

  lemma MarkedFacts(m0: MarkState, g0: Globals, m: MarkState, g: Globals)
    requires AtomicMarked(m0, g0, m, g)
    ensures SameButTables(m0.h, m.h) && MarkInv(m, g.cw, {}) && m.gray == [] && Marked(m.c, g.R.main) && g.R == g0.R
              && g.fixed == g0.fixed
  {
    hide MarkInv, Linked, SameButTables;
  }

  lemma ClearedFacts(m: MarkState, fin: set<Ref>, h: Heap, c: Marks)
    requires ClearedUpto(m, fin, h, c, |m.weak|)
    ensures h.Keys == c.Keys == m.h.Keys && StringsMarked(m.h, m.c, c)
  {
    hide StringsMarked, Refers, NoDangling, ClearTable;
  }

  lemma AtomicGrips(m0: MarkState, g0: Globals, m1: MarkState, g1: Globals, m: MarkState, g: Globals, o: Ref, r: Ref)
    requires Inv(m0, g0) && AtomicMarked(m0, g0, m1, g1) && ClearedUpto(m1, g1.finalized, m.h, m.c, |m1.weak|)
    requires g == g1.(cw := !g1.cw, sweepstrgc := 0, sweepgc := 0, phase := SweepString)
    requires OnlyTrimmed(m0.h, m1.h) && ModesOK(m1) && IsLive(m, g, o) && o in m0.h && Grips(m0.h, o, r)
    ensures IsLive(m, g, r)
  {
    hide MarkInv, Inv, ClearedUpto, AtomicMarked, ModesOK, OnlyTrimmed, IsLive, Marked, TableKeeps;
    AtomicColours(m0, g0, m1, g1, m, g, o);
    AtomicColours(m0, g0, m1, g1, m, g, r);
    assert !m0.h[o].Str?;
    TrimmedGrips(m0.h, m1.h, o, r);
    MarkedGrips(m1, g1.cw, {}, o, r);
  }

  lemma TrimmedGrasped(h0: Heap, h1: Heap, m: MarkState, g: Globals)
    requires OnlyTrimmed(h0, h1) && Grasped(h1, m, g)
    ensures Grasped(h0, m, g)
  {
    hide OnlyTrimmed, IsLive, Grips;
    forall o, r | IsLive(m, g, o) && o in h0 && Grips(h0, o, r) ensures IsLive(m, g, r) { TrimmedGrips(h0, h1, o, r); }
  }

  lemma SweptGrips(m0: MarkState, g0: Globals, m: MarkState, g: Globals, p: Ref, x: Ref)
    requires Preserves(m0, g0, m, g) && Intact(m0.h, m0.c, g0.cw, g0.fixed) && IsLive(m0, g0, p) && Grips(m0.h, p, x)
    ensures p in m.h && Grips(m.h, p, x)
  {
    assert SameValue(m0.h, m.h, p);
    if m0.h[p].Table? && m0.h[p].meta.Ptr? && m0.h[p].meta.r in m.h {
      assert Refers(m0.h, p, m0.h[p].meta.r);
      assert SameValue(m0.h, m.h, m0.h[p].meta.r);
    }
  }

  /** The sweep before a full cycle, and the cycle. */
  lemma GraspedAll(m0: MarkState, g0: Globals, m1: MarkState, g1: Globals, m: MarkState, g: Globals)
    requires Preserves(m0, g0, m1, g1) && Intact(m0.h, m0.c, g0.cw, g0.fixed) && forall o :: o in m1.h ==>
               IsLive(m1, g1, o)
    requires m.h.Keys <= m1.h.Keys && Grasped(m1.h, m, g) && forall o :: o in m.h ==> IsLive(m, g, o)
    ensures KeepsGripped(m0.h, m.h)
  {
    forall o, r | o in m.h && o in m0.h && Grips(m0.h, o, r) ensures r in m.h {
      assert o in m1.h && IsLive(m1, g1, o) && IsLive(m0, g0, o);
      SweptGrips(m0, g0, m1, g1, o, r);
    }
  }

  lemma LiveKeys(m: MarkState, g: Globals, o: Ref)
    requires IsLive(m, g, o)
    ensures o in m.h
  {
  }

  lemma SameTrimmed(h: Heap)
    ensures OnlyTrimmed(h, h)
  {
  }

  /** One step of the cycle. */
  lemma StepGrasped(h0: Heap, m1: MarkState, g1: Globals, m: MarkState, g: Globals)
    requires Inv(m1, g1) && (g1.phase == Propagate || Sweeping(g1) || g1.phase == Finalize)
    requires if g1.phase == Propagate then OnlyTrimmed(h0, m1.h) else Grasped(h0, m1, g1)
    requires g1.phase == Propagate ==> if g.phase == Propagate then OnlyTrimmed(m1.h, m.h) else Grasped(m1.h, m, g)
    requires Sweeping(g1) ==> Preserves(m1, g1, m, g)
    requires g1.phase == Finalize ==> Inv(m, g) && m.h == m1.h
    requires g.phase == Propagate ==> g1.phase == Propagate
    requires g1.phase == Finalize ==> !Sweeping(g)
    ensures if g.phase == Propagate then OnlyTrimmed(h0, m.h) else Grasped(h0, m, g)
  {
    if g1.phase == Propagate {
      hide Inv, Grasped;
      if g.phase == Propagate { TrimmedTwice(h0, m1.h, m.h); } else { TrimmedGrasped(h0, m1.h, m, g); }
    } else {
      if g1.phase == Finalize { NothingDead(m, g); NothingDead(m1, g1); }
      hide Inv, Grips, SameValue;
    }
  }

  lemma TrimmedTwice(h0: Heap, h1: Heap, h2: Heap)
    requires OnlyTrimmed(h0, h1) && OnlyTrimmed(h1, h2)
    ensures OnlyTrimmed(h0, h2)
  {
    forall o | o in h0 && h0[o].Table? ensures TrimNode(TrimNode(h0[o].node)) == TrimNode(h0[o].node) {
    }
  }
}
