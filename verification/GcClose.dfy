/** Closing an open upvalue in every phase of a cycle. */
module GcClose {
  import opened GcHeap
  import opened GcMark
  import opened GcLinks
  import opened GcInv
  import opened GcSweep

  /** The colour luaC_linkupval gives to an upvalue that is not dead. */
  function LinkColour(c: Colour, phase: Phase, cw: bool): Colour {
    if c == Gray then (if phase == Propagate then Black else White(cw)) else c
  }

  lemma LeavesHolds(h: Heap, h': Heap, th: Ref, i: nat, p: Ref, x: Ref)
    requires LeavesOpen(h, h', th, i) && p in h && p in h' && p != h[th].openupval[i]
    ensures Holds(h', p, x) == Holds(h, p, x)
  {
    LeavesOpenRefers(h, h', th, i, p, x);
  }

  lemma CloseTri(m: MarkState, cw: bool, P: set<Ref>, th: Ref, i: nat, m': MarkState)
    requires MarkInv(m, cw, P) && LeavesOpen(m.h, m'.h, th, i) && m'.h.Keys == m'.c.Keys == m.h.Keys
    requires m' == m.(h := m'.h, c := m'.c) && m.h[th].openupval[i] in P
    requires forall x :: x in m.h && x != m.h[th].openupval[i] ==> m'.c[x] == m.c[x]
    requires Marked(m.c, m.h[th].openupval[i]) == Marked(m'.c, m.h[th].openupval[i])
    ensures Tri(m'.h, m'.c, m'.wk, m'.wv, m'.gray, P)
  {
    hide ListsOK, StacksGray, GrayTables, NoDangling;
    var u := m.h[th].openupval[i];
    forall o | o in m'.h && Marked(m'.c, o) && o != u ensures o in m.gray || o in P || Done(m'.h, m'.c, m.wk, m.wv, o) {
      assert Marked(m.c, o);
      if Done(m.h, m.c, m.wk, m.wv, o) {
        forall r | Keeps(m'.h, m'.c, m.wk, m.wv, o, r) ensures Marked(m'.c, r) {
          LeavesHolds(m.h, m'.h, th, i, o, r);
          assert Keeps(m.h, m.c, m.wk, m.wv, o, r);
        }
      }
    }
  }

  lemma CloseLists(m: MarkState, cw: bool, th: Ref, i: nat, m': MarkState)
    requires LeavesOpen(m.h, m'.h, th, i) && m'.h.Keys == m'.c.Keys == m.h.Keys == m.c.Keys && ListsOK(m)
    requires m' == m.(h := m'.h, c := m'.c)
    requires forall x :: x in m.h && x != m.h[th].openupval[i] ==> m'.c[x] == m.c[x]
    ensures ListsOK(m')
  {
    hide Without, NoDup;
    var u := m.h[th].openupval[i];
    assert u !in m.gray && u !in m.again && u !in m.weak;
  }

  /** Objects other than u keep their kind, u becomes a closed upvalue. */
  ghost predicate OnlyCloses(h: Heap, h': Heap, u: Ref) {
    && u in h && u in h' && h'[u].Closed? && h'.Keys == h.Keys
    && forall x :: x in h && x != u ==> h'[x] == h[x] || (h[x].Thread? && h'[x].Thread?)
  }

  lemma LeavesCloses(h: Heap, h': Heap, th: Ref, i: nat)
    requires LeavesOpen(h, h', th, i) && h'.Keys == h.Keys
    ensures OnlyCloses(h, h', h[th].openupval[i])
  {
  }

  lemma CloseStacks(m: MarkState, cw: bool, P: set<Ref>, u: Ref, m': MarkState)
    requires OnlyCloses(m.h, m'.h, u) && m'.h.Keys == m'.c.Keys == m.h.Keys == m.c.Keys
    requires StacksGray(m) && GrayTables(m, P) && OneWhite(m.c, cw) && m' == m.(h := m'.h, c := m'.c)
    requires forall x :: x in m.h && x != u ==> m'.c[x] == m.c[x]
    requires m'.c[u] == Black || m'.c[u] == White(cw)
    ensures StacksGray(m') && GrayTables(m', P) && OneWhite(m'.c, cw)
  {
  }

  /** In the mark phase a closed upvalue may still have to mark its value. */
  lemma CloseMarkInv(m: MarkState, cw: bool, P: set<Ref>, th: Ref, i: nat, m': MarkState)
    requires MarkInv(m, cw, P) && LeavesOpen(m.h, m'.h, th, i) && m'.h.Keys == m'.c.Keys == m.h.Keys
    requires m' == m.(h := m'.h, c := m'.c) && m.h[th].openupval[i] in P && NoDangling(m'.h)
    requires forall x :: x in m.h && x != m.h[th].openupval[i] ==> m'.c[x] == m.c[x]
    requires m'.c[m.h[th].openupval[i]] == LinkColour(m.c[m.h[th].openupval[i]], Propagate, cw)
    ensures MarkInv(m', cw, P)
  {
    hide Tri, ListsOK, GrayTables, NoDangling;
    assert m.c[m.h[th].openupval[i]] != Black && OneWhite(m.c, cw);
    CloseTri(m, cw, P, th, i, m');
    CloseLists(m, cw, th, i, m');
    LeavesCloses(m.h, m'.h, th, i);
    hide LeavesOpen;
    CloseStacks(m, cw, P, m.h[th].openupval[i], m');
  }

  /** In the other phases the closed upvalue is white, like a new object. */
  lemma ClosePhase(m: MarkState, g: Globals, th: Ref, i: nat, m': MarkState, g': Globals)
    requires Inv(m, g) && g.phase != Propagate && LeavesOpen(m.h, m'.h, th, i) && m'.h.Keys == m'.c.Keys == m.h.Keys
    requires forall x :: x in m.h && x != m.h[th].openupval[i] ==> m'.c[x] == m.c[x]
    requires m'.c[m.h[th].openupval[i]] == White(g.cw)
    requires g' == LinkRoot(g.(uvhead := g'.uvhead), m.h[th].openupval[i])
    ensures |g'.strt| > 0 && PhaseOK(m', g')
  {
    hide Alive, Linked, Bucket, OpenList;
    InvKeys(m, g);
    OpenListOf(m.h, g, th);
    match g.phase {
      case Sweep =>
        assert forall s :: s in m'.h && m'.h[s].Str? ==> m'.h[s] == m.h[s];
        CloseSwept(m, g, th, i, m');
      case SweepString =>
        assert forall s :: s in m'.h && m'.h[s].Str? ==> m'.h[s] == m.h[s];
      case Pause =>
      case Finalize =>
    }
  }

  lemma OpenListOf(h: Heap, g: Globals, th: Ref)
    requires Linked(h, g.rootgc, g.strt, g.tmudata, g.uvhead) && th in h && h[th].Thread?
    ensures OpenList(h, th)
  {
  }

  lemma CloseSwept(m: MarkState, g: Globals, th: Ref, i: nat, m': MarkState)
    requires LeavesOpen(m.h, m'.h, th, i) && m'.h.Keys == m'.c.Keys == m.h.Keys == m.c.Keys
    requires forall x :: x in m.h && x != m.h[th].openupval[i] ==> m'.c[x] == m.c[x]
    requires m'.c[m.h[th].openupval[i]] == White(g.cw) && m'.h[m.h[th].openupval[i]].Closed?
    requires RootsSwept(m.h, m.c, g.cw, g.rootgc, g.sweepgc)
    ensures RootsSwept(m'.h, m'.c, g.cw, [m.h[th].openupval[i]] + g.rootgc, Shifted(g.sweepgc))
  {
    var u := m.h[th].openupval[i];
    var r' := [u] + g.rootgc;
    forall k | 0 <= k < Shifted(g.sweepgc) ensures ObjSwept(m'.h, m'.c, g.cw, r'[k]) {
      if k > 0 {
        assert r'[k] == g.rootgc[k - 1] && ObjSwept(m.h, m.c, g.cw, r'[k]);
      }
    }
  }

  // ---------------------------------------------------------------------
  // The phase of a sweep

  ghost predicate Sweeping(g: Globals) {
    g.phase == SweepString || g.phase == Sweep
  }

  lemma WhitenInv(m: MarkState, g: Globals, o: Ref)
    requires Inv(m, g) && Sweeping(g) && IsLive(m, g, o)
    ensures Inv(Whiten(m, g.cw, o), g) && Preserves(m, g, Whiten(m, g.cw, o), g)
  {
    hide Alive, Linked, Preserves, PhaseOK;
    InvKeys(m, g);
    WhitenAlive(m, g, o);
    WhitenPreserves(m, g, o);
    WhitenPhase(m, g, o);
  }

  lemma WhitenPhase(m: MarkState, g: Globals, o: Ref)
    requires m.h.Keys == m.c.Keys && |g.strt| > 0 && PhaseOK(m, g) && Sweeping(g) && o in m.h
    ensures Whiten(m, g.cw, o).c.Keys == m.h.Keys && PhaseOK(Whiten(m, g.cw, o), g)
  {
    hide Bucket;
    var m' := Whiten(m, g.cw, o);
    if g.phase == Sweep {
      forall i | 0 <= i < g.sweepgc ensures ObjSwept(m'.h, m'.c, g.cw, g.rootgc[i]) {
        assert ObjSwept(m.h, m.c, g.cw, g.rootgc[i]);
      }
    }
  }

  lemma FreeOpenInv(m: MarkState, g: Globals, th: Ref, i: nat, j: nat)
    requires Inv(m, g) && Sweeping(g) && th in m.h && m.h[th].Thread? && i < |m.h[th].openupval|
    requires j < |g.uvhead| && g.uvhead[j] == m.h[th].openupval[i] && IsDead(m, g, g.uvhead[j])
    ensures Inv(FreeOpen(m, th, i), UvWithout(g, j)) && Preserves(m, g, FreeOpen(m, th, i), UvWithout(g, j))
  {
    FreeOpenCommon(m, g, th, i, j);
    UnlinkFacts(m, g, th, i);
    assert m.h.Keys == m.c.Keys;
    hide Common, Alive, Linked, Preserves, OpenOK;
    FreeOpenPhase(m, g, th, i);
  }

  lemma FreeOpenPhase(m: MarkState, g: Globals, th: Ref, i: nat)
    requires m.h.Keys == m.c.Keys && |g.strt| > 0 && PhaseOK(m, g) && Sweeping(g)
    requires th in m.h && m.h[th].Thread? && i < |m.h[th].openupval| && IsDead(m, g, m.h[th].openupval[i])
    requires m.h[th].openupval[i] in m.h && m.h[m.h[th].openupval[i]].Open?
    ensures var m' := FreeOpen(m, th, i); m'.h.Keys == m'.c.Keys && PhaseOK(m', g)
  {
    hide Bucket;
    var u, m' := m.h[th].openupval[i], FreeOpen(m, th, i);
    assert m'.h.Keys == m'.c.Keys;
    assert forall x :: x in m'.h ==> x in m.h && x != u && m'.c[x] == m.c[x];
    assert forall x :: x in Without(m.h[th].openupval, i) ==> x in m.h[th].openupval;
    if g.phase == Sweep {
      forall k | 0 <= k < g.sweepgc ensures ObjSwept(m'.h, m'.c, g.cw, g.rootgc[k]) {
        assert ObjSwept(m.h, m.c, g.cw, g.rootgc[k]);
      }
    }
  }

  lemma FreeStringInv(m: MarkState, g: Globals, i: nat)
    requires Inv(m, g) && g.phase == SweepString && i < |g.strt[g.sweepstrgc]| && IsDead(m, g, g.strt[g.sweepstrgc][i])
    ensures var b := g.sweepstrgc;
            var m', g' := Free(m, g.strt[b][i]), g.(strt := g.strt[b := Without(g.strt[b], i)]);
            Inv(m', g') && Preserves(m, g, m', g')
  {
    hide Alive, Linked, Preserves, NoOpenIn, PhaseOK;
    InvKeys(m, g);
    var b := g.sweepstrgc;
    var o := g.strt[b][i];
    var m', g' := Free(m, o), g.(strt := g.strt[b := Without(g.strt[b], i)]);
    FreeStringLinked(m.h, g, b, i);
    FreeAlive(m, g, o);
    FreePreserves(m, g, o, g');
    AliveStrings(m', g, g');
    FreeStringPhase(m, g, i);
  }

  lemma AliveStrings(m: MarkState, g: Globals, g': Globals)
    requires Alive(m, g) && g' == g.(strt := g'.strt)
    ensures Alive(m, g')
  {
  }

  lemma FreeStringPhase(m: MarkState, g: Globals, i: nat)
    requires m.h.Keys == m.c.Keys && |g.strt| > 0 && PhaseOK(m, g)
    requires g.phase == SweepString && i < |g.strt[g.sweepstrgc]| && g.strt[g.sweepstrgc][i] in m.h
    ensures var b := g.sweepstrgc;
            PhaseOK(Free(m, g.strt[b][i]), g.(strt := g.strt[b := Without(g.strt[b], i)]))
  {
    hide Bucket;
  }

  lemma FreeRootInv(m: MarkState, g: Globals, p: nat)
    requires Inv(m, g) && g.phase == Sweep && g.sweepgc <= p < |g.rootgc| && g.rootgc[p] in m.h
               && IsDead(m, g, g.rootgc[p])
    requires m.h[g.rootgc[p]].Thread? ==> m.h[g.rootgc[p]].openupval == []
    ensures var m', g' := Free(m, g.rootgc[p]), g.(rootgc := Without(g.rootgc, p));
            Inv(m', g') && Preserves(m, g, m', g')
  {
    var o := g.rootgc[p];
    var m', g' := Free(m, o), g.(rootgc := Without(g.rootgc, p));
    FreeRootLinked(m.h, g, p);
    FreeAlive(m, g, o);
    FreePreserves(m, g, o, g');
    assert Alive(m', g') && m.h.Keys == m.c.Keys;
    hide Alive, Linked, Preserves, NoOpenIn;
    FreeRootPhase(m, g, p);
  }

  lemma FreeRootPhase(m: MarkState, g: Globals, p: nat)
    requires m.h.Keys == m.c.Keys && |g.strt| > 0 && PhaseOK(m, g)
    requires g.phase == Sweep && g.sweepgc <= p < |g.rootgc| && g.rootgc[p] in m.h && IsDead(m, g, g.rootgc[p])
    ensures PhaseOK(Free(m, g.rootgc[p]), g.(rootgc := Without(g.rootgc, p)))
  {
    hide Bucket;
    var o := g.rootgc[p];
    var m', rootgc := Free(m, o), Without(g.rootgc, p);
    forall k | 0 <= k < g.sweepgc ensures ObjSwept(m'.h, m'.c, g.cw, rootgc[k]) {
      assert rootgc[k] == g.rootgc[k] && ObjSwept(m.h, m.c, g.cw, g.rootgc[k]);
    }
  }

  lemma RootKind(h: Heap, g: Globals, p: nat)
    requires Linked(h, g.rootgc, g.strt, g.tmudata, g.uvhead) && p < |g.rootgc|
    ensures g.rootgc[p] in h && !h[g.rootgc[p]].Open? && !h[g.rootgc[p]].Str?
  {
    assert g.rootgc[p] in g.rootgc;
  }

  // ---------------------------------------------------------------------
  // One chain of the string table

  lemma PreservesRefl(m: MarkState, g: Globals)
    ensures Preserves(m, g, m, g)
  {
  }

  lemma PreservesSame2(m0: MarkState, g0: Globals, m: MarkState, g: Globals, g': Globals)
    requires Preserves(m0, g0, m, g) && g'.cw == g.cw && g'.fixed == g.fixed
    ensures Preserves(m0, g0, m, g')
  {
    hide SameValue;
  }

  ghost predicate ChainSwept(m: MarkState, cw: bool, chain: seq<Ref>, n: nat)
    requires n <= |chain|
  {
    forall i :: 0 <= i < n ==> chain[i] in m.c && m.c[chain[i]] == White(cw)
  }

  lemma StringAt(m: MarkState, g: Globals)
    requires Inv(m, g) && g.phase == SweepString
    ensures g.sweepstrgc < |g.strt| && m.h.Keys == m.c.Keys
    ensures forall i :: 0 <= i < |g.strt[g.sweepstrgc]| ==> g.strt[g.sweepstrgc][i] in m.h
  {
    hide Bucket, RootsOK, OpenOK, Intact;
    forall i | 0 <= i < |g.strt[g.sweepstrgc]| ensures g.strt[g.sweepstrgc][i] in m.h {
      assert g.strt[g.sweepstrgc][i] in g.strt[g.sweepstrgc];
    }
  }

  lemma ChainStep(m: MarkState, g: Globals, i: nat)
    requires Inv(m, g) && g.phase == SweepString && i < |g.strt[g.sweepstrgc]|
               && ChainSwept(m, g.cw, g.strt[g.sweepstrgc], i)
    ensures var chain := g.strt[g.sweepstrgc];
            && (IsDead(m, g, chain[i]) ==> ChainSwept(Free(m, chain[i]), g.cw, Without(chain, i), i))
            && ChainSwept(Whiten(m, g.cw, chain[i]), g.cw, chain, i + 1)
  {
    hide Inv;
  }

  lemma ChainDone(m: MarkState, g: Globals, g': Globals)
    requires Inv(m, g) && g.phase == SweepString && ChainSwept(m, g.cw, g.strt[g.sweepstrgc], |g.strt[g.sweepstrgc]|)
    requires g' == g.(sweepstrgc := g.sweepstrgc + 1, phase := if g.sweepstrgc + 1 < |g.strt| then SweepString
               else Sweep)
    ensures Inv(m, g')
  {
    assert StringsOK(m.h, g.strt);
    hide Bucket, RootsOK, OpenOK, Intact, RootsLive, FixedOK, TmuOK, NoBlackStacks;
    forall s | s in m.h && m.h[s].Str? && Bucket(m.h[s], |g.strt|) < g.sweepstrgc + 1 ensures m.c[s] == White(g.cw) {
      if Bucket(m.h[s], |g.strt|) == g.sweepstrgc {
        var i :| 0 <= i < |g.strt[g.sweepstrgc]| && g.strt[g.sweepstrgc][i] == s;
      }
    }
    assert g'.phase == Sweep ==> g.sweepstrgc + 1 == |g.strt|;
  }

  // ---------------------------------------------------------------------
  // The open upvalues of one thread

  lemma OpenAt(m: MarkState, g: Globals, th: Ref, i: nat)
    requires Inv(m, g) && th in m.h && m.h[th].Thread? && i < |m.h[th].openupval|
    ensures var u := m.h[th].openupval[i];
            && u in m.h && m.h[u].Open? && m.h[u].thread == th && u in g.uvhead && m.h.Keys == m.c.Keys
            && m.c[u] != Black && u !in g.fixed && m.h[u].level < |m.h[th].stack|
  {
    UnlinkFacts(m, g, th, i);
    OpenListOf(m.h, g, th);
    assert FixedOK(m.h, g.fixed, g.R.main) && RootsLive(m.h, m.c, g.cw, g.fixed, g.R);
    hide PhaseOK, Linked, OpenOK, Intact;
  }

  lemma OpenStep(m: MarkState, g: Globals, th: Ref, i: nat)
    requires th in m.h && m.h[th].Thread? && i < |m.h[th].openupval| && ChainSwept(m, g.cw, m.h[th].openupval, i)
    requires m.h[th].openupval[i] in m.h && m.h[m.h[th].openupval[i]].Open?
    ensures var l := m.h[th].openupval;
            && (IsDead(m, g, l[i]) ==> ChainSwept(FreeOpen(m, th, i), g.cw, Without(l, i), i))
            && ChainSwept(Whiten(m, g.cw, l[i]), g.cw, l, i + 1)
  {
  }

  // ---------------------------------------------------------------------
  // luaF_close

  lemma DeadSweeping(m: MarkState, g: Globals, u: Ref)
    requires Inv(m, g) && u in m.h && m.h[u].Open? && IsDead(m, g, u)
    ensures Sweeping(g)
  {
    assert g.phase == Pause || g.phase == Finalize ==> u !in g.tmudata;
    hide Intact, RootsLive, Tri, ListsOK, StacksGray, NoDangling;
  }

  /** Upvalue u was closed in the mark phase, from state m0, g0. */
  ghost predicate ClosedInMark(m0: MarkState, g0: Globals, m: MarkState, g: Globals, u: Ref) {
    && g.phase == Propagate && g == g0.(uvhead := g.uvhead, rootgc := g.rootgc, sweepgc := g.sweepgc)
    && Inv(m0, g0) && Common(m, g) && Preserves(m0, g0, m, g) && MarkInv(m, g.cw, Pending(m0, g0))
    && u in m.h && m.h[u].Closed? && u in m0.h && m0.h[u].Open? && u in m.c && m.c[u] != Gray
    && m.again == m0.again && m.weak == m0.weak && (forall x :: Marked(m0.c, x) ==> Marked(m.c, x))
    && m.h.Keys == m0.h.Keys && forall x :: x in m.h && x != u ==>
        m.h[x] == m0.h[x] || (m.h[x].Thread? && m0.h[x].Thread?)
  }

  lemma ClosedRefers(m: MarkState, u: Ref)
    requires u in m.h && m.h[u].Closed? && NoDangling(m.h)
    ensures m.h[u].v.Ptr? ==> m.h[u].v.r in m.h
  {
    assert m.h[u].v.Ptr? ==> Refers(m.h, u, m.h[u].v.r);
  }

  lemma LinkMarkEnds(m0: MarkState, g0: Globals, m1: MarkState, m: MarkState, g: Globals, u: Ref)
    requires ClosedInMark(m0, g0, m1, g, u) && MarkInv(m, g.cw, Pending(m0, g0)) && Progress(m1.h, m1.c, m.h, m.c)
    requires m == m1.(c := m.c, gray := m.gray) && (m1.c[u] == Black && m1.h[u].v.Ptr? ==> Marked(m.c, m1.h[u].v.r))
    requires m1.c[u] != Black ==> m == m1
    ensures Inv(m, g) && Preserves(m0, g0, m, g)
  {
    hide MarkInv, Common, Preserves, PSet, Pending;
    var P := Pending(m0, g0);
    MarkInvFacts(m1, g.cw, P);
    MarkInvFacts(m, g.cw, P);
    DropPending(m, g.cw, P, u);
    NotListed(m, g.cw, P, u);
    PendingClosed(m0, g0, m, g, u);
    MarkInvSame(m, g.cw, P - {u}, Pending(m, g));
    MarkCommon(m1, g, m, g, P);
    LinkPreserves(m0, g0, m1, m, g);
  }

  lemma NotListed(m: MarkState, cw: bool, P: set<Ref>, u: Ref)
    requires MarkInv(m, cw, P) && u in m.h && m.h[u].Closed?
    ensures u !in m.again && u !in m.weak
  {
    hide Tri, NoDangling;
  }

  lemma LinkPreserves(m0: MarkState, g0: Globals, m1: MarkState, m: MarkState, g: Globals)
    requires Preserves(m0, g0, m1, g) && m.h == m1.h && OneWhite(m.c, g.cw) && OneWhite(m1.c, g.cw)
    ensures Preserves(m0, g0, m, g)
  {
    assert forall o :: o in m.h ==> IsLive(m, g, o) && IsLive(m1, g, o);
    forall o | IsLive(m0, g0, o) ensures IsLive(m, g, o) && SameValue(m0.h, m.h, o) {
      assert SameValue(m0.h, m1.h, o);
    }
  }

  lemma PendingClosed(m0: MarkState, g0: Globals, m: MarkState, g: Globals, u: Ref)
    requires Common(m0, g0) && u in m0.h && m0.h[u].Open? && u in m.h && m.h[u].Closed? && g.tmudata == g0.tmudata
    requires m.again == m0.again && m.weak == m0.weak && m.h.Keys == m0.h.Keys
    requires forall x :: x in m.h && x != u ==> m.h[x] == m0.h[x] || (m.h[x].Thread? && m0.h[x].Thread?)
    requires u !in m.again && u !in m.weak
    ensures forall x :: x in m.h ==> (x in Pending(m0, g0) - {u} <==> x in Pending(m, g))
  {
    TmuFacts(m0.h, g0.rootgc, g0.tmudata);
    hide Common;
  }

  /** What closing changes. */
  ghost predicate Closing(m: MarkState, g: Globals, u: Ref, m': MarkState, g': Globals) {
    && OnlyCloses(m.h, m'.h, u) && m' == m.(h := m'.h, c := m'.c) && m'.c.Keys == m.c.Keys == m.h.Keys
    && (forall x :: x in m.h && x != u ==> m'.c[x] == m.c[x]) && m'.c[u] == LinkColour(m.c[u], g.phase, g.cw)
    && m.h[u].Open? && m.c[u] != Black
    && g' == LinkRoot(g.(uvhead := g'.uvhead), u)
  }

  lemma ClosingFacts(m: MarkState, g: Globals, th: Ref, j: nat, col: Colour)
    requires th in m.h && m.h[th].Thread? && |m.h[th].openupval| > 0 && m.h.Keys == m.c.Keys
    requires j < |g.uvhead| && g.uvhead[j] == m.h[th].openupval[0] && g.uvhead[j] in m.h && m.h[g.uvhead[j]].Open?
    requires m.c[g.uvhead[j]] != Black && col == LinkColour(m.c[g.uvhead[j]], g.phase, g.cw)
    ensures Closing(m, g, g.uvhead[j], CloseOpen(m, th, 0, col), LinkRoot(UvWithout(g, j), g.uvhead[j]))
  {
  }

  /** Closing the first open upvalue of th. */
  lemma CloseReady(m: MarkState, g: Globals, th: Ref, j: nat, m': MarkState, g': Globals)
    requires Inv(m, g) && th in m.h && m.h[th].Thread? && |m.h[th].openupval| > 0
    requires j < |g.uvhead| && g.uvhead[j] == m.h[th].openupval[0] && IsLive(m, g, g.uvhead[j])
               && m.h[g.uvhead[j]].Open?
    requires m.h.Keys == m.c.Keys && m.c[g.uvhead[j]] != Black && g.uvhead[j] !in g.fixed
    requires m' == CloseOpen(m, th, 0, LinkColour(m.c[g.uvhead[j]], g.phase, g.cw))
               && g' == LinkRoot(UvWithout(g, j), g.uvhead[j])
    ensures if g.phase == Propagate then ClosedInMark(m, g, m', g', g.uvhead[j])
              else Inv(m', g') && Preserves(m, g, m', g')
  {
    var u := g.uvhead[j];
    var col := LinkColour(m.c[u], g.phase, g.cw);
    CloseOpenCommon(m, g, th, 0, j, col);
    ClosingFacts(m, g, th, j, col);
    hide Common, Preserves, LeavesOpen, CloseOpen, PhaseOK;
    if g.phase == Propagate {
      hide Closing;
      CloseReadyMark(m, g, th, u, m', g');
    } else {
      ClosePhase(m, g, th, 0, m', g');
    }
  }

  lemma CloseReadyMark(m: MarkState, g: Globals, th: Ref, u: Ref, m': MarkState, g': Globals)
    requires Inv(m, g) && g.phase == Propagate && Closing(m, g, u, m', g')
    requires Common(m', g') && Preserves(m, g, m', g') && LeavesOpen(m.h, m'.h, th, 0) && u == m.h[th].openupval[0]
    ensures ClosedInMark(m, g, m', g', u)
  {
    hide MarkInv, Common, Preserves, LeavesOpen, NoDangling;
    var P := Pending(m, g);
    assert u in P;
    hide Pending, PSet;
    MarkInvFacts(m, g.cw, P);
    ClosedDangling(m', g');
    CloseMarkInv(m, g.cw, P, th, 0, m');
  }

  lemma ClosedDangling(m: MarkState, g: Globals)
    requires Common(m, g) && OneWhite(m.c, g.cw)
    ensures NoDangling(m.h)
  {
    hide Linked, RootsLive, FixedOK, TmuOK, NoBlackStacks, Refers;
    OneWhiteIntact(m.h, m.c, g.cw, g.fixed);
  }

  lemma BelowHead(m: MarkState, g: Globals, th: Ref, level: nat)
    requires Inv(m, g) && th in m.h && m.h[th].Thread? && m.h[th].openupval != []
    requires var u := m.h[th].openupval[0]; u in m.h && m.h[u].Open? ==> m.h[u].level < level
    ensures forall u :: u in m.h[th].openupval ==> u in m.h && m.h[u].Open? && m.h[u].level < level
  {
    OpenListOf(m.h, g, th);
    hide Inv;
    forall u | u in m.h[th].openupval ensures u in m.h && m.h[u].Open? && m.h[u].level < level {
      var i :| 0 <= i < |m.h[th].openupval| && m.h[th].openupval[i] == u;
    }
  }

  lemma InvKeys(m: MarkState, g: Globals)
    requires Inv(m, g)
    ensures m.h.Keys == m.c.Keys && |g.strt| > 0 && (g.phase == SweepString ==> g.sweepstrgc < |g.strt|)
  {
  }

  lemma SweepAt(m: MarkState, g: Globals)
    requires Inv(m, g) && g.phase == Sweep && g.sweepgc < |g.rootgc|
    ensures g.rootgc[g.sweepgc] in m.h && m.h.Keys == m.c.Keys
    ensures !m.h[g.rootgc[g.sweepgc]].Open? && !m.h[g.rootgc[g.sweepgc]].Str?
  {
    hide PhaseOK, Alive;
    RootKind(m.h, g, g.sweepgc);
    hide Common;
    InvKeys(m, g);
  }

  /** The sweep position moves over an object that is white now. */
  lemma SweepNext(m: MarkState, g: Globals, g': Globals)
    requires Inv(m, g) && g.phase == Sweep && g.sweepgc < |g.rootgc| && g' == g.(sweepgc := g.sweepgc + 1)
    requires m.h.Keys == m.c.Keys && ObjSwept(m.h, m.c, g.cw, g.rootgc[g.sweepgc])
    ensures Inv(m, g')
  {
    hide Linked, Intact, StringsSwept, ObjSwept;
  }

  /** Each upvalue of the old list l is either in its part from k on, or closed. */
  lemma CloseExact(h0: Heap, h: Heap, th: Ref, l: seq<Ref>, k: nat, level: nat)
    requires th in h0 && h0[th].Thread? && h0[th].openupval == l && OpenList(h0, th) && k <= |l|
    requires th in h && h[th].Thread? && h[th].openupval == l[k..]
    requires forall i :: 0 <= i < k ==> h0[l[i]].level >= level && (l[i] in h ==> h[l[i]].Closed?)
    requires forall i :: k <= i < |l| ==> l[i] in h && h[l[i]] == h0[l[i]]
    requires forall u :: u in h[th].openupval ==> u in h && h[u].Open? && h[u].level < level
    ensures forall u :: u in l ==>
              u in h0 && h0[u].Open?
              && (if h0[u].level < level then u in h[th].openupval && u in h && h[u] == h0[u]
                  else u !in h[th].openupval && (u in h ==> h[u].Closed?))
  {
    forall u | u in l
      ensures u in h0 && h0[u].Open?
      ensures if h0[u].level < level then u in h[th].openupval && u in h && h[u] == h0[u]
              else u !in h[th].openupval && (u in h ==> h[u].Closed?)
    {
      var i :| 0 <= i < |l| && l[i] == u;
      if i >= k {
        assert l[k..][i - k] == u;
      }
    }
  }
}
