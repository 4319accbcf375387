/** Steps that make objects white or free them. */
module GcSweep {
  import opened GcHeap
  import opened GcMark
  import opened GcLinks
  import opened GcInv

  predicate IsDead(m: MarkState, g: Globals, o: Ref) {
    Dead(m.c, g.cw, g.fixed, o)
  }

  predicate IsLive(m: MarkState, g: Globals, o: Ref) {
    Live(m.h, m.c, g.cw, g.fixed, o)
  }

  /** makewhite */
  function Whiten(m: MarkState, cw: bool, o: Ref): MarkState {
    m.(c := m.c[o := White(cw)])
  }

  lemma WhitenAlive(m: MarkState, g: Globals, o: Ref)
    requires Alive(m, g) && IsLive(m, g, o)
    ensures Alive(Whiten(m, g.cw, o), g)
    ensures forall x :: IsLive(Whiten(m, g.cw, o), g, x) == IsLive(m, g, x)
  {
    hide Refers, Dead;
    WhitenLive(m, g, o);
  }

  lemma WhitenLive(m: MarkState, g: Globals, o: Ref)
    requires IsLive(m, g, o)
    ensures forall x :: Live(m.h, m.c[o := White(g.cw)], g.cw, g.fixed, x) == Live(m.h, m.c, g.cw, g.fixed, x)
  {
  }

  /** freeobj, without the lists */
  function Free(m: MarkState, o: Ref): MarkState {
    m.(h := m.h - {o}, c := m.c - {o})
  }

  /** No stack slot of o belongs to an open upvalue. */
  ghost predicate NoOpenIn(h: Heap, o: Ref) {
    forall u :: u in h && h[u].Open? ==> h[u].thread != o
  }

  lemma FreeRefers(h: Heap, o: Ref, p: Ref, x: Ref)
    requires NoOpenIn(h, o) && p in h && p != o
    ensures Refers(h - {o}, p, x) == Refers(h, p, x)
  {
  }

  lemma FreeAlive(m: MarkState, g: Globals, o: Ref)
    requires Alive(m, g) && o in m.h && IsDead(m, g, o) && NoOpenIn(m.h, o)
    ensures Alive(Free(m, o), g)
    ensures forall x :: IsLive(m, g, x) ==> IsLive(Free(m, o), g, x)
  {
    hide Refers;
    var m' := Free(m, o);
    assert forall x :: IsLive(m', g, x) <==> IsLive(m, g, x);
    forall p, x | IsLive(m', g, p) && Refers(m'.h, p, x) ensures IsLive(m', g, x) {
      FreeRefers(m.h, o, p, x);
    }
    assert Intact(m'.h, m'.c, g.cw, g.fixed);
  }

  // ---------------------------------------------------------------------
  // The lists

  function Without(s: seq<Ref>, i: nat): seq<Ref>
    requires i < |s|
  {
    s[..i] + s[i + 1..]
  }

  lemma FreeStringLinked(h: Heap, g: Globals, b: nat, i: nat)
    requires Linked(h, g.rootgc, g.strt, g.tmudata, g.uvhead) && b < |g.strt| && i < |g.strt[b]|
    ensures Linked(h - {g.strt[b][i]}, g.rootgc, g.strt[b := Without(g.strt[b], i)], g.tmudata, g.uvhead)
    ensures g.strt[b][i] in h && h[g.strt[b][i]].Str? && NoOpenIn(h, g.strt[b][i])
  {
    var o := g.strt[b][i];
    assert o in g.strt[b];
    RemoveAt(g.strt[b], i);
    hide Bucket;
    FreeStrings(h, g.strt, b, i);
    FreeRootsOther(h, g.rootgc, g.tmudata, o);
    FreeOpenOther(h, g.uvhead, o);
  }

  lemma FreeStrings(h: Heap, strt: seq<seq<Ref>>, b: nat, i: nat)
    requires StringsOK(h, strt) && b < |strt| && i < |strt[b]|
    ensures StringsOK(h - {strt[b][i]}, strt[b := Without(strt[b], i)])
  {
    hide Bucket;
    RemoveAt(strt[b], i);
    var o, t := strt[b][i], strt[b := Without(strt[b], i)];
    assert o in strt[b];
    forall c, s | 0 <= c < |t| && s in t[c] ensures s in h - {o} && h[s].Str? && Bucket(h[s], |t|) == c {
      assert s in strt[c];
      assert Bucket(h[s], |t|) == c && (c != b ==> s != o);
    }
    forall s | s in h - {o} && h[s].Str? ensures s in t[Bucket(h[s], |t|)] {
      assert s in strt[Bucket(h[s], |strt|)];
    }
  }

  lemma FreeStringsOther(h: Heap, strt: seq<seq<Ref>>, o: Ref)
    requires StringsOK(h, strt) && o in h && !h[o].Str?
    ensures StringsOK(h - {o}, strt)
  {
    hide Bucket;
  }

  lemma FreeRootsOther(h: Heap, rootgc: seq<Ref>, tmudata: seq<Ref>, o: Ref)
    requires RootsOK(h, rootgc, tmudata) && o in h && (h[o].Str? || h[o].Open?)
    ensures RootsOK(h - {o}, rootgc, tmudata)
  {
  }

  lemma FreeOpenOther(h: Heap, uvhead: seq<Ref>, o: Ref)
    requires OpenOK(h, uvhead) && o in h && !h[o].Open? && (h[o].Thread? ==> h[o].openupval == [])
    ensures OpenOK(h - {o}, uvhead) && NoOpenIn(h, o)
  {
    assert NoOpenIn(h, o);
    forall th | th in h - {o} && h[th].Thread? ensures OpenList(h - {o}, th) {
      assert OpenList(h, th);
    }
  }

  lemma FreeRootLinked(h: Heap, g: Globals, p: nat)
    requires Linked(h, g.rootgc, g.strt, g.tmudata, g.uvhead) && p < |g.rootgc| && g.rootgc[p] in h
    requires h[g.rootgc[p]].Thread? ==> h[g.rootgc[p]].openupval == []
    ensures Linked(h - {g.rootgc[p]}, Without(g.rootgc, p), g.strt, g.tmudata, g.uvhead)
    ensures NoOpenIn(h, g.rootgc[p])
  {
    var o := g.rootgc[p];
    assert o in g.rootgc;
    RemoveAt(g.rootgc, p);
    FreeOpenOther(h, g.uvhead, o);
    FreeStringsOther(h, g.strt, o);
    hide StringsOK, OpenOK;
  }

  // ---------------------------------------------------------------------
  // Open upvalues

  /** Upvalue u leaves the open list of th: it is freed, or closed. */
  ghost predicate LeavesOpen(h: Heap, h': Heap, th: Ref, i: nat) {
    && th in h && h[th].Thread? && i < |h[th].openupval| && th in h'
    && h'[th] == h[th].(openupval := Without(h[th].openupval, i))
    && var u := h[th].openupval[i];
       && u in h && h[u].Open? && (u in h' ==> h'[u].Closed?)
       && (forall x :: x in h && x != u && x != th ==> x in h' && h'[x] == h[x])
       && (forall x :: x in h' ==> x in h)
  }

  lemma LeavesOpenOK(h: Heap, h': Heap, th: Ref, i: nat, uvhead: seq<Ref>, j: nat)
    requires OpenOK(h, uvhead) && LeavesOpen(h, h', th, i) && j < |uvhead| && uvhead[j] == h[th].openupval[i]
    ensures OpenOK(h', Without(uvhead, j))
  {
    RemoveAt(uvhead, j);
    forall t | t in h' && h'[t].Thread? ensures OpenList(h', t) {
      assert OpenList(h, t);
      if t == th { LeavesOpenList(h, h', th, i); } else { LeavesOtherList(h, h', th, i, t); }
    }
    forall x | x in h' && h'[x].Open? ensures h'[x].thread in h' && h'[h'[x].thread].Thread?
        && x in h'[h'[x].thread].openupval {
      LeavesMember(h, h', th, i, x);
    }
  }

  lemma LeavesOpenList(h: Heap, h': Heap, th: Ref, i: nat)
    requires LeavesOpen(h, h', th, i) && OpenList(h, th)
    ensures OpenList(h', th)
  {
    var l := h[th].openupval;
    var l' := Without(l, i);
    assert forall k :: 0 <= k < |l'| ==> l'[k] == l[if k < i then k else k + 1];
    assert forall k :: 0 <= k < |l| && k != i ==> h[l[k]].level != h[l[i]].level;
  }

  lemma LeavesOtherList(h: Heap, h': Heap, th: Ref, i: nat, t: Ref)
    requires LeavesOpen(h, h', th, i) && OpenList(h, th) && t in h && h[t].Thread? && t != th && OpenList(h, t)
    ensures t in h' && h'[t] == h[t] && OpenList(h', t)
  {
    assert h[h[th].openupval[i]].thread == th;
  }

  lemma LeavesMember(h: Heap, h': Heap, th: Ref, i: nat, x: Ref)
    requires LeavesOpen(h, h', th, i) && x in h' && h'[x].Open? && x in h && h[x].Open?
    requires h[x].thread in h && h[h[x].thread].Thread? && x in h[h[x].thread].openupval
    ensures h'[x].thread in h' && h'[h'[x].thread].Thread? && x in h'[h'[x].thread].openupval
  {
    var l := h[th].openupval;
    if h[x].thread == th {
      var k :| 0 <= k < |l| && l[k] == x;
      assert Without(l, i)[if k < i then k else k - 1] == x;
    }
  }

  /** The value of the other upvalues does not change. */
  lemma LeavesOpenRefers(h: Heap, h': Heap, th: Ref, i: nat, p: Ref, x: Ref)
    requires LeavesOpen(h, h', th, i) && p in h && p in h' && p != h[th].openupval[i]
    ensures Refers(h', p, x) == Refers(h, p, x)
  {
    var u := h[th].openupval[i];
    if h[p].Open? && p != th {
      assert h'[p] == h[p];
      if u == h[p].thread { assert UpValue(h', h'[p]) == UpValue(h, h[p]); }
    }
  }

  /** What a program sees of an object is the same. */
  ghost predicate SameValue(h: Heap, h': Heap, o: Ref) {
    && o in h && o in h'
    && match h[o]
       case Thread(globals, stack, _) => h'[o].Thread? && h'[o].globals == globals && h'[o].stack == stack
       case Open(_, _) => (h'[o].Open? || h'[o].Closed?) && UpValue(h', h'[o]) == UpValue(h, h[o])
       case _ => h'[o] == h[o]
  }

  /** No live object is lost or changed, and no dead one comes back. */
  ghost predicate Preserves(m0: MarkState, g0: Globals, m: MarkState, g: Globals) {
    && (forall o :: IsLive(m0, g0, o) ==> IsLive(m, g, o) && SameValue(m0.h, m.h, o))
    && (forall o :: IsLive(m, g, o) ==> IsLive(m0, g0, o))
  }

  lemma PreservesTrans(m0: MarkState, g0: Globals, m1: MarkState, g1: Globals, m2: MarkState, g2: Globals)
    requires Preserves(m0, g0, m1, g1) && Preserves(m1, g1, m2, g2)
    ensures Preserves(m0, g0, m2, g2)
  {
    hide IsLive;
    forall o | IsLive(m0, g0, o) ensures IsLive(m2, g2, o) && SameValue(m0.h, m2.h, o) {
      assert IsLive(m1, g1, o) && SameValue(m0.h, m1.h, o);
      assert IsLive(m2, g2, o) && SameValue(m1.h, m2.h, o);
    }
    assert forall o :: IsLive(m2, g2, o) ==> IsLive(m1, g1, o);
  }

  lemma WhitenPreserves(m: MarkState, g: Globals, o: Ref)
    requires IsLive(m, g, o)
    ensures Preserves(m, g, Whiten(m, g.cw, o), g)
  {
  }

  lemma FreePreserves(m: MarkState, g: Globals, o: Ref, g': Globals)
    requires IsDead(m, g, o) && NoOpenIn(m.h, o) && g'.cw == g.cw && g'.fixed == g.fixed
    ensures Preserves(m, g, Free(m, o), g')
  {
  }

  // ---------------------------------------------------------------------
  // Freeing and closing an open upvalue

  function UnlinkHeap(h: Heap, th: Ref, i: nat): Heap
    requires th in h && h[th].Thread? && i < |h[th].openupval|
  {
    h[th := h[th].(openupval := Without(h[th].openupval, i))]
  }

  /** The state after upvalue i of th is freed. */
  function FreeOpen(m: MarkState, th: Ref, i: nat): MarkState
    requires th in m.h && m.h[th].Thread? && i < |m.h[th].openupval|
  {
    var u := m.h[th].openupval[i];
    m.(h := UnlinkHeap(m.h, th, i) - {u}, c := m.c - {u})
  }

  /** The state after upvalue i of th is closed; col is its colour then. */
  function CloseOpen(m: MarkState, th: Ref, i: nat, col: Colour): MarkState
    requires th in m.h && m.h[th].Thread? && i < |m.h[th].openupval|
    requires m.h[th].openupval[i] in m.h && m.h[m.h[th].openupval[i]].Open?
  {
    var u := m.h[th].openupval[i];
    m.(h := UnlinkHeap(m.h, th, i)[u := Closed(UpValue(m.h, m.h[u]))], c := m.c[u := col])
  }

  ghost predicate CanUnlink(m: MarkState, g: Globals, th: Ref, i: nat) {
    && Alive(m, g) && OpenOK(m.h, g.uvhead) && th in m.h && m.h[th].Thread? && i < |m.h[th].openupval|
    && m.h[th].openupval[i] in m.h && m.h[m.h[th].openupval[i]].Open?
  }

  lemma UnlinkFacts(m: MarkState, g: Globals, th: Ref, i: nat)
    requires Common(m, g) && th in m.h && m.h[th].Thread? && i < |m.h[th].openupval|
    ensures CanUnlink(m, g, th, i) && m.h[th].openupval[i] in g.uvhead && m.h[m.h[th].openupval[i]].thread == th
  {
    hide Alive;
    assert OpenList(m.h, th);
  }

  lemma FreeOpenAlive(m: MarkState, g: Globals, th: Ref, i: nat)
    requires CanUnlink(m, g, th, i) && IsDead(m, g, m.h[th].openupval[i])
    ensures Alive(FreeOpen(m, th, i), g) && Preserves(m, g, FreeOpen(m, th, i), g)
    ensures LeavesOpen(m.h, FreeOpen(m, th, i).h, th, i)
  {
    hide Intact, RootsLive, FixedOK, TmuOK, NoBlackStacks, LeavesOpen, OpenOK, Preserves;
    var m' := FreeOpen(m, th, i);
    FreeOpenShape(m, g, th, i);
    LeavesIntact(m, g, th, i, m');
    LeavesRest(m, g, th, i, m');
    LeavesPreserves(m, g, th, i, m');
  }

  lemma FreeOpenShape(m: MarkState, g: Globals, th: Ref, i: nat)
    requires CanUnlink(m, g, th, i) && IsDead(m, g, m.h[th].openupval[i])
    ensures LeavesOpen(m.h, FreeOpen(m, th, i).h, th, i)
    ensures forall x :: IsLive(FreeOpen(m, th, i), g, x) == IsLive(m, g, x)
  {
    hide OpenOK, Intact, RootsLive, FixedOK, TmuOK, NoBlackStacks;
  }

  /** When an upvalue leaves its list, live objects stay intact. */
  lemma LeavesIntact(m: MarkState, g: Globals, th: Ref, i: nat, m': MarkState)
    requires Alive(m, g) && LeavesOpen(m.h, m'.h, th, i) && m'.h.Keys == m'.c.Keys
    requires forall x :: IsLive(m', g, x) == IsLive(m, g, x)
    requires m.h[th].openupval[i] in m'.h ==>
               m'.h[m.h[th].openupval[i]] == Closed(UpValue(m.h, m.h[m.h[th].openupval[i]]))
    ensures Intact(m'.h, m'.c, g.cw, g.fixed)
  {
    var u := m.h[th].openupval[i];
    assert u in m'.h ==> forall x :: Refers(m'.h, u, x) == Refers(m.h, u, x);
    hide Refers, RootsLive, FixedOK, TmuOK, NoBlackStacks;
    forall p, x | IsLive(m', g, p) && Refers(m'.h, p, x) ensures IsLive(m', g, x) {
      if p != u { LeavesOpenRefers(m.h, m'.h, th, i, p, x); }
      assert IsLive(m, g, p) && Refers(m.h, p, x);
    }
  }

  lemma LeavesPreserves(m: MarkState, g: Globals, th: Ref, i: nat, m': MarkState)
    requires LeavesOpen(m.h, m'.h, th, i) && forall x :: IsLive(m', g, x) == IsLive(m, g, x)
    requires m.h[th].openupval[i] in m'.h ==>
               m'.h[m.h[th].openupval[i]] == Closed(UpValue(m.h, m.h[m.h[th].openupval[i]]))
    ensures Preserves(m, g, m', g)
  {
    forall o | IsLive(m, g, o) ensures SameValue(m.h, m'.h, o) {
      if o != m.h[th].openupval[i] { LeavesSame(m.h, m'.h, th, i, o); } else { assert IsLive(m', g, o); }
    }
  }

  lemma LeavesSame(h: Heap, h': Heap, th: Ref, i: nat, o: Ref)
    requires LeavesOpen(h, h', th, i) && o in h && o != h[th].openupval[i]
    ensures SameValue(h, h', o)
  {
    if h[o].Open? && h[o].thread == h[th].openupval[i] { assert UpValue(h', h'[o]) == UpValue(h, h[o]); }
  }

  lemma CloseOpenShape(m: MarkState, g: Globals, th: Ref, i: nat, col: Colour)
    requires CanUnlink(m, g, th, i)
    ensures LeavesOpen(m.h, CloseOpen(m, th, i, col).h, th, i)
  {
    hide Alive, OpenOK;
  }

  lemma LeavesRest(m: MarkState, g: Globals, th: Ref, i: nat, m': MarkState)
    requires Alive(m, g) && LeavesOpen(m.h, m'.h, th, i) && m'.h.Keys == m'.c.Keys
    requires forall x :: IsLive(m', g, x) == IsLive(m, g, x)
    requires forall x :: x in m'.c ==>
               m'.c[x] == m.c[x] || (x == m.h[th].openupval[i] && (m'.c[x] == Black || m'.c[x] == White(g.cw)))
    requires m.h[th].openupval[i] in m.c && (m.h[th].openupval[i] in m'.h || m.c[m.h[th].openupval[i]] == White(!g.cw))
    ensures RootsLive(m'.h, m'.c, g.cw, g.fixed, g.R) && FixedOK(m'.h, g.fixed, g.R.main)
    ensures TmuOK(m'.c, g.cw, g.tmudata) && NoBlackStacks(m'.h, m'.c)
  {
    hide Intact, RootsLive, FixedOK, TmuOK, NoBlackStacks;
    LeavesLive(m, g, th, i, m');
    LeavesColours(m, g, th, i, m');
  }

  lemma LeavesLive(m: MarkState, g: Globals, th: Ref, i: nat, m': MarkState)
    requires m.h.Keys == m.c.Keys && RootsLive(m.h, m.c, g.cw, g.fixed, g.R) && FixedOK(m.h, g.fixed, g.R.main)
    requires LeavesOpen(m.h, m'.h, th, i) && m'.h.Keys == m'.c.Keys && forall x :: IsLive(m', g, x) == IsLive(m, g, x)
    ensures RootsLive(m'.h, m'.c, g.cw, g.fixed, g.R) && FixedOK(m'.h, g.fixed, g.R.main)
  {
    assert forall x :: IsLive(m, g, x) ==> IsLive(m', g, x) && x in m'.h;
  }

  lemma LeavesColours(m: MarkState, g: Globals, th: Ref, i: nat, m': MarkState)
    requires m.h.Keys == m.c.Keys && TmuOK(m.c, g.cw, g.tmudata) && NoBlackStacks(m.h, m.c)
    requires LeavesOpen(m.h, m'.h, th, i) && m'.h.Keys == m'.c.Keys
    requires forall x :: x in m'.c ==>
               m'.c[x] == m.c[x] || (x == m.h[th].openupval[i] && (m'.c[x] == Black || m'.c[x] == White(g.cw)))
    requires m.h[th].openupval[i] in m.c && (m.h[th].openupval[i] in m'.h || m.c[m.h[th].openupval[i]] == White(!g.cw))
    ensures TmuOK(m'.c, g.cw, g.tmudata) && NoBlackStacks(m'.h, m'.c)
  {
  }

  lemma CloseOpenAlive(m: MarkState, g: Globals, th: Ref, i: nat, col: Colour)
    requires CanUnlink(m, g, th, i) && IsLive(m, g, m.h[th].openupval[i]) && (col == Black || col == White(g.cw))
    ensures Alive(CloseOpen(m, th, i, col), g) && Preserves(m, g, CloseOpen(m, th, i, col), g)
    ensures LeavesOpen(m.h, CloseOpen(m, th, i, col).h, th, i)
  {
    var m' := CloseOpen(m, th, i, col);
    CloseOpenShape(m, g, th, i, col);
    assert forall x :: IsLive(m', g, x) == IsLive(m, g, x);
    hide Intact, RootsLive, FixedOK, TmuOK, NoBlackStacks, LeavesOpen, OpenOK;
    LeavesIntact(m, g, th, i, m');
    LeavesRest(m, g, th, i, m');
    LeavesPreserves(m, g, th, i, m');
  }

  lemma LeavesStrings(h: Heap, h': Heap, th: Ref, i: nat, strt: seq<seq<Ref>>)
    requires StringsOK(h, strt) && LeavesOpen(h, h', th, i)
    ensures StringsOK(h', strt)
  {
    hide Bucket;
    forall b, s | 0 <= b < |strt| && s in strt[b] ensures s in h' && h'[s].Str? && Bucket(h'[s], |strt|) == b {
      assert s in h && h[s].Str? && Bucket(h[s], |strt|) == b;
    }
    forall s | s in h' && h'[s].Str? ensures s in strt[Bucket(h'[s], |strt|)] {
      assert h'[s] == h[s];
    }
  }

  lemma LeavesRoots(h: Heap, h': Heap, th: Ref, i: nat, rootgc: seq<Ref>, tmudata: seq<Ref>)
    requires RootsOK(h, rootgc, tmudata) && LeavesOpen(h, h', th, i)
    ensures RootsOK(h', if h[th].openupval[i] in h' then [h[th].openupval[i]] + rootgc else rootgc, tmudata)
  {
  }

  /** How a new first element moves the sweep position: the position before
      the first element stays there. */
  function Shifted(sweepgc: nat): nat {
    if sweepgc == 0 then 0 else sweepgc + 1
  }

  function UvWithout(g: Globals, j: nat): Globals
    requires j < |g.uvhead|
  {
    g.(uvhead := Without(g.uvhead, j))
  }

  /** luaC_linkupval, without the colours */
  function LinkRoot(g: Globals, o: Ref): Globals {
    g.(rootgc := [o] + g.rootgc, sweepgc := Shifted(g.sweepgc))
  }

  lemma FreeOpenCommon(m: MarkState, g: Globals, th: Ref, i: nat, j: nat)
    requires Common(m, g) && th in m.h && m.h[th].Thread? && i < |m.h[th].openupval|
    requires j < |g.uvhead| && g.uvhead[j] == m.h[th].openupval[i] && IsDead(m, g, g.uvhead[j])
    ensures Common(FreeOpen(m, th, i), UvWithout(g, j)) && Preserves(m, g, FreeOpen(m, th, i), UvWithout(g, j))
  {
    UnlinkFacts(m, g, th, i);
    FreeOpenAlive(m, g, th, i);
    var m' := FreeOpen(m, th, i);
    assert m.h[th].openupval[i] !in m'.h;
    assert Alive(m', UvWithout(g, j));
    hide Alive, FreeOpen, RootsOK, StringsOK, OpenOK, LeavesOpen, Preserves;
    LeavesRoots(m.h, m'.h, th, i, g.rootgc, g.tmudata);
    LeavesStrings(m.h, m'.h, th, i, g.strt);
    LeavesOpenOK(m.h, m'.h, th, i, g.uvhead, j);
    PreservesSame(m, g, m', UvWithout(g, j));
  }

  lemma PreservesSame(m: MarkState, g: Globals, m': MarkState, g': Globals)
    requires Preserves(m, g, m', g) && g'.cw == g.cw && g'.fixed == g.fixed
    ensures Preserves(m, g, m', g')
  {
    hide SameValue;
  }

  lemma CloseOpenCommon(m: MarkState, g: Globals, th: Ref, i: nat, j: nat, col: Colour)
    requires Common(m, g) && th in m.h && m.h[th].Thread? && i < |m.h[th].openupval|
    requires j < |g.uvhead| && g.uvhead[j] == m.h[th].openupval[i] && IsLive(m, g, g.uvhead[j])
    requires m.h[g.uvhead[j]].Open? && (col == Black || col == White(g.cw))
    ensures var m', g' := CloseOpen(m, th, i, col), LinkRoot(UvWithout(g, j), g.uvhead[j]);
            Common(m', g') && Preserves(m, g, m', g') && LeavesOpen(m.h, m'.h, th, i)
  {
    UnlinkFacts(m, g, th, i);
    CloseOpenAlive(m, g, th, i, col);
    var m', g' := CloseOpen(m, th, i, col), LinkRoot(UvWithout(g, j), g.uvhead[j]);
    assert m.h[th].openupval[i] in m'.h;
    assert Alive(m', g');
    hide Alive, CloseOpen, RootsOK, StringsOK, OpenOK, LeavesOpen, Preserves;
    LeavesRoots(m.h, m'.h, th, i, g.rootgc, g.tmudata);
    LeavesStrings(m.h, m'.h, th, i, g.strt);
    LeavesOpenOK(m.h, m'.h, th, i, g.uvhead, j);
    PreservesSame(m, g, m', g');
  }
}
