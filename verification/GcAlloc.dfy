/** New objects: luaC_link, luaS_newlstr and luaF_findupval. */
module GcAlloc {
  import opened GcHeap
  import opened GcMark
  import opened GcLinks
  import opened GcInv
  import opened GcSweep
  import opened GcClose
  import opened GcWrite

  /** r is new; of the others at most the open list of a thread changes. */
  ghost predicate Adds(h: Heap, h': Heap, r: Ref) {
    && r !in h && h'.Keys == h.Keys + {r}
    && forall p :: p in h ==> h'[p] == h[p] || (h[p].Thread? && h'[p].Thread? && ListGrows(h[p], h'[p], r))
  }

  ghost predicate ListGrows(t: Obj, t': Obj, r: Ref)
    requires t.Thread? && t'.Thread?
  {
    t' == t.(openupval := t'.openupval) && forall u :: u in t'.openupval ==> u in t.openupval || u == r
  }

  lemma AddsRefers(h: Heap, h': Heap, r: Ref, p: Ref, x: Ref)
    requires Adds(h, h', r) && p in h && NoOpenIn(h, r)
    ensures Refers(h', p, x) == Refers(h, p, x) && Holds(h', p, x) == Holds(h, p, x)
  {
  }

  /** The colour bits of a new object. */
  ghost predicate Fresh(m: MarkState, g: Globals, m': MarkState, r: Ref) {
    && Adds(m.h, m'.h, r) && m'.c == m.c[r := White(g.cw)]
    && m' == m.(h := m'.h, c := m'.c, wk := m.wk - {r}, wv := m.wv - {r})
  }

  lemma FreshIntact(m: MarkState, g: Globals, m': MarkState, r: Ref)
    requires Alive(m, g) && Fresh(m, g, m', r) && NoOpenIn(m.h, r)
    requires forall x :: Refers(m'.h, r, x) ==> IsLive(m, g, x)
    ensures Intact(m'.h, m'.c, g.cw, g.fixed) && m'.h.Keys == m'.c.Keys
    ensures forall x :: IsLive(m, g, x) ==> IsLive(m', g, x)
  {
    hide Refers, RootsLive, FixedOK, TmuOK, NoBlackStacks;
    assert forall x :: IsLive(m', g, x) <==> IsLive(m, g, x) || x == r;
    forall p, x | Live(m'.h, m'.c, g.cw, g.fixed, p) && Refers(m'.h, p, x) ensures Live(m'.h, m'.c, g.cw, g.fixed, x) {
      if p != r {
        AddsRefers(m.h, m'.h, r, p, x);
        assert IsLive(m', g, p);
        assert Live(m.h, m.c, g.cw, g.fixed, p);
      }
      assert IsLive(m', g, x);
    }
  }

  lemma FreshAlive(m: MarkState, g: Globals, m': MarkState, r: Ref, g': Globals)
    requires Alive(m, g) && Fresh(m, g, m', r) && NoOpenIn(m.h, r)
    requires forall x :: Refers(m'.h, r, x) ==> IsLive(m, g, x)
    requires g'.cw == g.cw && g'.fixed == g.fixed && g'.R == g.R && g'.tmudata == g.tmudata
    ensures Alive(m', g') && forall x :: IsLive(m, g, x) ==> IsLive(m', g', x)
  {
    hide Refers, Intact;
    FreshIntact(m, g, m', r);
    FreshRest(m, g, m', r);
  }

  lemma FreshRest(m: MarkState, g: Globals, m': MarkState, r: Ref)
    requires Alive(m, g) && Fresh(m, g, m', r)
    ensures RootsLive(m'.h, m'.c, g.cw, g.fixed, g.R) && FixedOK(m'.h, g.fixed, g.R.main)
    ensures TmuOK(m'.c, g.cw, g.tmudata) && m'.h.Keys == m'.c.Keys && NoBlackStacks(m'.h, m'.c)
  {
    hide Intact;
    assert forall x :: x in m.h ==> Live(m'.h, m'.c, g.cw, g.fixed, x) == Live(m.h, m.c, g.cw, g.fixed, x);
  }

  // ---------------------------------------------------------------------
  // New objects while marking

  lemma FreshTri(m: MarkState, cw: bool, P: set<Ref>, g: Globals, m': MarkState, r: Ref)
    requires MarkInv(m, cw, P) && Fresh(m, g, m', r) && NoOpenIn(m.h, r)
    ensures m'.h.Keys == m'.c.Keys && Tri(m'.h, m'.c, m'.wk, m'.wv, m'.gray, P)
  {
    hide ListsOK, StacksGray, GrayTables, NoDangling, OneWhite;
    assert m'.h.Keys == m'.c.Keys;
    forall o | o in m'.h && Marked(m'.c, o) && o !in P && o !in m.gray ensures Done(m'.h, m'.c, m'.wk, m'.wv, o) {
      assert o != r && Done(m.h, m.c, m.wk, m.wv, o);
      forall x | Keeps(m'.h, m'.c, m'.wk, m'.wv, o, x) ensures Marked(m'.c, x) {
        AddsRefers(m.h, m'.h, r, o, x);
        assert Keeps(m.h, m.c, m.wk, m.wv, o, x);
        assert Marked(m.c, x) && x != r;
      }
    }
  }

  lemma FreshLists(m: MarkState, g: Globals, m': MarkState, r: Ref, P: set<Ref>)
    requires m.h.Keys == m.c.Keys && ListsOK(m) && StacksGray(m) && GrayTables(m, P) && Fresh(m, g, m', r)
    ensures m'.h.Keys == m'.c.Keys && ListsOK(m') && StacksGray(m') && GrayTables(m', P)
  {
    hide ListsOK, StacksGray, GrayTables;
    FreshObject(m, g, m', r);
    FreshListsOK(m, m', r);
    FreshStacks(m, m', r, g.cw);
    FreshTables(m, m', r, g.cw, P);
  }

  /** The objects that were there have their kinds and colours. */
  ghost predicate Extends(m: MarkState, m': MarkState, r: Ref)
    requires m.h.Keys == m.c.Keys
  {
    && m'.h.Keys == m'.c.Keys == m.h.Keys + {r} && r !in m.h
    && m'.gray == m.gray && m'.again == m.again && m'.weak == m.weak
    && forall x :: x in m.h ==> m'.c[x] == m.c[x] && (m'.h[x] == m.h[x] || (m.h[x].Thread? && m'.h[x].Thread?))
  }

  lemma FreshObject(m: MarkState, g: Globals, m': MarkState, r: Ref)
    requires m.h.Keys == m.c.Keys && Fresh(m, g, m', r)
    ensures Extends(m, m', r) && m'.c[r] == White(g.cw)
  {
  }

  lemma FreshListsOK(m: MarkState, m': MarkState, r: Ref)
    requires m.h.Keys == m.c.Keys && ListsOK(m) && Extends(m, m', r)
    ensures ListsOK(m')
  {
  }

  lemma FreshStacks(m: MarkState, m': MarkState, r: Ref, cw: bool)
    requires m.h.Keys == m.c.Keys && StacksGray(m) && Extends(m, m', r) && m'.c[r] == White(cw)
    ensures StacksGray(m')
  {
  }

  lemma FreshTables(m: MarkState, m': MarkState, r: Ref, cw: bool, P: set<Ref>)
    requires m.h.Keys == m.c.Keys && GrayTables(m, P) && Extends(m, m', r) && m'.c[r] == White(cw)
    ensures GrayTables(m', P)
  {
  }

  lemma FreshMarkInv(m: MarkState, cw: bool, P: set<Ref>, g: Globals, m': MarkState, r: Ref)
    requires MarkInv(m, cw, P) && Fresh(m, g, m', r) && NoOpenIn(m.h, r) && g.cw == cw && NoDangling(m'.h)
    ensures MarkInv(m', cw, P)
  {
    hide Tri, ListsOK, StacksGray, GrayTables, NoDangling;
    FreshTri(m, cw, P, g, m', r);
    FreshLists(m, g, m', r, P);
  }

  // ---------------------------------------------------------------------
  // New objects in the other phases

  lemma FreshPhase(m: MarkState, g: Globals, m': MarkState, r: Ref, g': Globals)
    requires Inv(m, g) && g.phase != Propagate && Fresh(m, g, m', r)
    requires g'.phase == g.phase && g'.cw == g.cw && g'.tmudata == g.tmudata && |g'.strt| == |g.strt|
               && g'.sweepstrgc == g.sweepstrgc
    requires (g'.rootgc == g.rootgc && g'.sweepgc == g.sweepgc)
               || (g'.rootgc == [r] + g.rootgc && g'.sweepgc == Shifted(g.sweepgc)
                   && (r in m'.h && m'.h[r].Thread? ==> m'.h[r].openupval == []))
    ensures m'.h.Keys == m'.c.Keys && |g'.strt| > 0 && PhaseOK(m', g')
  {
    hide Live, OpenList, FixedOK, RootsOK, StringsOK;
    InvKeys(m, g);
    hide Common, Bucket;
    assert m'.h.Keys == m'.c.Keys && forall x :: x in m.h ==> m'.c[x] == m.c[x];
    match g.phase {
      case Sweep =>
        FreshSwept(m, g, m', r, g');
      case SweepString =>
      case Pause =>
      case Finalize =>
    }
  }

  lemma FreshSwept(m: MarkState, g: Globals, m': MarkState, r: Ref, g': Globals)
    requires m.h.Keys == m.c.Keys && m'.h.Keys == m'.c.Keys && Fresh(m, g, m', r) && g'.cw == g.cw
    requires RootsSwept(m.h, m.c, g.cw, g.rootgc, g.sweepgc)
    requires (g'.rootgc == g.rootgc && g'.sweepgc == g.sweepgc)
               || (g'.rootgc == [r] + g.rootgc && g'.sweepgc == Shifted(g.sweepgc)
                   && (m'.h[r].Thread? ==> m'.h[r].openupval == []))
    ensures RootsSwept(m'.h, m'.c, g'.cw, g'.rootgc, g'.sweepgc)
  {
    forall o | ObjSwept(m.h, m.c, g.cw, o) ensures ObjSwept(m'.h, m'.c, g.cw, o) {
    }
    hide ObjSwept, Fresh;
    forall i | 0 <= i < g'.sweepgc ensures ObjSwept(m'.h, m'.c, g.cw, g'.rootgc[i]) {
      if g'.rootgc == g.rootgc {
        assert ObjSwept(m.h, m.c, g.cw, g.rootgc[i]);
      } else if i > 0 {
        assert g'.rootgc[i] == g.rootgc[i - 1] && ObjSwept(m.h, m.c, g.cw, g.rootgc[i - 1]);
      } else {
        NewSwept(m, g, m', r);
      }
    }
  }

  lemma NewSwept(m: MarkState, g: Globals, m': MarkState, r: Ref)
    requires m'.h.Keys == m'.c.Keys && Fresh(m, g, m', r) && (r in m'.h && m'.h[r].Thread? ==> m'.h[r].openupval == [])
    ensures ObjSwept(m'.h, m'.c, g.cw, r)
  {
  }

  // ---------------------------------------------------------------------
  // The invariant after an allocation

  lemma FreshInv(m: MarkState, g: Globals, m': MarkState, r: Ref, g': Globals)
    requires Inv(m, g) && Fresh(m, g, m', r) && NoOpenIn(m.h, r)
               && Linked(m'.h, g'.rootgc, g'.strt, g'.tmudata, g'.uvhead)
    requires forall x :: Refers(m'.h, r, x) ==> IsLive(m, g, x)
    requires g' == g.(finalized := g'.finalized, strt := g'.strt, uvhead := g'.uvhead, rootgc := g'.rootgc,
               sweepgc := g'.sweepgc)
    requires |g'.strt| == |g.strt|
    requires (g'.rootgc == g.rootgc && g'.sweepgc == g.sweepgc)
               || (g'.rootgc == [r] + g.rootgc && g'.sweepgc == Shifted(g.sweepgc)
                   && (r in m'.h && m'.h[r].Thread? ==> m'.h[r].openupval == []))
    ensures Inv(m', g') && forall x :: IsLive(m, g, x) ==> IsLive(m', g', x)
  {
    hide Linked, Refers, Alive, MarkInv, NoOpenIn;
    FreshAlive(m, g, m', r, g');
    assert Common(m', g');
    hide Common;
    if g.phase == Propagate {
      FreshMark(m, g, m', r, g');
    } else {
      FreshPhase(m, g, m', r, g');
    }
  }

  lemma FreshMark(m: MarkState, g: Globals, m': MarkState, r: Ref, g': Globals)
    requires Inv(m, g) && g.phase == Propagate && Fresh(m, g, m', r) && NoOpenIn(m.h, r) && Common(m', g')
    requires g'.phase == g.phase && g'.cw == g.cw && g'.tmudata == g.tmudata && g'.R == g.R
    ensures Inv(m', g')
  {
    hide Common, MarkInv, NoDangling, NoOpenIn;
    var P := Pending(m, g);
    MarkInvFacts(m, g.cw, P);
    RootsMarkedNow(m, g);
    assert OneWhite(m'.c, g.cw);
    ClosedDangling(m', g');
    FreshMarkInv(m, g.cw, P, g, m', r);
    assert P <= Pending(m', g');
    MarkInvMono(m', g.cw, P, Pending(m', g'));
    hide Pending;
    MarkPhase2(m', g');
  }

  // ---------------------------------------------------------------------
  // The lists after an allocation

  lemma NoOpenYet(h: Heap, g: Globals, r: Ref)
    requires Linked(h, g.rootgc, g.strt, g.tmudata, g.uvhead) && r !in h
    ensures NoOpenIn(h, r)
  {
    hide RootsOK, StringsOK;
  }

  lemma NewRootLinked(h: Heap, g: Globals, r: Ref, o: Obj)
    requires Linked(h, g.rootgc, g.strt, g.tmudata, g.uvhead) && r !in h && !o.Str? && !o.Open?
    requires o.Thread? ==> o.openupval == []
    ensures Linked(h[r := o], [r] + g.rootgc, g.strt, g.tmudata, g.uvhead)
  {
    assert RootsOK(h[r := o], [r] + g.rootgc, g.tmudata) by { hide StringsOK, OpenOK; }
    assert StringsOK(h[r := o], g.strt) by { hide RootsOK, OpenOK, Bucket; }
    NewOpenOther(h, g.uvhead, r, o);
  }

  lemma NewOpenOther(h: Heap, uvhead: seq<Ref>, r: Ref, o: Obj)
    requires OpenOK(h, uvhead) && r !in h && !o.Open? && (o.Thread? ==> o.openupval == [])
    ensures OpenOK(h[r := o], uvhead)
  {
    forall th | th in h && h[th].Thread? ensures OpenList(h[r := o], th) { assert OpenList(h, th); }
  }

  lemma NewStringLinked(h: Heap, g: Globals, r: Ref, hash: nat)
    requires Linked(h, g.rootgc, g.strt, g.tmudata, g.uvhead) && r !in h && |g.strt| > 0
    ensures var b := Bucket(Str(hash), |g.strt|);
            Linked(h[r := Str(hash)], g.rootgc, g.strt[b := [r] + g.strt[b]], g.tmudata, g.uvhead)
  {
    assert RootsOK(h[r := Str(hash)], g.rootgc, g.tmudata) by { hide StringsOK, OpenOK; }
    NewOpenOther(h, g.uvhead, r, Str(hash));
    NewStrings(h, g.strt, r, hash);
  }

  lemma NewStrings(h: Heap, strt: seq<seq<Ref>>, r: Ref, hash: nat)
    requires StringsOK(h, strt) && r !in h
    ensures var b := Bucket(Str(hash), |strt|); StringsOK(h[r := Str(hash)], strt[b := [r] + strt[b]])
  {
    hide Bucket;
    var b := Bucket(Str(hash), |strt|);
    var t, h' := strt[b := [r] + strt[b]], h[r := Str(hash)];
    assert NoDup(strt[b]) && r !in strt[b];
    forall s | s in h' && h'[s].Str? ensures s in t[Bucket(h'[s], |t|)] {
      if s != r { assert s in strt[Bucket(h[s], |strt|)]; }
    }
  }

  /** The open list of th with r inserted at k. */
  function Inserted(l: seq<Ref>, k: nat, r: Ref): seq<Ref>
    requires k <= |l|
  {
    l[..k] + [r] + l[k..]
  }

  lemma NewOpenLinked(h: Heap, g: Globals, r: Ref, th: Ref, level: nat, k: nat)
    requires Linked(h, g.rootgc, g.strt, g.tmudata, g.uvhead) && r !in h && th in h && h[th].Thread?
               && level < |h[th].stack|
    requires k <= |h[th].openupval| && OpenList(h, th)
    requires forall i :: 0 <= i < k ==> h[h[th].openupval[i]].level > level
    requires forall i :: k <= i < |h[th].openupval| ==> h[h[th].openupval[i]].level < level
    ensures Linked(h[r := Open(th, level)][th := h[th].(openupval := Inserted(h[th].openupval, k, r))],
                   g.rootgc, g.strt, g.tmudata, [r] + g.uvhead)
  {
    var h' := h[r := Open(th, level)][th := h[th].(openupval := Inserted(h[th].openupval, k, r))];
    assert RootsOK(h', g.rootgc, g.tmudata) by { hide StringsOK, OpenOK; }
    assert StringsOK(h', g.strt) by { hide RootsOK, OpenOK, Bucket; }
    NewOpens(h, g.uvhead, r, th, level, k);
  }

  lemma NewOpens(h: Heap, uvhead: seq<Ref>, r: Ref, th: Ref, level: nat, k: nat)
    requires OpenOK(h, uvhead) && r !in h && th in h && h[th].Thread? && level < |h[th].stack|
    requires k <= |h[th].openupval| && OpenList(h, th)
    requires forall i :: 0 <= i < k ==> h[h[th].openupval[i]].level > level
    requires forall i :: k <= i < |h[th].openupval| ==> h[h[th].openupval[i]].level < level
    ensures OpenOK(h[r := Open(th, level)][th := h[th].(openupval := Inserted(h[th].openupval, k, r))], [r] + uvhead)
  {
    var h' := h[r := Open(th, level)][th := h[th].(openupval := Inserted(h[th].openupval, k, r))];
    assert NoDup([r] + uvhead);
    assert forall u :: u in [r] + uvhead <==> u in h' && h'[u].Open?;
    forall t | t in h' && h'[t].Thread? ensures OpenList(h', t) {
      assert OpenList(h, t);
      if t == th { NewOpenList(h, r, th, level, k); }
    }
    forall u | u in h' && h'[u].Open? ensures h'[u].thread in h' && h'[h'[u].thread].Thread?
        && u in h'[h'[u].thread].openupval {
      InsertedHas(h[th].openupval, k, r);
    }
  }

  lemma InsertedHas(l: seq<Ref>, k: nat, r: Ref)
    requires k <= |l|
    ensures r in Inserted(l, k, r) && forall u :: u in l ==> u in Inserted(l, k, r)
  {
    var l' := Inserted(l, k, r);
    assert l'[k] == r && l == l[..k] + l[k..];
  }

  lemma NewOpenList(h: Heap, r: Ref, th: Ref, level: nat, k: nat)
    requires r !in h && th in h && h[th].Thread? && level < |h[th].stack|
    requires k <= |h[th].openupval| && OpenList(h, th)
    requires forall i :: 0 <= i < k ==> h[h[th].openupval[i]].level > level
    requires forall i :: k <= i < |h[th].openupval| ==> h[h[th].openupval[i]].level < level
    ensures var h' := h[r := Open(th, level)][th := h[th].(openupval := Inserted(h[th].openupval, k, r))];
            OpenList(h', th)
  {
    var l := h[th].openupval;
    var l' := Inserted(l, k, r);
    assert forall i :: 0 <= i < |l'| ==> l'[i] == if i < k then l[i] else if i == k then r else l[i - 1];
  }

  // ---------------------------------------------------------------------
  // Coming back to life

  /** changewhite on a dead string or a dead open upvalue that was found. */
  lemma ReviveInv(m: MarkState, g: Globals, o: Ref)
    requires Inv(m, g) && Sweeping(g) && o in m.h && IsDead(m, g, o) && forall x :: Refers(m.h, o, x) ==>
               IsLive(m, g, x)
    ensures Inv(Whiten(m, g.cw, o), g) && forall x :: IsLive(m, g, x) ==> IsLive(Whiten(m, g.cw, o), g, x)
  {
    InvKeys(m, g);
    hide Linked, Refers, Alive, PhaseOK;
    ReviveAlive(m, g, o);
    WhitenPhase(m, g, o);
  }

  lemma ReviveAlive(m: MarkState, g: Globals, o: Ref)
    requires Alive(m, g) && o in m.h && IsDead(m, g, o) && forall x :: Refers(m.h, o, x) ==> IsLive(m, g, x)
    ensures Alive(Whiten(m, g.cw, o), g)
  {
    hide Refers;
    var m' := Whiten(m, g.cw, o);
    assert forall x :: Live(m'.h, m'.c, g.cw, g.fixed, x) <==> IsLive(m, g, x) || x == o;
    assert Intact(m'.h, m'.c, g.cw, g.fixed);
    hide Intact;
  }

  // ---------------------------------------------------------------------
  // What the operations of a program need

  const EmptyTable := Table(Nil, [], [], Tm(false, false, false))

  /** The objects of a new state: the main thread, its table of globals and the
      registry. */
  function NewHeap(main: Ref, globals: Ref, registry: Ref): Heap {
    map[main := Thread(Ptr(globals), [], []), globals := EmptyTable, registry := EmptyTable]
  }

  lemma InitInv(m: MarkState, g: Globals, main: Ref, globals: Ref, registry: Ref)
    requires main != globals && main != registry && globals != registry
    requires m.h == NewHeap(main, globals, registry) && m == MarkState(m.h, m.c, {}, {}, [], [], [])
    requires m.c == map[main := White(false), globals := White(false), registry := White(false)]
    requires |g.strt| > 0 && forall b :: 0 <= b < |g.strt| ==> g.strt[b] == []
    requires g == Globals({}, {main}, [registry, globals, main], 0, g.strt, 0, [], [], false, Pause,
                          Roots(main, main, Ptr(registry), []))
    ensures Inv(m, g)
  {
    hide Linked, Alive, Rested;
    assert m.h.Keys == m.c.Keys == {main, globals, registry};
    InitLinked(m.h, g.strt, main, globals, registry);
    InitAlive(m, g, main, globals, registry);
  }

  lemma InitLinked(h: Heap, strt: seq<seq<Ref>>, main: Ref, globals: Ref, registry: Ref)
    requires main != globals && main != registry && globals != registry && h == NewHeap(main, globals, registry)
    requires |strt| > 0 && forall b :: 0 <= b < |strt| ==> strt[b] == []
    ensures Linked(h, [registry, globals, main], strt, [], [])
  {
    assert OpenList(h, main);
    assert forall r :: r in h ==> r in [registry, globals, main];
    hide Bucket;
  }

  lemma InitAlive(m: MarkState, g: Globals, main: Ref, globals: Ref, registry: Ref)
    requires main != globals && main != registry && globals != registry && m.h == NewHeap(main, globals, registry)
    requires m.c == map[main := White(false), globals := White(false), registry := White(false)]
    requires g.R == Roots(main, main, Ptr(registry), []) && g.fixed == {main} && g.tmudata == [] && !g.cw
    ensures Alive(m, g) && Rested(m.h, m.c, g.cw, g.tmudata)
  {
    assert m.h.Keys == m.c.Keys == {main, globals, registry};
  }

  lemma FixInv(m: MarkState, g: Globals, s: Ref)
    requires Inv(m, g) && IsLive(m, g, s) && m.h[s].Str?
    ensures Inv(m, g.(fixed := g.fixed + {s}))
    ensures forall x :: IsLive(m, g.(fixed := g.fixed + {s}), x) <==> IsLive(m, g, x)
  {
    var g' := g.(fixed := g.fixed + {s});
    assert forall x :: Live(m.h, m.c, g.cw, g'.fixed, x) <==> Live(m.h, m.c, g.cw, g.fixed, x);
    hide Linked, MarkInv, Refers;
    FixPhase(m, g, g');
  }

  lemma FixPhase(m: MarkState, g: Globals, g': Globals)
    requires m.h.Keys == m.c.Keys && |g.strt| > 0 && PhaseOK(m, g) && g' == g.(fixed := g'.fixed)
    ensures PhaseOK(m, g')
  {
    hide MarkInv;
  }

  lemma WrittenKeys(m: MarkState, o: Ref, f: Field, v: Val)
    requires o in m.h
    ensures Written(m, o, f, v).h.Keys == m.h.Keys && Written(m, o, f, v) == m.(h := Put(m.h, o, f, v))
    ensures SameKind(m.h[o], Written(m, o, f, v).h[o])
  {
    PutKinds(m.h, o, f, v);
  }

  lemma NewReady(m: MarkState, g: Globals, r: Ref, o: Obj)
    requires Inv(m, g) && r !in m.h && !o.Str? && !o.Open? && (o.Thread? ==> o.openupval == [])
    ensures m.h.Keys == m.c.Keys && NoOpenIn(m.h, r) && r !in g.fixed
    ensures Linked(m.h[r := o], [r] + g.rootgc, g.strt, g.tmudata, g.uvhead)
  {
    InvKeys(m, g);
    hide PhaseOK, Intact, RootsLive;
    NoOpenYet(m.h, g, r);
    NewRootLinked(m.h, g, r, o);
  }

  lemma StringReady(m: MarkState, g: Globals, r: Ref, hash: nat)
    requires Inv(m, g) && r !in m.h
    ensures |g.strt| > 0 && m.h.Keys == m.c.Keys && NoOpenIn(m.h, r) && r !in g.fixed
    ensures var b := Bucket(Str(hash), |g.strt|);
            Linked(m.h[r := Str(hash)], g.rootgc, g.strt[b := [r] + g.strt[b]], g.tmudata, g.uvhead)
    ensures var h' := m.h[r := Str(hash)]; forall x :: !Refers(h', r, x)
  {
    InvKeys(m, g);
    hide PhaseOK, Intact, RootsLive, Bucket;
    NoOpenYet(m.h, g, r);
    NewStringLinked(m.h, g, r, hash);
  }

  lemma DeadIsSweeping(m: MarkState, g: Globals, o: Ref)
    requires Inv(m, g) && o in m.h && IsDead(m, g, o)
    ensures Sweeping(g)
  {
    InvKeys(m, g);
    assert TmuOK(m.c, g.cw, g.tmudata);
    if g.phase == Propagate { MarkInvFacts(m, g.cw, Pending(m, g)); }
    hide Common, MarkInv;
  }

  lemma ListFacts(m: MarkState, g: Globals, th: Ref)
    requires Inv(m, g) && th in m.h && m.h[th].Thread?
    ensures OpenList(m.h, th) && forall i :: 0 <= i < |m.h[th].openupval| ==> m.h[th].openupval[i] in m.h
  {
    hide PhaseOK, Alive;
    OpenListOf(m.h, g, th);
  }

  /** The value of an open upvalue of a live thread is live. */
  lemma OpenValue(m: MarkState, g: Globals, th: Ref, u: Ref)
    requires Inv(m, g) && IsLive(m, g, th) && m.h[th].Thread? && u in m.h && m.h[u].Open? && m.h[u].thread == th
    ensures forall x :: Refers(m.h, u, x) ==> IsLive(m, g, x)
  {
    hide PhaseOK, Linked, RootsLive;
    forall x | Refers(m.h, u, x) ensures IsLive(m, g, x) {
      assert Refers(m.h, th, x);
      assert Live(m.h, m.c, g.cw, g.fixed, th);
    }
  }

  lemma OpenReady(m: MarkState, g: Globals, th: Ref, level: nat, r: Ref, k: nat)
    requires Inv(m, g) && IsLive(m, g, th) && m.h[th].Thread? && level < |m.h[th].stack| && r !in m.h
    requires k <= |m.h[th].openupval| && OpenList(m.h, th)
    requires forall i :: 0 <= i < k ==> m.h[m.h[th].openupval[i]].level > level
    requires k < |m.h[th].openupval| ==> m.h[m.h[th].openupval[k]].level < level
    ensures NoOpenIn(m.h, r) && r !in g.fixed
    ensures var h' := m.h[r := Open(th, level)][th := m.h[th].(openupval := Inserted(m.h[th].openupval, k, r))];
            && Linked(h', g.rootgc, g.strt, g.tmudata, [r] + g.uvhead) && Adds(m.h, h', r)
            && forall x :: Refers(h', r, x) ==> IsLive(m, g, x)
  {
    hide PhaseOK, Alive;
    var h' := m.h[r := Open(th, level)][th := m.h[th].(openupval := Inserted(m.h[th].openupval, k, r))];
    NoOpenYet(m.h, g, r);
    NewOpenLinked(m.h, g, r, th, level, k);
    hide Linked, Common, OpenList;
    InsertedOnly(m.h[th].openupval, k, r);
    NotFixed(m, g, r);
    OpenReadyValue(m, g, th, level, r, h');
  }

  lemma NotFixed(m: MarkState, g: Globals, r: Ref)
    requires Inv(m, g) && r !in m.h
    ensures r !in g.fixed
  {
    hide PhaseOK, Linked, Intact, RootsLive;
  }

  lemma OpenReadyValue(m: MarkState, g: Globals, th: Ref, level: nat, r: Ref, h': Heap)
    requires Inv(m, g) && IsLive(m, g, th) && m.h[th].Thread? && level < |m.h[th].stack|
    requires r in h' && h'[r] == Open(th, level) && th in h' && h'[th].Thread? && h'[th].stack == m.h[th].stack
    ensures forall x :: Refers(h', r, x) ==> IsLive(m, g, x)
  {
    hide PhaseOK, RootsLive, Linked;
    forall x | Refers(h', r, x) ensures IsLive(m, g, x) {
      assert Refers(m.h, th, x);
      assert Live(m.h, m.c, g.cw, g.fixed, th);
    }
  }

  lemma InsertedOnly(l: seq<Ref>, k: nat, r: Ref)
    requires k <= |l|
    ensures forall u :: u in Inserted(l, k, r) ==> u in l || u == r
  {
  }

  /** The stack slot of an open upvalue exists. */
  lemma OpenSlot(m: MarkState, g: Globals, u: Ref)
    requires Inv(m, g) && u in m.h && m.h[u].Open?
    ensures m.h[u].thread in m.h && m.h[m.h[u].thread].Thread? && m.h[u].level < |m.h[m.h[u].thread].stack|
  {
    hide PhaseOK, Alive, RootsOK, StringsOK;
    var th := m.h[u].thread;
    assert OpenList(m.h, th) && u in m.h[th].openupval;
  }

  lemma RootsInv(m: MarkState, g: Globals, g': Globals)
    requires Inv(m, g) && g' == g.(R := g'.R) && g'.R.main == g.R.main && g'.R.registry == g.R.registry
    requires IsLive(m, g, g'.R.running) && m.h[g'.R.running].Thread?
    requires forall v :: v in g'.R.mt ==> v in g.R.mt || LiveVal(m.h, m.c, g.cw, g.fixed, v)
    ensures Inv(m, g')
  {
    hide MarkInv, Linked, Intact, StringsSwept, RootsSwept, Rested;
  }
}
