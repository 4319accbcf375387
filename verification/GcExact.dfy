/** What exactly a collection clears in weak tables. */
module GcExact {
  import opened GcHeap
  import opened GcMark
  import opened GcLinks
  import opened GcClear
  import opened GcInv
  import opened GcSweep
  import opened GcClose
  import opened GcCycle
  import opened GcBound
  import opened GcSeen

  // ---------------------------------------------------------------------
  // The law

  /** A weak value goes if its object is gone, L being the ones that stay, or
      if it is a userdata that has had its turn to be finalized. */
  predicate ValueGoes(h0: Heap, L: set<Ref>, fin: set<Ref>, v: Val) {
    v.Ptr? && (v.r !in L || (v.r in h0 && h0[v.r].Udata? && v.r in fin))
  }

  /** A key goes only if its object is gone. */
  predicate KeyGoes(L: set<Ref>, k: Key) {
    k.Key? && k.v.Ptr? && k.v.r !in L
  }

  /** An entry of a table: in a weak one it loses its value if its key or its
      value goes; otherwise, and in all other tables, it stays as it was. */
  predicate EntryAs(h0: Heap, L: set<Ref>, fin: set<Ref>, weak: bool, e0: Entry, e: Entry) {
    if e0.val == Nil then e.val == Nil
    else if weak && (KeyGoes(L, e0.key) || ValueGoes(h0, L, fin, e0.val)) then e.val == Nil
    else e == e0
  }

  predicate SlotAs(h0: Heap, L: set<Ref>, fin: set<Ref>, weakVal: bool, v0: Val, v: Val) {
    v == if weakVal && ValueGoes(h0, L, fin, v0) then Nil else v0
  }

  ghost predicate TableAs(h0: Heap, L: set<Ref>, fin: set<Ref>, t0: Obj, t: Obj)
    requires t0.Table?
  {
    && t.Table? && t.meta == t0.meta && t.tm == t0.tm && |t.slots| == |t0.slots| && |t.node| == |t0.node|
    && (forall i :: 0 <= i < |t.slots| ==> SlotAs(h0, L, fin, WeakVals(h0, t0.meta), t0.slots[i], t.slots[i]))
    && (forall i :: 0 <= i < |t.node| ==> EntryAs(h0, L, fin, IsWeak(h0, t0.meta), t0.node[i], t.node[i]))
  }

  ghost predicate ClearedAs(h0: Heap, h: Heap, L: set<Ref>, fin: set<Ref>, o: Ref) {
    o in h0 && o in h && (h0[o].Table? ==> TableAs(h0, L, fin, h0[o], h[o]))
  }

  /** After a collection: every table that is left has lost exactly the weak
      entries of objects that are gone and the weak values that are finalized
      userdata. */
  ghost predicate ClearsExactly(h0: Heap, h: Heap, fin: set<Ref>) {
    forall o :: o in h ==> ClearedAs(h0, h, h.Keys, fin, o)
  }

  /** The same while other objects are still being swept. */
  ghost predicate ClearsLive(h0: Heap, m: MarkState, g: Globals) {
    forall o :: IsLive(m, g, o) ==> ClearedAs(h0, m.h, LiveSet(m, g), g.finalized, o)
  }

  ghost function LiveSet(m: MarkState, g: Globals): (L: set<Ref>)
    ensures forall o :: o in L <==> IsLive(m, g, o)
  {
    set o | o in m.h && IsLive(m, g, o)
  }

  // ---------------------------------------------------------------------
  // The atomic step

  /** At the end of marking, a live table is weak exactly if it is on the list
      of weak tables, with its modes noted. */
  lemma WeakListed(m: MarkState, cw: bool, o: Ref)
    requires MarkInv(m, cw, {}) && m.gray == [] && BlackStrong(m.h, m.c) && ModesOK(m)
    requires o in m.h && m.h[o].Table? && Marked(m.c, o)
    ensures o in m.weak <==> IsWeak(m.h, m.h[o].meta)
    ensures o in m.weak ==> (o in m.wv <==> WeakVals(m.h, m.h[o].meta))
  {
    hide Tri, NoDangling, StacksGray, IsWeak, WeakKeys, WeakVals;
    assert ListsOK(m) && GrayTables(m, {});
    if o in m.weak { assert ModeNoted(m, o); }
  }

  /** For an object other than a string, being cleared is what the law says. */
  lemma ClearedIs(h: Heap, c: Marks, fin: set<Ref>, L: set<Ref>, v: Val)
    requires h.Keys == c.Keys && (v.Ptr? ==> v.r in h && !h[v.r].Str? && (Marked(c, v.r) <==> v.r in L))
    ensures Cleared(h, c, fin, v, false) <==> ValueGoes(h, L, fin, v)
    ensures Cleared(h, c, fin, v, true) <==> v.Ptr? && v.r !in L
  {
  }

  /** What the clearing of one weak table comes to. The strings that it still
      refers to are live. */
  lemma TableCleared(h: Heap, c: Marks, fin: set<Ref>, L: set<Ref>, o: Ref, weakVal: bool)
    requires h.Keys == c.Keys && NoDangling(h) && o in h && h[o].Table? && IsWeak(h, h[o].meta)
    requires weakVal <==> WeakVals(h, h[o].meta)
    requires forall r :: r in h && !h[r].Str? ==> (Marked(c, r) <==> r in L)
    requires var h' := h[o := ClearTable(h, c, fin, h[o], weakVal)]; forall x :: Refers(h', o, x) ==> x in L
    ensures TableAs(h, L, fin, h[o], ClearTable(h, c, fin, h[o], weakVal))
  {
    hide Cleared, ValueGoes, NoDangling, IsWeak, WeakVals, WeakKeys, Marked, KeyGoes;
    var t, t' := h[o], ClearTable(h, c, fin, h[o], weakVal);
    TableRefers(h, o);
    EntriesRefer(h, o);
    KeptRefers(h, o, t');
    InHeap(h, o);
    hide Refers;
    forall i | 0 <= i < |t.slots| ensures SlotAs(h, L, fin, weakVal, t.slots[i], t'.slots[i]) {
      SlotCleared(h, c, fin, L, weakVal, t.slots[i], t'.slots[i]);
    }
    forall i | 0 <= i < |t.node| ensures EntryAs(h, L, fin, true, t.node[i], t'.node[i]) {
      EntryCleared(h, c, fin, L, t.node[i], t'.node[i]);
    }
  }

  lemma InHeap(h: Heap, o: Ref)
    requires NoDangling(h) && o in h
    ensures forall x :: Refers(h, o, x) ==> x in h
  {
  }

  /** What a table t refers to when it takes the place of o. */
  lemma KeptRefers(h: Heap, o: Ref, t: Obj)
    requires o in h && t.Table?
    ensures forall x :: Ptr(x) in t.slots ==> Refers(h[o := t], o, x)
    ensures forall e, x :: e in t.node && EntryRefers(e, x) ==> Refers(h[o := t], o, x)
  {
  }

  lemma SlotCleared(h: Heap, c: Marks, fin: set<Ref>, L: set<Ref>, weakVal: bool, v: Val, v': Val)
    requires h.Keys == c.Keys && (v.Ptr? ==> v.r in h)
    requires forall r :: r in h && !h[r].Str? ==> (Marked(c, r) <==> r in L)
    requires v' == if weakVal && Cleared(h, c, fin, v, false) then Nil else v
    requires v'.Ptr? ==> v'.r in L
    ensures SlotAs(h, L, fin, weakVal, v, v')
  {
    if v.Ptr? && !h[v.r].Str? { ClearedIs(h, c, fin, L, v); }
  }

  lemma EntryCleared(h: Heap, c: Marks, fin: set<Ref>, L: set<Ref>, e: Entry, e': Entry)
    requires h.Keys == c.Keys && (forall x :: EntryRefers(e, x) ==> x in h)
    requires forall r :: r in h && !h[r].Str? ==> (Marked(c, r) <==> r in L)
    requires e' == ClearEntry(h, c, fin, e) && forall x :: EntryRefers(e', x) ==> x in L
    ensures EntryAs(h, L, fin, true, e, e')
  {
    if e.val != Nil {
      if e.val.Ptr? { assert EntryRefers(e, e.val.r); }
      if e.key.Key? && e.key.v.Ptr? { assert EntryRefers(e, e.key.v.r); }
      if e' == e {
        if e.val.Ptr? { assert EntryRefers(e', e.val.r); }
        if e.key.Key? && e.key.v.Ptr? { assert EntryRefers(e', e.key.v.r); }
      }
    }
  }

  lemma AtomicExact(m0: MarkState, g0: Globals, m1: MarkState, g1: Globals, m: MarkState, g: Globals, o: Ref)
    requires Inv(m0, g0) && AtomicMarked(m0, g0, m1, g1) && ClearedUpto(m1, g1.finalized, m.h, m.c, |m1.weak|)
    requires g == g1.(cw := !g1.cw, sweepstrgc := 0, sweepgc := 0, phase := SweepString)
    requires OnlyTrimmed(m0.h, m1.h) && ModesOK(m1) && BlackStrong(m1.h, m1.c) && IsLive(m, g, o)
    ensures ClearedAs(m0.h, m.h, LiveSet(m, g), g.finalized, o)
  {
    hide MarkInv, Inv, ClearedUpto, AtomicMarked, ModesOK, OnlyTrimmed, IsLive, Marked, BlackStrong, LiveSet, TableAs;
    hide IsWeak, WeakVals, ClearTable;
    var L := LiveSet(m, g);
    LiveKeys(m, g, o);
    AtomicLive(m0, g0, m1, g1, m, g);
    AtomicColours(m0, g0, m1, g1, m, g, o);
    ClearedObject(m1, g1.finalized, m.h, m.c, o);
    TrimmedObject(m0.h, m1.h, o);
    if m0.h[o].Table? {
      WeakListed(m1, g1.cw, o);
      MarkInvFacts(m1, g1.cw, {});
      if o in m1.weak {
        ListedCleared(m1, g1.finalized, m.h, m.c, o);
        ClearedLive(m1, m, g, o, L);
        TableCleared(m1.h, m1.c, g1.finalized, L, o, o in m1.wv);
      } else {
        NotListed(m1, g1.finalized, m.h, m.c, o);
        StrongAs(m1.h, L, g1.finalized, m1.h[o]);
      }
      TrimmedAs(m0.h, m1.h, L, g.finalized, o, m.h[o]);
    }
  }

  /** Of the objects that are not strings, the marked ones are live. */
  lemma AtomicLive(m0: MarkState, g0: Globals, m1: MarkState, g1: Globals, m: MarkState, g: Globals)
    requires Inv(m0, g0) && AtomicMarked(m0, g0, m1, g1) && ClearedUpto(m1, g1.finalized, m.h, m.c, |m1.weak|)
    requires g == g1.(cw := !g1.cw, sweepstrgc := 0, sweepgc := 0, phase := SweepString)
    requires OnlyTrimmed(m0.h, m1.h)
    ensures forall r :: r in m1.h && !m1.h[r].Str? ==> (Marked(m1.c, r) <==> IsLive(m, g, r))
  {
    hide MarkInv, Inv, ClearedUpto, AtomicMarked, IsLive, Marked;
    forall r | r in m1.h && !m1.h[r].Str? ensures Marked(m1.c, r) <==> IsLive(m, g, r) {
      AtomicColours(m0, g0, m1, g1, m, g, r);
    }
  }

  lemma ListedCleared(m: MarkState, fin: set<Ref>, h: Heap, c: Marks, o: Ref)
    requires ClearedUpto(m, fin, h, c, |m.weak|) && o in m.weak
    ensures o in m.h && m.h[o].Table? && o in h && h[o] == ClearTable(m.h, m.c, fin, m.h[o], o in m.wv)
    ensures forall x :: Refers(h, o, x) ==> Marked(c, x)
    ensures h.Keys == c.Keys == m.h.Keys && SameButTables(m.h, h)
  {
    hide ClearTable, Refers, NoDangling, StringsMarked;
    assert m.weak[..|m.weak|] == m.weak;
  }

  lemma NotListed(m: MarkState, fin: set<Ref>, h: Heap, c: Marks, o: Ref)
    requires ClearedUpto(m, fin, h, c, |m.weak|) && o !in m.weak && o in h
    ensures o in m.h && h[o] == m.h[o]
  {
    hide ClearTable, Refers, NoDangling, StringsMarked;
    assert m.weak[..|m.weak|] == m.weak;
  }

  /** What a cleared table still refers to is live. */
  lemma ClearedLive(m1: MarkState, m: MarkState, g: Globals, o: Ref, L: set<Ref>)
    requires o in m1.h && o in m.h && m.h[o].Table? && m.h.Keys == m.c.Keys && L == LiveSet(m, g)
    requires forall x :: Refers(m.h, o, x) ==> Marked(m.c, x)
    ensures forall x :: Refers(m1.h[o := m.h[o]], o, x) ==> x in L
  {
    forall x | Refers(m1.h[o := m.h[o]], o, x) ensures x in L {
      assert Refers(m.h, o, x);
      MarkedIsLive(m, g, x);
    }
  }

  lemma MarkedIsLive(m: MarkState, g: Globals, x: Ref)
    requires m.h.Keys == m.c.Keys && Marked(m.c, x)
    ensures IsLive(m, g, x)
  {
  }

  /** A table that is not weak stays as it is. */
  lemma StrongAs(h: Heap, L: set<Ref>, fin: set<Ref>, t: Obj)
    requires t.Table? && !IsWeak(h, t.meta)
    ensures TableAs(h, L, fin, t, t)
  {
  }

  // ---------------------------------------------------------------------
  // Steps before and after it

  lemma TrimmedObject(h0: Heap, h: Heap, o: Ref)
    requires OnlyTrimmed(h0, h)
    ensures h.Keys == h0.Keys
    ensures o in h ==> h[o] == h0[o] || (h0[o].Table? && h[o] == h0[o].(node := TrimNode(h0[o].node)))
  {
  }

  lemma TrimmedAs(h0: Heap, h1: Heap, L: set<Ref>, fin: set<Ref>, o: Ref, t: Obj)
    requires OnlyTrimmed(h0, h1) && o in h0 && h0[o].Table? && h1[o].Table? && TableAs(h1, L, fin, h1[o], t)
    ensures TableAs(h0, L, fin, h0[o], t)
  {
    forall v ensures ValueGoes(h0, L, fin, v) == ValueGoes(h1, L, fin, v) {
    }
    forall v ensures WeakVals(h0, v) == WeakVals(h1, v) && IsWeak(h0, v) == IsWeak(h1, v) {
    }
    hide OnlyTrimmed, ValueGoes, WeakVals, IsWeak, KeyGoes;
    TrimmedObject(h0, h1, o);
    forall i | 0 <= i < |t.node| ensures EntryAs(h0, L, fin, IsWeak(h0, h0[o].meta), h0[o].node[i], t.node[i]) {
      assert EntryAs(h1, L, fin, IsWeak(h1, h1[o].meta), h1[o].node[i], t.node[i]);
      assert h1[o].node[i] == h0[o].node[i] || h1[o].node[i] == TrimEntry(h0[o].node[i]);
    }
    forall i | 0 <= i < |t.slots| ensures SlotAs(h0, L, fin, WeakVals(h0, h0[o].meta), h0[o].slots[i], t.slots[i]) {
      assert SlotAs(h1, L, fin, WeakVals(h1, h1[o].meta), h1[o].slots[i], t.slots[i]);
    }
  }

  /** The mark phase goes before. */
  lemma TrimmedClears(h0: Heap, h1: Heap, m: MarkState, g: Globals)
    requires OnlyTrimmed(h0, h1) && ClearsLive(h1, m, g)
    ensures ClearsLive(h0, m, g)
  {
    hide OnlyTrimmed, IsLive, TableAs;
    forall o | IsLive(m, g, o) ensures ClearedAs(h0, m.h, LiveSet(m, g), g.finalized, o) {
      assert ClearedAs(h1, m.h, LiveSet(m, g), g.finalized, o);
      TrimmedObject(h0, h1, o);
      if h0[o].Table? { TrimmedAs(h0, h1, LiveSet(m, g), g.finalized, o, m.h[o]); }
    }
  }

  /** Sweeping comes after. */
  lemma SweptClears(h0: Heap, m1: MarkState, g1: Globals, m: MarkState, g: Globals)
    requires ClearsLive(h0, m1, g1) && Preserves(m1, g1, m, g) && g.finalized == g1.finalized
    ensures ClearsLive(h0, m, g)
  {
    hide EntryAs, SlotAs, IsLive;
    assert LiveSet(m, g) == LiveSet(m1, g1);
    forall o | IsLive(m, g, o) ensures ClearedAs(h0, m.h, LiveSet(m, g), g.finalized, o) {
      assert ClearedAs(h0, m1.h, LiveSet(m1, g1), g1.finalized, o);
      assert SameValue(m1.h, m.h, o);
    }
  }

  /** So do steps that change no object when nothing is dead. */
  lemma SameClears(h0: Heap, m1: MarkState, g1: Globals, m: MarkState, g: Globals)
    requires ClearsLive(h0, m1, g1) && m.h == m1.h && g.finalized == g1.finalized
    requires forall o :: IsLive(m, g, o) <==> IsLive(m1, g1, o)
    ensures ClearsLive(h0, m, g)
  {
    hide TableAs, IsLive;
    assert LiveSet(m, g) == LiveSet(m1, g1);
    forall o | IsLive(m, g, o) ensures ClearedAs(h0, m.h, LiveSet(m, g), g.finalized, o) {
      assert ClearedAs(h0, m1.h, LiveSet(m1, g1), g1.finalized, o);
    }
  }

  /** A sweep goes before, and in the end nothing is dead. */
  lemma AllClears(m0: MarkState, g0: Globals, m1: MarkState, g1: Globals, m: MarkState, g: Globals)
    requires Preserves(m0, g0, m1, g1) && Intact(m0.h, m0.c, g0.cw, g0.fixed)
    requires forall o :: o in m1.h ==> IsLive(m1, g1, o)
    requires ClearsLive(m1.h, m, g) && forall o :: o in m.h ==> IsLive(m, g, o)
    ensures ClearsExactly(m0.h, m.h, g.finalized)
  {
    hide TableAs, IsLive;
    assert LiveSet(m, g) == m.h.Keys by { LiveIsAll(m, g); }
    forall o | o in m.h ensures ClearedAs(m0.h, m.h, m.h.Keys, g.finalized, o) {
      assert ClearedAs(m1.h, m.h, m.h.Keys, g.finalized, o);
      assert IsLive(m0, g0, o) && SameValue(m0.h, m1.h, o);
      if m0.h[o].Table? { SweptAs(m0, g0, m1, g1, m.h.Keys, g.finalized, o, m.h[o]); }
    }
  }

  lemma LiveIsAll(m: MarkState, g: Globals)
    requires forall o :: o in m.h ==> IsLive(m, g, o)
    ensures LiveSet(m, g) == m.h.Keys
  {
  }

  lemma SweptAs(m0: MarkState, g0: Globals, m1: MarkState, g1: Globals, L: set<Ref>, fin: set<Ref>, o: Ref, t: Obj)
    requires Preserves(m0, g0, m1, g1) && Intact(m0.h, m0.c, g0.cw, g0.fixed) && IsLive(m0, g0, o)
    requires o in m0.h && m0.h[o].Table? && o in m1.h && m1.h[o] == m0.h[o] && TableAs(m1.h, L, fin, m1.h[o], t)
    ensures TableAs(m0.h, L, fin, m0.h[o], t)
  {
    hide Preserves, Intact, ValueGoes, WeakVals, IsWeak, KeyGoes, IsLive, Refers;
    SweptValues(m0, g0, m1, g1, L, fin, o);
    var t0 := m0.h[o];
    TableRefers(m0.h, o);
    EntriesRefer(m0.h, o);
    if t0.meta.Ptr? { assert Refers(m0.h, o, t0.meta.r); }
    SweptModes(m0, g0, m1, g1, o);
    forall i | 0 <= i < |t.slots| ensures SlotAs(m0.h, L, fin, WeakVals(m0.h, t0.meta), t0.slots[i], t.slots[i]) {
      assert SlotAs(m1.h, L, fin, WeakVals(m1.h, t0.meta), t0.slots[i], t.slots[i]);
      var v := t0.slots[i];
      if v.Ptr? { assert Refers(m0.h, o, v.r); } else { PrimStays(m0.h, m1.h, L, fin, v); }
    }
    forall i | 0 <= i < |t.node| ensures EntryAs(m0.h, L, fin, IsWeak(m0.h, t0.meta), t0.node[i], t.node[i]) {
      assert EntryAs(m1.h, L, fin, IsWeak(m1.h, t0.meta), t0.node[i], t.node[i]);
      var v := t0.node[i].val;
      if v.Ptr? { assert EntryRefers(t0.node[i], v.r); } else { PrimStays(m0.h, m1.h, L, fin, v); }
    }
  }

  lemma PrimStays(h0: Heap, h1: Heap, L: set<Ref>, fin: set<Ref>, v: Val)
    requires v.Prim?
    ensures !ValueGoes(h0, L, fin, v) && !ValueGoes(h1, L, fin, v)
  {
  }

  /** What a live object refers to is the same after a sweep. */
  lemma SweptValues(m0: MarkState, g0: Globals, m1: MarkState, g1: Globals, L: set<Ref>, fin: set<Ref>, o: Ref)
    requires Preserves(m0, g0, m1, g1) && Intact(m0.h, m0.c, g0.cw, g0.fixed) && IsLive(m0, g0, o)
    ensures forall r :: Refers(m0.h, o, r) ==> ValueGoes(m0.h, L, fin, Ptr(r)) == ValueGoes(m1.h, L, fin, Ptr(r))
  {
    hide Refers;
    forall r | Refers(m0.h, o, r) ensures ValueGoes(m0.h, L, fin, Ptr(r)) == ValueGoes(m1.h, L, fin, Ptr(r)) {
      assert IsLive(m0, g0, r) && SameValue(m0.h, m1.h, r);
    }
  }

  lemma SweptModes(m0: MarkState, g0: Globals, m1: MarkState, g1: Globals, o: Ref)
    requires Preserves(m0, g0, m1, g1) && Intact(m0.h, m0.c, g0.cw, g0.fixed) && IsLive(m0, g0, o)
    requires o in m0.h && m0.h[o].Table? && (m0.h[o].meta.Ptr? ==> Refers(m0.h, o, m0.h[o].meta.r))
    ensures var v := m0.h[o].meta; WeakVals(m0.h, v) == WeakVals(m1.h, v) && IsWeak(m0.h, v) == IsWeak(m1.h, v)
  {
    hide Refers;
    var v := m0.h[o].meta;
    if v.Ptr? { assert IsLive(m0, g0, v.r) && SameValue(m0.h, m1.h, v.r); }
  }

  /** One step of the cycle. */
  lemma StepClears(h0: Heap, m1: MarkState, g1: Globals, m: MarkState, g: Globals)
    requires Inv(m1, g1) && (g1.phase == Propagate || Sweeping(g1) || g1.phase == Finalize)
    requires if g1.phase == Propagate then OnlyTrimmed(h0, m1.h) else ClearsLive(h0, m1, g1)
    requires g1.phase == Propagate ==> if g.phase == Propagate then OnlyTrimmed(m1.h, m.h) else ClearsLive(m1.h, m, g)
    requires Sweeping(g1) ==> Preserves(m1, g1, m, g) && g.finalized == g1.finalized
    requires g1.phase == Finalize ==> Inv(m, g) && m.h == m1.h && g.finalized == g1.finalized
    requires g.phase == Propagate ==> g1.phase == Propagate
    requires g1.phase == Finalize ==> !Sweeping(g)
    ensures if g.phase == Propagate then OnlyTrimmed(h0, m.h) else ClearsLive(h0, m, g)
  {
    if g1.phase == Propagate {
      if g.phase == Propagate { TrimmedTwice(h0, m1.h, m.h); } else { TrimmedClears(h0, m1.h, m, g); }
    } else if g1.phase == Finalize {
      NothingDead(m, g);
      NothingDead(m1, g1);
      hide Inv, IsLive, ClearsLive;
      forall o ensures IsLive(m, g, o) <==> IsLive(m1, g1, o) { BothLive(m1, g1, m, g, o); }
      SameClears(h0, m1, g1, m, g);
    } else {
      SweptClears(h0, m1, g1, m, g);
    }
  }

  lemma BothLive(m1: MarkState, g1: Globals, m: MarkState, g: Globals, o: Ref)
    requires m.h == m1.h && (forall x :: x in m1.h ==> IsLive(m1, g1, x)) && forall x :: x in m.h ==> IsLive(m, g, x)
    ensures IsLive(m, g, o) <==> IsLive(m1, g1, o)
  {
  }

  /** Between two cycles nothing but userdata is black. */
  lemma RestedStrong(m: MarkState, g: Globals)
    requires Inv(m, g) && (g.phase == Pause || g.phase == Finalize)
    ensures BlackStrong(m.h, m.c)
  {
    hide Alive, StringsOK, OpenOK, IsWeak;
  }

  lemma ProgressStrong(h0: Heap, c0: Marks, h: Heap, c: Marks)
    requires Progress(h0, c0, h, c)
    ensures BlackStrong(h0, c0) ==> BlackStrong(h, c)
  {
  }

  // ---------------------------------------------------------------------
  // Finalizers

  /** A userdata whose finalizer is still to be called. */
  predicate Finalizable(h: Heap, fin: set<Ref>, u: Ref) {
    u in h && h[u].Udata? && u !in fin && HasFinalizer(h, h[u].meta)
  }

  /** Marked before the end of the mark phase, so that it can be finalized. */
  ghost predicate FinalizableMarked(h: Heap, fin: set<Ref>, c: Marks) {
    forall u :: Finalizable(h, fin, u) ==> Marked(c, u)
  }

  /** No userdata is freed before its finalizer has had its turn. */
  ghost predicate Spares(h0: Heap, fin0: set<Ref>, m: MarkState, g: Globals) {
    forall u :: Finalizable(h0, fin0, u) ==> IsLive(m, g, u)
  }

  lemma TrimmedFinalizable(h0: Heap, h: Heap, fin: set<Ref>)
    requires OnlyTrimmed(h0, h)
    ensures forall u :: Finalizable(h0, fin, u) <==> Finalizable(h, fin, u)
  {
  }

  lemma ProgressFinalizable(h0: Heap, c0: Marks, h: Heap, c: Marks, fin: set<Ref>)
    requires Progress(h0, c0, h, c)
    ensures forall u :: Finalizable(h0, fin, u) <==> Finalizable(h, fin, u)
  {
    assert OnlyTrimmed(h0, h);
    TrimmedFinalizable(h0, h, fin);
  }

  /** luaC_separateudata and marktmu leave none unmarked. */
  lemma SeparatedMarked(h: Heap, fin: set<Ref>, c1: Marks, rootgc: seq<Ref>, tmudata0: seq<Ref>, tmudata: seq<Ref>,
                        c: Marks)
    requires h.Keys == c1.Keys && RootsOK(h, rootgc, tmudata0)
    requires forall u :: u in rootgc && Finalizable(h, fin, u) && c1[u].White? ==> u in tmudata
    requires forall u :: u in tmudata0 ==> u in tmudata
    requires (forall u :: u in tmudata ==> Marked(c, u)) && forall u :: Marked(c1, u) ==> Marked(c, u)
    ensures FinalizableMarked(h, fin, c)
  {
    hide HasFinalizer;
  }

  lemma AtomicSpares(m0: MarkState, g0: Globals, m1: MarkState, g1: Globals, m: MarkState, g: Globals)
    requires Inv(m0, g0) && AtomicMarked(m0, g0, m1, g1) && ClearedUpto(m1, g1.finalized, m.h, m.c, |m1.weak|)
    requires g == g1.(cw := !g1.cw, sweepstrgc := 0, sweepgc := 0, phase := SweepString)
    requires FinalizableMarked(m0.h, g0.finalized, m1.c)
    ensures Spares(m0.h, g0.finalized, m, g)
  {
    hide MarkInv, Inv, ClearedUpto, AtomicMarked, IsLive, Marked, Finalizable;
    forall u | Finalizable(m0.h, g0.finalized, u) ensures IsLive(m, g, u) {
      AtomicColours(m0, g0, m1, g1, m, g, u);
    }
  }

  lemma TrimmedSpares(h0: Heap, h1: Heap, fin: set<Ref>, m: MarkState, g: Globals)
    requires OnlyTrimmed(h0, h1) && Spares(h1, fin, m, g)
    ensures Spares(h0, fin, m, g)
  {
    TrimmedFinalizable(h0, h1, fin);
  }

  /** One step of the cycle. */
  lemma StepSpares(h0: Heap, fin0: set<Ref>, m1: MarkState, g1: Globals, m: MarkState, g: Globals)
    requires Inv(m1, g1) && (g1.phase == Propagate || Sweeping(g1) || g1.phase == Finalize)
    requires g1.phase == Propagate ==> OnlyTrimmed(h0, m1.h) && g1.finalized == fin0
    requires g1.phase != Propagate ==> Spares(h0, fin0, m1, g1)
    requires g1.phase == Propagate && g.phase != Propagate ==> Spares(m1.h, g1.finalized, m, g)
    requires Sweeping(g1) ==> Preserves(m1, g1, m, g)
    requires g1.phase == Finalize ==> Inv(m, g) && m.h == m1.h && !Sweeping(g)
    requires g.phase == Propagate ==> g1.phase == Propagate
    ensures g.phase != Propagate ==> Spares(h0, fin0, m, g)
  {
    if g1.phase == Propagate {
      if g.phase != Propagate { TrimmedSpares(h0, m1.h, fin0, m, g); }
    } else if g1.phase == Finalize {
      NothingDead(m, g);
      hide Inv, Finalizable;
      forall u | Finalizable(h0, fin0, u) ensures IsLive(m, g, u) { LiveKeys(m1, g1, u); }
    }
  }

  /** After a collection. */
  ghost predicate SparesFinalizable(m0: MarkState, g0: Globals, h: Heap) {
    forall u :: IsLive(m0, g0, u) && Finalizable(m0.h, g0.finalized, u) ==> u in h
  }

  lemma AllSpared(m0: MarkState, g0: Globals, m1: MarkState, g1: Globals, m: MarkState, g: Globals)
    requires Preserves(m0, g0, m1, g1) && Intact(m0.h, m0.c, g0.cw, g0.fixed) && g1.finalized == g0.finalized
    requires Spares(m1.h, g1.finalized, m, g)
    ensures SparesFinalizable(m0, g0, m.h)
  {
    hide Refers, IsLive;
    forall u | IsLive(m0, g0, u) && Finalizable(m0.h, g0.finalized, u) ensures u in m.h {
      assert SameValue(m0.h, m1.h, u);
      MetaStays(m0, g0, m1, g1, u);
      assert Finalizable(m1.h, g1.finalized, u);
      LiveKeys(m, g, u);
    }
  }

  lemma MetaStays(m0: MarkState, g0: Globals, m1: MarkState, g1: Globals, u: Ref)
    requires Preserves(m0, g0, m1, g1) && Intact(m0.h, m0.c, g0.cw, g0.fixed) && IsLive(m0, g0, u)
    requires u in m0.h && m0.h[u].Udata? && HasFinalizer(m0.h, m0.h[u].meta)
    ensures HasFinalizer(m1.h, m0.h[u].meta)
  {
    var v := m0.h[u].meta;
    assert Refers(m0.h, u, v.r);
    hide Refers;
    assert IsLive(m0, g0, v.r) && SameValue(m0.h, m1.h, v.r);
  }

  // ---------------------------------------------------------------------
  // What it means for a program

  /** No weak-valued table is left with a finalized userdata as a value, and no
      weak table with one in an entry. */
  lemma NoFinalizedValues(h0: Heap, h: Heap, fin: set<Ref>, o: Ref, u: Ref)
    requires ClearsExactly(h0, h, fin) && o in h && h[o].Table? && o in h0 && h0[o].Table?
    requires u in h0 && h0[u].Udata? && u in fin
    ensures WeakVals(h0, h0[o].meta) ==> Ptr(u) !in h[o].slots
    ensures IsWeak(h0, h0[o].meta) ==> forall e :: e in h[o].node ==> e.val != Ptr(u)
  {
    assert ClearedAs(h0, h, h.Keys, fin, o);
    var t0, t := h0[o], h[o];
    if WeakVals(h0, t0.meta) {
      forall i | 0 <= i < |t.slots| ensures t.slots[i] != Ptr(u) {
        assert SlotAs(h0, h.Keys, fin, true, t0.slots[i], t.slots[i]);
      }
    }
    if IsWeak(h0, t0.meta) {
      forall i | 0 <= i < |t.node| ensures t.node[i].val != Ptr(u) {
        assert EntryAs(h0, h.Keys, fin, true, t0.node[i], t.node[i]);
      }
    }
  }

  /** An entry whose key is left, finalized or not, keeps a value that is left
      and is no finalized userdata. */
  lemma KeysAreKept(h0: Heap, h: Heap, fin: set<Ref>, o: Ref, i: nat)
    requires ClearsExactly(h0, h, fin) && o in h && o in h0 && h0[o].Table? && i < |h0[o].node|
    requires var e := h0[o].node[i];
             && e.val != Nil && (e.key.Key? && e.key.v.Ptr? ==> e.key.v.r in h)
             && (e.val.Ptr? ==> e.val.r in h && !(e.val.r in h0 && h0[e.val.r].Udata? && e.val.r in fin))
    ensures h[o].Table? && i < |h[o].node| && h[o].node[i] == h0[o].node[i]
  {
    assert ClearedAs(h0, h, h.Keys, fin, o);
    assert EntryAs(h0, h.Keys, fin, IsWeak(h0, h0[o].meta), h0[o].node[i], h[o].node[i]);
  }

  /** The strong values of a table with weak keys stay, finalized or not, as
      long as they are in its array part. */
  lemma StrongSlotsStay(h0: Heap, h: Heap, fin: set<Ref>, o: Ref)
    requires ClearsExactly(h0, h, fin) && o in h && o in h0 && h0[o].Table? && !WeakVals(h0, h0[o].meta)
    ensures h[o].Table? && h[o].slots == h0[o].slots
  {
    assert ClearedAs(h0, h, h.Keys, fin, o);
    var t0, t := h0[o], h[o];
    forall i | 0 <= i < |t.slots| ensures t.slots[i] == t0.slots[i] {
      assert SlotAs(h0, h.Keys, fin, false, t0.slots[i], t.slots[i]);
    }
  }
}
