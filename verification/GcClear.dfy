/** Clearing the weak tables at the end of the mark phase. */
module GcClear {
  import opened GcHeap
  import opened GcMark
  import opened GcLinks

  /** iscleared, without its marking of strings. */
  predicate Cleared(h: Heap, c: Marks, fin: set<Ref>, v: Val, isKey: bool) {
    && v.Ptr? && v.r in h && v.r in c && !h[v.r].Str?
    && (c[v.r].White? || (h[v.r].Udata? && !isKey && v.r in fin))
  }

  predicate KeyCleared(h: Heap, c: Marks, fin: set<Ref>, k: Key) {
    k.Key? && Cleared(h, c, fin, k.v, true)
  }

  function ClearEntry(h: Heap, c: Marks, fin: set<Ref>, e: Entry): Entry {
    if e.val != Nil && (KeyCleared(h, c, fin, e.key) || Cleared(h, c, fin, e.val, false))
    then Entry(if e.key.Key? && e.key.v.Ptr? then DeadKey else e.key, Nil) else e
  }

  function ClearNodes(h: Heap, c: Marks, fin: set<Ref>, node: seq<Entry>): (r: seq<Entry>)
    ensures |r| == |node| && forall i :: 0 <= i < |node| ==> r[i] == ClearEntry(h, c, fin, node[i])
  {
    seq(|node|, i requires 0 <= i < |node| => ClearEntry(h, c, fin, node[i]))
  }

  function ClearSlots(h: Heap, c: Marks, fin: set<Ref>, slots: seq<Val>): (r: seq<Val>)
    ensures |r| == |slots| && forall i :: 0 <= i < |slots| ==>
              r[i] == if Cleared(h, c, fin, slots[i], false) then Nil else slots[i]
  {
    seq(|slots|, i requires 0 <= i < |slots| => if Cleared(h, c, fin, slots[i], false) then Nil else slots[i])
  }

  /** What cleartable leaves of a table. */
  function ClearTable(h: Heap, c: Marks, fin: set<Ref>, t: Obj, weakVal: bool): Obj
    requires t.Table?
  {
    t.(slots := if weakVal then ClearSlots(h, c, fin, t.slots) else t.slots, node := ClearNodes(h, c, fin, t.node))
  }

  /** Strings are never cleared: they are marked instead. */
  ghost predicate StringsMarked(h: Heap, c0: Marks, c: Marks) {
    && c.Keys == c0.Keys
    && forall r :: r in c0 ==> c[r] == c0[r] || (c0[r].White? && r in h && h[r].Str? && c[r] == Gray)
  }

  lemma ClearedStays(h: Heap, c0: Marks, c: Marks, fin: set<Ref>, v: Val, isKey: bool)
    requires StringsMarked(h, c0, c)
    ensures Cleared(h, c, fin, v, isKey) == Cleared(h, c0, fin, v, isKey)
  {
  }

  /** What a table refers to after it is cleared. */
  lemma ClearTableRefers(h: Heap, c: Marks, fin: set<Ref>, o: Ref, weakVal: bool, x: Ref)
    requires o in h && h[o].Table? && NoDangling(h)
    requires Refers(h[o := ClearTable(h, c, fin, h[o], weakVal)], o, x)
    ensures h[o].meta == Ptr(x) || Ptr(x) in h[o].slots || NodeRefers(h[o].node, x)
    ensures h[o].meta == Ptr(x) || (!weakVal && Ptr(x) in h[o].slots)
            || (Ptr(x) in h[o].slots && !Cleared(h, c, fin, Ptr(x), false))
            || exists e :: e in h[o].node && EntryRefers(e, x) && ClearEntry(h, c, fin, e) == e
  {
    hide Cleared;
    var t := ClearTable(h, c, fin, h[o], weakVal);
    if Ptr(x) in t.slots && weakVal {
      var i :| 0 <= i < |t.slots| && t.slots[i] == Ptr(x);
      assert h[o].slots[i] == Ptr(x);
    }
    if NodeRefers(t.node, x) {
      var e :| e in t.node && EntryRefers(e, x);
      var i :| 0 <= i < |t.node| && t.node[i] == e;
      assert h[o].node[i] == e;
    }
  }

  /** Every marked object refers to marked objects only. */
  ghost predicate AllMarked(h: Heap, c: Marks) {
    forall o, r :: o in h && Marked(c, o) && Refers(h, o, r) ==> Marked(c, r)
  }

  lemma StringsRefl(h: Heap, c: Marks)
    ensures StringsMarked(h, c, c)
  {
  }

  lemma StringsTrans(h: Heap, c0: Marks, c1: Marks, c2: Marks)
    requires StringsMarked(h, c0, c1) && StringsMarked(h, c1, c2)
    ensures StringsMarked(h, c0, c2)
    ensures forall r :: Marked(c0, r) ==> Marked(c2, r)
    ensures forall r :: Marked(c1, r) ==> Marked(c2, r)
  {
  }

  lemma SameClearing(h: Heap, c0: Marks, c1: Marks, fin: set<Ref>, node: seq<Entry>)
    requires StringsMarked(h, c0, c1)
    ensures ClearNodes(h, c1, fin, node) == ClearNodes(h, c0, fin, node)
    ensures forall e :: e in node ==> ClearEntry(h, c1, fin, e) == ClearEntry(h, c0, fin, e)
  {
    hide Cleared;
    forall e | e in node ensures ClearEntry(h, c1, fin, e) == ClearEntry(h, c0, fin, e) {
      if e.key.Key? { ClearedStays(h, c0, c1, fin, e.key.v, true); }
      ClearedStays(h, c0, c1, fin, e.val, false);
    }
  }

  lemma ClearSame(h0: Heap, c0: Marks, h: Heap, c: Marks, fin: set<Ref>, t: Obj, weakVal: bool)
    requires SameButTables(h0, h) && StringsMarked(h0, c0, c) && t.Table?
    ensures ClearTable(h, c, fin, t, weakVal) == ClearTable(h0, c0, fin, t, weakVal)
  {
    forall v, isKey ensures Cleared(h, c, fin, v, isKey) == Cleared(h0, c0, fin, v, isKey) {
    }
    hide Cleared;
    assert ClearNodes(h, c, fin, t.node) == ClearNodes(h0, c0, fin, t.node);
    assert ClearSlots(h, c, fin, t.slots) == ClearSlots(h0, c0, fin, t.slots);
  }

  /** Clearing a table leaves the other objects alone. */
  lemma ClearOneOther(h0: Heap, h: Heap, c: Marks, fin: set<Ref>, o: Ref, weakVal: bool)
    requires o in h0 && h0[o].Table? && h == h0[o := ClearTable(h0, c, fin, h0[o], weakVal)] && NoDangling(h0)
    ensures forall p, x :: p in h0 && p != o ==> Refers(h, p, x) == Refers(h0, p, x)
    ensures NoDangling(h)
  {
    assert h[o].Table?;
    hide Cleared, ClearTable;
    assert forall p: Obj, x :: HoldsPlain(h, p, x) == HoldsPlain(h0, p, x);
    hide HoldsPlain;
    forall p, x | p in h && Refers(h, p, x) ensures x in h {
      if p == o { ClearTableRefers(h0, c, fin, o, weakVal, x); TableRefersAll(h0, o, x); }
    }
  }

  lemma TableRefersAll(h: Heap, o: Ref, x: Ref)
    requires o in h && h[o].Table? && (h[o].meta == Ptr(x) || Ptr(x) in h[o].slots || NodeRefers(h[o].node, x))
    ensures Refers(h, o, x)
  {
  }

  /** When marking has ended, only weak tables may refer to unmarked objects. */
  lemma MarkedRefers(m: MarkState, cw: bool, o: Ref, x: Ref)
    requires MarkInv(m, cw, {}) && m.gray == [] && o in m.h && Marked(m.c, o) && o !in m.weak && Refers(m.h, o, x)
    ensures Marked(m.c, x)
  {
    hide ListsOK, StacksGray, NoDangling;
    assert Done(m.h, m.c, m.wk, m.wv, o);
    assert m.h[o].Table? ==> m.c[o] == Black;
    assert Keeps(m.h, m.c, m.wk, m.wv, o, x);
  }

  lemma WeakFacts(m: MarkState, cw: bool)
    requires MarkInv(m, cw, {}) && m.gray == []
    ensures m.h.Keys == m.c.Keys && NoDangling(m.h) && NoDup(m.weak)
    ensures forall o :: o in m.weak ==> o in m.h && m.h[o].Table? && m.c[o] == Gray
    ensures forall o, x :: o in m.weak && TableKeeps(m.h[o], o in m.wk, o in m.wv, x) ==> Marked(m.c, x)
  {
    hide StacksGray, NoDangling, TableKeeps;
    forall o, x | o in m.weak && TableKeeps(m.h[o], o in m.wk, o in m.wv, x) ensures Marked(m.c, x) {
      assert Done(m.h, m.c, m.wk, m.wv, o);
      assert Keeps(m.h, m.c, m.wk, m.wv, o, x);
    }
  }

  lemma StringsSame(h0: Heap, h: Heap, c0: Marks, c: Marks)
    requires SameButTables(h0, h) && StringsMarked(h, c0, c)
    ensures StringsMarked(h0, c0, c)
  {
  }

  lemma ClearedMarked(m: MarkState, cw: bool, c: Marks, o: Ref, x: Ref)
    requires MarkInv(m, cw, {}) && m.gray == [] && o in m.h && o !in m.weak && Refers(m.h, o, x)
    requires StringsMarked(m.h, m.c, c) && Marked(c, o)
    ensures Marked(c, x)
  {
    assert !m.h[o].Str?;
    assert Marked(m.c, o);
    MarkedRefers(m, cw, o, x);
  }

  /** The first i weak tables are cleared. */
  ghost predicate ClearedUpto(m: MarkState, fin: set<Ref>, h: Heap, c: Marks, i: nat)
    requires i <= |m.weak|
  {
    && h.Keys == c.Keys && SameButTables(m.h, h) && NoDangling(h) && StringsMarked(m.h, m.c, c)
    && (forall o :: o in m.weak ==> o in m.h && m.h[o].Table?)
    && (forall o :: o in h && o !in m.weak[..i] ==> h[o] == m.h[o])
    && (forall o :: o in m.weak[..i] ==> h[o] == ClearTable(m.h, m.c, fin, m.h[o], o in m.wv))
    && (forall o, x :: o in m.weak[..i] && Refers(h, o, x) ==> Marked(c, x))
    && (forall o, x :: o in h && o !in m.weak[..i] ==> Refers(h, o, x) == Refers(m.h, o, x))
  }

  lemma ClearStep(m: MarkState, fin: set<Ref>, h0: Heap, c0: Marks, h: Heap, c: Marks, i: nat)
    requires i < |m.weak| && NoDup(m.weak) && ClearedUpto(m, fin, h0, c0, i)
    requires m.weak[i] in h0 && h0[m.weak[i]].Table?
    requires h == h0[m.weak[i] := ClearTable(h0, c0, fin, h0[m.weak[i]], m.weak[i] in m.wv)]
    requires h.Keys == c.Keys && StringsMarked(h0, c0, c) && forall x :: Refers(h, m.weak[i], x) ==> Marked(c, x)
    ensures ClearedUpto(m, fin, h, c, i + 1)
  {
    hide Cleared;
    var o := m.weak[i];
    assert o !in m.weak[..i] && m.weak[..i + 1] == m.weak[..i] + [o];
    ClearSame(m.h, m.c, h0, c0, fin, h0[o], o in m.wv);
    ClearOneOther(h0, h, c0, fin, o, o in m.wv);
    assert SameButTables(m.h, h);
    hide ClearTable, Refers;
    StringsSame(m.h, h0, c0, c);
    StringsTrans(m.h, m.c, c0, c);
    hide StringsMarked, NoDangling;
  }

  lemma ClearedAll(m: MarkState, cw: bool, fin: set<Ref>, h: Heap, c: Marks)
    requires MarkInv(m, cw, {}) && m.gray == [] && ClearedUpto(m, fin, h, c, |m.weak|)
    ensures AllMarked(h, c)
  {
    hide MarkInv, Refers, ClearTable;
    assert m.weak[..|m.weak|] == m.weak;
    forall o, x | o in h && Marked(c, o) && Refers(h, o, x) ensures Marked(c, x) {
      if o !in m.weak { ClearedMarked(m, cw, c, o, x); }
    }
  }

  lemma ClearStart(m: MarkState, cw: bool, fin: set<Ref>)
    requires MarkInv(m, cw, {}) && m.gray == []
    ensures NoDup(m.weak) && ClearedUpto(m, fin, m.h, m.c, 0)
  {
    WeakFacts(m, cw);
    hide MarkInv, TableKeeps, Refers, ClearTable;
    assert m.weak[..0] == [];
  }

  lemma ClearReady(m: MarkState, cw: bool, fin: set<Ref>, h: Heap, c: Marks, i: nat)
    requires MarkInv(m, cw, {}) && m.gray == [] && i < |m.weak| && ClearedUpto(m, fin, h, c, i)
    ensures h.Keys == c.Keys && NoDangling(h) && m.weak[i] in h && h[m.weak[i]].Table?
    ensures forall x :: TableKeeps(h[m.weak[i]], m.weak[i] in m.wk, m.weak[i] in m.wv, x) ==> Marked(c, x)
  {
    hide MarkInv, TableKeeps, Refers, ClearTable, NoDangling;
    WeakFacts(m, cw);
    var o := m.weak[i];
    assert o in m.weak && o !in m.weak[..i];
    forall x | TableKeeps(h[o], o in m.wk, o in m.wv, x) ensures Marked(c, x) {
      assert h[o] == m.h[o];
      assert TableKeeps(m.h[o], o in m.wk, o in m.wv, x);
      assert Marked(m.c, x);
    }
  }
}
