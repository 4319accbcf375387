/** The lists that own the objects, and what being alive means. */
module GcLinks {
  import opened GcHeap
  import opened GcMark

  function Bucket(o: Obj, size: nat): (b: nat)
    requires o.Str? && size > 0
    ensures b < size
  {
    o.hash % size
  }

  /** The open upvalues of a thread: strictly descending stack levels. */
  ghost predicate OpenList(h: Heap, th: Ref)
    requires th in h && h[th].Thread?
  {
    var l := h[th].openupval;
    && (forall i :: 0 <= i < |l| ==>
          l[i] in h && h[l[i]].Open? && h[l[i]].thread == th && h[l[i]].level < |h[th].stack|)
    && (forall i, j :: 0 <= i < j < |l| ==> h[l[i]].level > h[l[j]].level)
  }

  ghost predicate OpenOK(h: Heap, uvhead: seq<Ref>) {
    && NoDup(uvhead) && (forall u :: u in uvhead <==> u in h && h[u].Open?)
    && (forall u :: u in h && h[u].Open? ==>
          h[u].thread in h && h[h[u].thread].Thread? && u in h[h[u].thread].openupval)
    && (forall th :: th in h && h[th].Thread? ==> OpenList(h, th))
  }

  ghost predicate StringsOK(h: Heap, strt: seq<seq<Ref>>) {
    && |strt| > 0
    && (forall b :: 0 <= b < |strt| ==> NoDup(strt[b]))
    && (forall b, s :: 0 <= b < |strt| && s in strt[b] ==> s in h && h[s].Str? && Bucket(h[s], |strt|) == b)
    && (forall s :: s in h && h[s].Str? ==> s in strt[Bucket(h[s], |strt|)])
  }

  ghost predicate RootsOK(h: Heap, rootgc: seq<Ref>, tmudata: seq<Ref>) {
    && NoDup(rootgc) && (forall r :: r in rootgc ==> r in h && !h[r].Str? && !h[r].Open? && r !in tmudata)
    && NoDup(tmudata) && (forall r :: r in tmudata ==> r in h && h[r].Udata?)
    && (forall r :: r in h && !h[r].Str? && !h[r].Open? ==> r in rootgc || r in tmudata)
  }

  /** Every object is in exactly one of the lists that own objects. */
  ghost predicate Linked(h: Heap, rootgc: seq<Ref>, strt: seq<seq<Ref>>, tmudata: seq<Ref>, uvhead: seq<Ref>) {
    RootsOK(h, rootgc, tmudata) && StringsOK(h, strt) && OpenOK(h, uvhead)
  }

  /** Only tables differ. */
  ghost predicate SameButTables(h0: Heap, h: Heap) {
    h.Keys == h0.Keys && forall o :: o in h ==> h[o] == h0[o] || (h0[o].Table? && h[o].Table?)
  }

  lemma LinkedStays(h0: Heap, h: Heap, rootgc: seq<Ref>, strt: seq<seq<Ref>>, tmudata: seq<Ref>, uvhead: seq<Ref>)
    requires Linked(h0, rootgc, strt, tmudata, uvhead) && SameButTables(h0, h)
    ensures Linked(h, rootgc, strt, tmudata, uvhead)
  {
    hide StringsOK, OpenOK;
    StringsStay(h0, h, strt);
    OpenStays(h0, h, uvhead);
  }

  lemma StringsStay(h0: Heap, h: Heap, strt: seq<seq<Ref>>)
    requires StringsOK(h0, strt) && SameButTables(h0, h)
    ensures StringsOK(h, strt)
  {
    hide Bucket;
  }

  lemma OpenStays(h0: Heap, h: Heap, uvhead: seq<Ref>)
    requires OpenOK(h0, uvhead) && SameButTables(h0, h)
    ensures OpenOK(h, uvhead)
  {
    forall th | th in h && h[th].Thread? ensures OpenList(h, th) {
      assert OpenList(h0, th);
    }
  }

  // ---------------------------------------------------------------------
  // Dead objects

  /** The next sweep frees o. */
  predicate Dead(c: Marks, cw: bool, fixed: set<Ref>, o: Ref) {
    o in c && c[o] == White(!cw) && o !in fixed
  }

  predicate Live(h: Heap, c: Marks, cw: bool, fixed: set<Ref>, o: Ref) {
    o in h && !Dead(c, cw, fixed, o)
  }

  predicate LiveVal(h: Heap, c: Marks, cw: bool, fixed: set<Ref>, v: Val) {
    v.Ptr? ==> Live(h, c, cw, fixed, v.r)
  }

  /** Live objects refer to live objects. */
  ghost predicate Intact(h: Heap, c: Marks, cw: bool, fixed: set<Ref>) {
    forall o, r :: Live(h, c, cw, fixed, o) && Refers(h, o, r) ==> Live(h, c, cw, fixed, r)
  }

  // ---------------------------------------------------------------------
  // Pending objects

  lemma MarkInvMono(m: MarkState, cw: bool, P: set<Ref>, Q: set<Ref>)
    requires MarkInv(m, cw, P) && P <= Q
    ensures MarkInv(m, cw, Q)
  {
    hide ListsOK, StacksGray, Done, NoDangling;
  }

  /** A pending object with nothing left to mark is no longer pending. */
  lemma DropPending(m: MarkState, cw: bool, P: set<Ref>, u: Ref)
    requires MarkInv(m, cw, P) && u in m.h && !m.h[u].Table?
    requires Marked(m.c, u) ==> forall x :: HoldsPlain(m.h, m.h[u], x) ==> Marked(m.c, x)
    ensures MarkInv(m, cw, P - {u})
  {
    hide ListsOK, StacksGray, NoDangling, HoldsPlain;
    if Marked(m.c, u) { assert Done(m.h, m.c, m.wk, m.wv, u); }
  }

  lemma MarkInvSame(m: MarkState, cw: bool, P: set<Ref>, Q: set<Ref>)
    requires MarkInv(m, cw, P) && forall x :: x in m.h ==> (x in P <==> x in Q)
    ensures MarkInv(m, cw, Q)
  {
    hide ListsOK, StacksGray, Done, NoDangling;
  }

  /** gray := weak */
  lemma TakeWeak(m: MarkState, cw: bool, P: set<Ref>, Q: set<Ref>)
    requires MarkInv(m, cw, P) && m.gray == [] && forall x :: x in P ==> x in Q || x in m.weak
    ensures MarkInv(m.(gray := m.weak, weak := []), cw, Q)
  {
    hide Done, NoDangling;
  }

  /** gray := grayagain */
  lemma TakeAgain(m: MarkState, cw: bool, P: set<Ref>, Q: set<Ref>)
    requires MarkInv(m, cw, P) && m.gray == [] && forall x :: x in P ==> x in Q || x in m.again
    ensures MarkInv(m.(gray := m.again, again := []), cw, Q)
  {
    hide Done, NoDangling;
  }

  ghost function Elems(s: seq<Ref>): set<Ref> {
    set x | x in s
  }

  lemma MarkInvFacts(m: MarkState, cw: bool, P: set<Ref>)
    requires MarkInv(m, cw, P)
    ensures m.h.Keys == m.c.Keys && NoDangling(m.h) && OneWhite(m.c, cw)
    ensures forall u :: u in m.h && m.h[u].Udata? ==> m.c[u] != Gray
    ensures forall u :: u in m.h && m.h[u].Open? ==> m.c[u] != Black
  {
    hide NoDangling, Tri, ListsOK;
  }

  lemma UpvalueFacts(m: MarkState, cw: bool, P: set<Ref>, u: Ref)
    requires MarkInv(m, cw, P) && u in m.h && m.h[u].Open?
    ensures m.h.Keys == m.c.Keys && OneWhite(m.c, cw) && m.c[u] != Black
    ensures forall x :: HoldsPlain(m.h, m.h[u], x) <==> UpValue(m.h, m.h[u]) == Ptr(x)
    ensures UpValue(m.h, m.h[u]).Ptr? ==> UpValue(m.h, m.h[u]).r in m.h
  {
    MarkInvFacts(m, cw, P);
    assert forall x :: HoldsPlain(m.h, m.h[u], x) ==> Refers(m.h, u, x);
    hide MarkInv;
  }

  lemma BlackenUdata(m: MarkState, cw: bool, P: set<Ref>, u: Ref)
    requires MarkInv(m, cw, P) && u in m.h && m.h[u].Udata? && u in P
    ensures MarkInv(m.(c := m.c[u := Black]), cw, P)
    ensures Progress(m.h, m.c, m.h, m.c[u := Black])
  {
    hide ListsOK, StacksGray, GrayTables, HoldsPlain, NoDangling, OneWhite, Progress;
    var m' := m.(c := m.c[u := Black]);
    BlackenLists(m, cw, P, u);
    forall o | o in m.h && Marked(m'.c, o) ensures o in m.gray || o in P || Done(m.h, m'.c, m.wk, m.wv, o) {
      if o != u && Done(m.h, m.c, m.wk, m.wv, o) {
        forall r | Keeps(m.h, m'.c, m.wk, m.wv, o, r)
            ensures Marked(m'.c, r) { assert Keeps(m.h, m.c, m.wk, m.wv, o, r); }
      }
    }
  }

  lemma BlackenLists(m: MarkState, cw: bool, P: set<Ref>, u: Ref)
    requires m.h.Keys == m.c.Keys && u in m.h && m.h[u].Udata?
    requires ListsOK(m) && StacksGray(m) && GrayTables(m, P) && OneWhite(m.c, cw)
    ensures var m' := m.(c := m.c[u := Black]);
            && ListsOK(m') && StacksGray(m') && GrayTables(m', P) && OneWhite(m'.c, cw)
            && Progress(m.h, m.c, m.h, m'.c)
  {
    hide NoDup;
  }

  lemma ProgressRefl(h: Heap, c: Marks)
    ensures Progress(h, c, h, c)
  {
  }

  /** A userdata moves from the root list to tmudata. */
  lemma MoveRoot(h: Heap, rootgc: seq<Ref>, tmudata: seq<Ref>, p: nat)
    requires RootsOK(h, rootgc, tmudata) && p < |rootgc| && h[rootgc[p]].Udata?
    ensures RootsOK(h, rootgc[..p] + rootgc[p + 1..], tmudata + [rootgc[p]])
    ensures forall x :: x in rootgc[..p] + rootgc[p + 1..] <==> x in rootgc && x != rootgc[p]
  {
    RemoveAt(rootgc, p);
  }

  lemma RemoveAt(s: seq<Ref>, p: nat)
    requires NoDup(s) && p < |s|
    ensures NoDup(s[..p] + s[p + 1..])
    ensures forall x :: x in s[..p] + s[p + 1..] <==> x in s && x != s[p]
  {
    var t := s[..p] + s[p + 1..];
    assert forall i :: 0 <= i < |t| ==> t[i] == s[if i < p then i else i + 1];
    forall x | x in s && x != s[p] ensures x in t {
      var i :| 0 <= i < |s| && s[i] == x;
      assert t[if i < p then i else i - 1] == x;
    }
  }

  ghost predicate Grown(s0: seq<Ref>, s: seq<Ref>) {
    forall x :: x in s0 ==> x in s
  }

  /** The objects that wait for the atomic step. */
  ghost function PSet(h: Heap, again: seq<Ref>, weak: seq<Ref>, tmudata: seq<Ref>): set<Ref> {
    set o | o in h && (o in again || o in weak || o in tmudata || h[o].Open?)
  }

  lemma ProgressFacts(h0: Heap, c0: Marks, h: Heap, c: Marks)
    requires Progress(h0, c0, h, c)
    ensures SameButTables(h0, h) && h.Keys == h0.Keys && c.Keys == c0.Keys && forall o :: Marked(c0, o) ==> Marked(c, o)
  {
  }

  /** What is pending once the open upvalues are done with. */
  lemma PendingLists(h: Heap, again: seq<Ref>, weak: seq<Ref>, tmudata: seq<Ref>, uvhead: seq<Ref>)
    requires OpenOK(h, uvhead)
    ensures forall u :: u in uvhead ==> u in h && h[u].Open?
    ensures forall x :: x in PSet(h, again, weak, tmudata) - Elems(uvhead) ==> x in again || x in weak || x in tmudata
  {
  }

  lemma TmuFacts(h: Heap, rootgc: seq<Ref>, tmudata: seq<Ref>)
    requires RootsOK(h, rootgc, tmudata)
    ensures NoDup(tmudata) && forall u :: u in tmudata ==> u in h && h[u].Udata?
  {
  }

  lemma RootsStay(h0: Heap, h: Heap, rootgc: seq<Ref>, tmudata: seq<Ref>)
    requires RootsOK(h0, rootgc, tmudata) && SameButTables(h0, h)
    ensures RootsOK(h, rootgc, tmudata)
  {
  }
}
