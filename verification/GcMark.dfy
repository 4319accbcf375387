/** The invariant of the mark phase, over the part of the collector's state
    that marking changes. */
module GcMark {
  import opened GcHeap

  datatype MarkState = MarkState(
    h: Heap, c: Marks, wk: set<Ref>, wv: set<Ref>,
    gray: seq<Ref>, again: seq<Ref>, weak: seq<Ref>)

  /** The three lists are disjoint and hold gray objects of the right kinds. */
  ghost predicate ListsOK(m: MarkState)
    requires m.h.Keys == m.c.Keys
  {
    && NoDup(m.gray) && NoDup(m.again) && NoDup(m.weak)
    && (forall r :: r in m.gray ==> r in m.h && m.c[r] == Gray && Grayable(m.h[r]) && r !in m.again && r !in m.weak)
    && (forall r :: r in m.again ==> r in m.h && m.c[r] == Gray && (m.h[r].Table? || m.h[r].Thread?) && r !in m.weak)
    && (forall r :: r in m.weak ==> r in m.h && m.c[r] == Gray && m.h[r].Table?)
  }

  /** Threads and open upvalues are never black, and a marked thread waits for
      the atomic step; functions are gray only in the gray list, userdata and
      closed upvalues are never gray. */
  ghost predicate StacksGray(m: MarkState)
    requires m.h.Keys == m.c.Keys
  {
    && (forall o :: o in m.h && (m.h[o].Thread? || m.h[o].Open?) ==> m.c[o] != Black)
    && (forall o :: o in m.h && m.h[o].Thread? && Marked(m.c, o) ==> o in m.gray || o in m.again)
    && (forall o :: o in m.h && (m.h[o].Closure? || m.h[o].Proto?) && m.c[o] == Gray ==> o in m.gray)
    && (forall o :: o in m.h && (m.h[o].Udata? || m.h[o].Closed?) ==> m.c[o] != Gray)
  }

  /** A gray table was traversed as a weak table, or waits for a traversal. */
  ghost predicate GrayTables(m: MarkState, P: set<Ref>)
    requires m.h.Keys == m.c.Keys
  {
    forall o :: o in m.h && m.h[o].Table? && m.c[o] == Gray ==> o in m.gray || o in P || o in m.weak
  }

  /** Pointers never dangle while nothing is being swept. */
  ghost predicate NoDangling(h: Heap) {
    forall o, r :: o in h && Refers(h, o, r) ==> r in h
  }

  lemma PlainInHeap(h: Heap, o: Ref)
    requires NoDangling(h) && o in h
    ensures forall x :: HoldsPlain(h, h[o], x) ==> x in h
  {
    assert forall x :: HoldsPlain(h, h[o], x) ==> Refers(h, o, x);
  }

  /** No object carries the white of the previous cycle. */
  ghost predicate OneWhite(c: Marks, cw: bool) {
    forall o :: o in c ==> c[o] != White(!cw)
  }

  /** The invariant of the mark phase; P are the objects that may still refer
      to white ones without being in the gray list. */
  ghost predicate MarkInv(m: MarkState, cw: bool, P: set<Ref>) {
    && m.h.Keys == m.c.Keys && NoDangling(m.h) && OneWhite(m.c, cw)
    && Tri(m.h, m.c, m.wk, m.wv, m.gray, P)
    && ListsOK(m) && StacksGray(m) && GrayTables(m, P)
  }

  /** Marking goes on: nothing marked becomes white, objects only lose the keys
      of empty entries. */
  ghost predicate Progress(h0: Heap, c0: Marks, h: Heap, c: Marks) {
    Advances(h0, c0, h, c) && (BlackStrong(h0, c0) ==> BlackStrong(h, c))
  }

  ghost predicate Advances(h0: Heap, c0: Marks, h: Heap, c: Marks) {
    && h.Keys == h0.Keys && c.Keys == c0.Keys
    && (forall o :: Marked(c0, o) ==> Marked(c, o))
    && (forall o :: o in h0 ==> h[o] == h0[o] || (h0[o].Table? && h[o] == h0[o].(node := TrimNode(h0[o].node))))
  }

  lemma ProgressTrans(h0: Heap, c0: Marks, h1: Heap, c1: Marks, h2: Heap, c2: Marks)
    requires Progress(h0, c0, h1, c1) && Progress(h1, c1, h2, c2)
    ensures Progress(h0, c0, h2, c2)
  {
    forall o | o in h0 && h0[o].Table?
      ensures TrimNode(TrimNode(h0[o].node)) == TrimNode(h0[o].node)
    {
    }
  }

  // ---------------------------------------------------------------------
  // Marking objects from outside the gray list

  /** What marking does to the state. */
  ghost predicate MarkedMore(m0: MarkState, m: MarkState) {
    && Marking(m0.h, m0.c, m0.gray, m.c, m.gray)
    && m == m0.(c := m.c, gray := m.gray)
  }

  lemma MarkedMoreInv(m0: MarkState, m: MarkState, cw: bool, P: set<Ref>)
    requires MarkInv(m0, cw, P) && MarkedMore(m0, m)
    ensures MarkInv(m, cw, P) && Progress(m0.h, m0.c, m.h, m.c)
  {
    MarkingTri(m0.h, m0.c, m0.gray, m.c, m.gray, m.wk, m.wv, P);
    MarkingFacts(m0.h, m0.c, m0.gray, m.c, m.gray);
    MarkingStrong(m0.h, m0.c, m0.gray, m.c, m.gray);
    hide Tri, Refers, HoldsPlain, BlackStrong;
    MarkedMoreLists(m0, m, cw, P);
  }

  /** Marking makes no table black. */
  lemma MarkingStrong(h: Heap, c0: Marks, g0: seq<Ref>, c: Marks, g: seq<Ref>)
    requires Marking(h, c0, g0, c, g)
    ensures BlackStrong(h, c0) ==> BlackStrong(h, c)
  {
    hide HoldsPlain, IsWeak;
  }

  /** The effect of marking on colours and on the gray list. */
  ghost predicate Spread(h: Heap, c0: Marks, g0: seq<Ref>, c: Marks, g: seq<Ref>) {
    && h.Keys == c0.Keys == c.Keys && NoDup(g)
    && (forall r :: Marked(c0, r) ==> c[r] == c0[r])
    && (forall r :: r in c && c[r].White? ==> c0[r] == c[r])
    && (forall r :: Marked(c, r) && !Marked(c0, r) ==>
          c[r] == (if h[r].Udata? || h[r].Closed? then Black else Gray) && (Grayable(h[r]) ==> r in g))
    && (forall r :: r in g0 ==> r in g)
    && (forall r :: r in g && r !in g0 ==> Marked(c, r) && !Marked(c0, r) && Grayable(h[r]))
  }

  lemma SpreadLists(m0: MarkState, m: MarkState)
    requires Spread(m0.h, m0.c, m0.gray, m.c, m.gray) && ListsOK(m0) && m == m0.(c := m.c, gray := m.gray)
    ensures ListsOK(m)
  {
  }

  lemma SpreadRest(m0: MarkState, m: MarkState, P: set<Ref>)
    requires Spread(m0.h, m0.c, m0.gray, m.c, m.gray) && m == m0.(c := m.c, gray := m.gray)
    requires StacksGray(m0) && GrayTables(m0, P)
    ensures StacksGray(m) && GrayTables(m, P)
  {
  }

  lemma MarkedMoreLists(m0: MarkState, m: MarkState, cw: bool, P: set<Ref>)
    requires MarkInv(m0, cw, P) && MarkedMore(m0, m)
    ensures m.h.Keys == m.c.Keys && ListsOK(m) && StacksGray(m) && GrayTables(m, P) && OneWhite(m.c, cw)
  {
    hide Tri, NoDangling, Marking;
    assert OnlyMarked(m0.c, m0.gray);
    MarkingColours(m0.h, m0.c, m0.gray, m.c, m.gray);
    hide ListsOK, StacksGray, GrayTables, NoDup, OnlyMarked;
    SpreadLists(m0, m);
    SpreadRest(m0, m, P);
  }

  // ---------------------------------------------------------------------
  // propagatemark

  /** One gray object o was traversed: c1 is the marking it started from, c2
      the marking after it, m the state in the end. */
  ghost predicate Traversed(m0: MarkState, m: MarkState, o: Ref, c1: Marks, c2: Marks) {
    && |m0.gray| > 0 && o == m0.gray[0] && o in m0.h && m0.h.Keys == m0.c.Keys
    && (m.h == m0.h || Trimmed(m0.h, m.h, o))
    && Recoloured(m0.c, c1, o) && Marking(m.h, c1, m0.gray[1..], c2, m.gray) && Recoloured(c2, m.c, o)
    && (forall x :: x != o ==> (x in m.wk <==> x in m0.wk) && (x in m.wv <==> x in m0.wv))
    && Done(m.h, m.c, m.wk, m.wv, o)
    && (m.h[o].Table? && m.c[o] == Black ==> !IsWeak(m.h, m.h[o].meta))
    && (match m0.h[o]
        case Thread(_, _, _) => m.c[o] == Gray && m.again == [o] + m0.again && m.weak == m0.weak
        case _ => if m.c[o] == Black then m.again == m0.again && m.weak == m0.weak
                  else m.c[o] == Gray && m0.h[o].Table? && m.again == m0.again && m.weak == [o] + m0.weak)
  }

  /** Only the colour of o may differ, and o is marked. */
  ghost predicate Recoloured(c: Marks, c': Marks, o: Ref) {
    c'.Keys == c.Keys && Marked(c', o) && forall x :: x in c && x != o ==> c'[x] == c[x]
  }

  lemma TraversedTri(m0: MarkState, m: MarkState, o: Ref, c1: Marks, c2: Marks, cw: bool, P: set<Ref>)
    requires MarkInv(m0, cw, P) && Traversed(m0, m, o, c1, c2)
    ensures m.h.Keys == m.c.Keys && Tri(m.h, m.c, m.wk, m.wv, m.gray, P - {o})
    ensures NoDangling(m.h)
  {
    if m.h != m0.h { TrimmedRefers(m0.h, m.h, o); }
    hide HoldsPlain, Refers, Trimmed;
    assert m0.gray == [o] + m0.gray[1..];
    forall x | x in m.h && Marked(m.c, x) && x != o
        ensures x in m.gray || x in P - {o} || Done(m.h, m.c, m.wk, m.wv, x) {
      TraversedOther(m0, m, o, c1, c2, P, x);
    }
  }

  lemma TraversedOther(m0: MarkState, m: MarkState, o: Ref, c1: Marks, c2: Marks, P: set<Ref>, x: Ref)
    requires Traversed(m0, m, o, c1, c2) && x in m.h && m.h.Keys == m.c.Keys && Marked(m.c, x) && x != o
    requires Tri(m0.h, m0.c, m0.wk, m0.wv, m0.gray, P)
    requires forall p: Obj, x :: HoldsPlain(m.h, p, x) == HoldsPlain(m0.h, p, x)
    ensures x in m.gray || x in P || Done(m.h, m.c, m.wk, m.wv, x)
  {
    hide HoldsPlain;
    assert m0.gray == [o] + m0.gray[1..];
    if m.c[x] == m0.c[x] {
      assert Marked(m0.c, x);
      if Done(m0.h, m0.c, m0.wk, m0.wv, x) {
        MarkingFacts(m.h, c1, m0.gray[1..], c2, m.gray);
        assert forall r :: Marked(m0.c, r) ==> Marked(m.c, r);
        DoneStays(m0, m, x);
      }
    } else {
      assert JustMarked(m.h, c2, m.gray, x);
    }
  }

  lemma DoneStays(m0: MarkState, m: MarkState, x: Ref)
    requires x in m0.h && x in m0.c && x in m.h && x in m.c && m.h[x] == m0.h[x] && m.c[x] == m0.c[x]
    requires (x in m.wk <==> x in m0.wk) && (x in m.wv <==> x in m0.wv)
    requires forall p: Obj, x :: HoldsPlain(m.h, p, x) == HoldsPlain(m0.h, p, x)
    requires forall r :: Marked(m0.c, r) ==> Marked(m.c, r)
    requires Done(m0.h, m0.c, m0.wk, m0.wv, x)
    ensures Done(m.h, m.c, m.wk, m.wv, x)
  {
    hide HoldsPlain;
    forall r | Keeps(m.h, m.c, m.wk, m.wv, x, r) ensures Marked(m.c, r) {
      assert Keeps(m0.h, m0.c, m0.wk, m0.wv, x, r);
    }
  }

  /** The first-order content of Traversed. */
  ghost predicate Stepped(m0: MarkState, m: MarkState, o: Ref) {
    && m0.h.Keys == m0.c.Keys == m.h.Keys == m.c.Keys && o in m.h
    && o in m0.gray && Marked(m.c, o) && Grayable(m0.h[o])
    && SteppedHeap(m0.h, m.h, o) && SteppedMarks(m0.c, m.h, m.c, m.gray, o)
        && SteppedGray(m0.c, m0.gray, m.h, m.c, m.gray, o)
    && (if m0.h[o].Thread? then m.c[o] == Gray && m.again == [o] + m0.again && m.weak == m0.weak
        else if m.c[o] == Black then m.again == m0.again && m.weak == m0.weak
        else m.c[o] == Gray && m0.h[o].Table? && m.again == m0.again && m.weak == [o] + m0.weak)
  }

  ghost predicate SteppedHeap(h0: Heap, h: Heap, o: Ref)
    requires h0.Keys == h.Keys && o in h
  {
    && (forall x :: x in h && x != o ==> h[x] == h0[x])
    && (h[o] == h0[o] || (h0[o].Table? && h[o] == h0[o].(node := TrimNode(h0[o].node))))
  }

  ghost predicate SteppedMarks(c0: Marks, h: Heap, c: Marks, g: seq<Ref>, o: Ref)
    requires h.Keys == c0.Keys == c.Keys && o in h
  {
    && (forall x :: Marked(c0, x) && x != o ==> c[x] == c0[x])
    && (forall x :: x in c && c[x].White? ==> c0[x] == c[x])
    && (forall x :: Marked(c, x) && !Marked(c0, x) ==>
          c[x] == (if h[x].Udata? || h[x].Closed? then Black else Gray) && (Grayable(h[x]) ==> x in g))
  }

  ghost predicate SteppedGray(c0: Marks, g0: seq<Ref>, h: Heap, c: Marks, g: seq<Ref>, o: Ref)
    requires h.Keys == c.Keys
  {
    && NoDup(g) && o !in g && (forall x :: x in g0 && x != o ==> x in g)
    && (forall x :: x in g ==> x in g0 || (Marked(c, x) && !Marked(c0, x) && Grayable(h[x])))
  }

  lemma TraversedStep(m0: MarkState, m: MarkState, o: Ref, c1: Marks, c2: Marks)
    requires Traversed(m0, m, o, c1, c2) && ListsOK(m0)
    ensures Stepped(m0, m, o)
  {
    hide Done, HoldsPlain, Marking;
    assert m0.gray == [o] + m0.gray[1..];
    var g1 := m0.gray[1..];
    assert m0.c[o] == Gray && Grayable(m0.h[o]);
    RestOfGray(m0, c1, g1, o);
    hide ListsOK, NoDup, OnlyMarked;
    StepColours(m0.c, m0.gray, m.h, c1, g1, c2, m.c, m.gray, o);
  }

  lemma StepColours(c0: Marks, g0: seq<Ref>, h: Heap, c1: Marks, g1: seq<Ref>, c2: Marks, c: Marks, g: seq<Ref>, o: Ref)
    requires h.Keys == c0.Keys && o in h && Marked(c0, o)
    requires Recoloured(c0, c1, o) && Marking(h, c1, g1, c2, g) && Recoloured(c2, c, o)
    requires NoDup(g1) && o !in g1 && OnlyMarked(c1, g1) && forall r :: r in g1 <==> r in g0 && r != o
    ensures h.Keys == c.Keys && SteppedMarks(c0, h, c, g, o) && SteppedGray(c0, g0, h, c, g, o)
  {
    hide Marking;
    MarkingColours(h, c1, g1, c2, g);
  }

  lemma RestOfGray(m0: MarkState, c1: Marks, g1: seq<Ref>, o: Ref)
    requires m0.h.Keys == m0.c.Keys && ListsOK(m0) && m0.gray == [o] + g1 && Recoloured(m0.c, c1, o)
    ensures NoDup(g1) && o !in g1 && OnlyMarked(c1, g1) && forall r :: r in g1 <==> r in m0.gray && r != o
  {
    assert forall i :: 0 <= i < |g1| ==> g1[i] == m0.gray[i + 1];
    assert o == m0.gray[0];
  }

  lemma SteppedLists(m0: MarkState, m: MarkState, o: Ref)
    requires Stepped(m0, m, o) && ListsOK(m0)
    ensures ListsOK(m)
  {
    SteppedDup(m0, m, o);
    hide Stepped, NoDup;
    forall x
      ensures x in m.gray ==> x in m.h && m.c[x] == Gray && Grayable(m.h[x]) && x !in m.again && x !in m.weak
      ensures x in m.again ==> x in m.h && m.c[x] == Gray && (m.h[x].Table? || m.h[x].Thread?) && x !in m.weak
      ensures x in m.weak ==> x in m.h && m.c[x] == Gray && m.h[x].Table?
    {
      SteppedAt(m0, m, o, x);
    }
  }

  lemma SteppedDup(m0: MarkState, m: MarkState, o: Ref)
    requires Stepped(m0, m, o) && ListsOK(m0)
    ensures NoDup(m.gray) && NoDup(m.again) && NoDup(m.weak) && m.h.Keys == m.c.Keys
  {
    hide SteppedHeap, SteppedMarks;
    assert o !in m0.again && o !in m0.weak;
  }

  /** What a step does to one object. */
  lemma SteppedAt(m0: MarkState, m: MarkState, o: Ref, x: Ref)
    requires Stepped(m0, m, o)
    ensures m0.h.Keys == m0.c.Keys == m.h.Keys == m.c.Keys && o in m0.gray && Marked(m.c, o) && Grayable(m0.h[o])
    ensures x in m.h ==> m.h[x] == m0.h[x] || (x == o && m0.h[x].Table? && m.h[x].Table?)
    ensures x in m.gray ==> x != o && (x in m0.gray || (Marked(m.c, x) && !Marked(m0.c, x) && Grayable(m.h[x])))
    ensures x in m0.gray && x != o ==> x in m.gray
    ensures Marked(m0.c, x) ==> Marked(m.c, x) && (x != o ==> m.c[x] == m0.c[x])
    ensures Marked(m.c, x) && !Marked(m0.c, x) ==>
              m.c[x] == (if m.h[x].Udata? || m.h[x].Closed? then Black else Gray) && (Grayable(m.h[x]) ==> x in m.gray)
    ensures x in m.again <==> x in m0.again || (x == o && m0.h[o].Thread?)
    ensures x in m.weak <==> x in m0.weak || (x == o && m0.h[o].Table? && m.c[o] == Gray)
    ensures m.c[o] == Black || m0.h[o].Thread? || m0.h[o].Table?
    ensures m.c[o] == Gray || (m.c[o] == Black && !m0.h[o].Thread?)
  {
    hide TrimNode, NoDup;
  }

  lemma SteppedStacks(m0: MarkState, m: MarkState, o: Ref)
    requires Stepped(m0, m, o) && StacksGray(m0)
    ensures StacksGray(m)
  {
    hide Stepped;
    forall x
      ensures m.h.Keys == m.c.Keys
      ensures x in m.h && (m.h[x].Thread? || m.h[x].Open?) ==> m.c[x] != Black
      ensures x in m.h && m.h[x].Thread? && Marked(m.c, x) ==> x in m.gray || x in m.again
      ensures x in m.h && (m.h[x].Closure? || m.h[x].Proto?) && m.c[x] == Gray ==> x in m.gray
      ensures x in m.h && (m.h[x].Udata? || m.h[x].Closed?) ==> m.c[x] != Gray
    {
      SteppedAt(m0, m, o, x);
    }
  }

  lemma SteppedTables(m0: MarkState, m: MarkState, o: Ref, P: set<Ref>)
    requires Stepped(m0, m, o) && GrayTables(m0, P)
    ensures GrayTables(m, P - {o})
  {
    hide TrimNode, NoDup;
  }

  lemma SteppedRest(m0: MarkState, m: MarkState, o: Ref, cw: bool)
    requires Stepped(m0, m, o) && OneWhite(m0.c, cw)
    ensures OneWhite(m.c, cw) && Advances(m0.h, m0.c, m.h, m.c)
  {
  }

  lemma TraversedStrong(m0: MarkState, m: MarkState, o: Ref, c1: Marks, c2: Marks)
    requires Traversed(m0, m, o, c1, c2) && BlackStrong(m0.h, m0.c)
    ensures BlackStrong(m.h, m.c)
  {
    hide Done, Marking, Trimmed, IsWeak;
    MarkingTables(m.h, c1, m0.gray[1..], c2, m.gray);
    if m.h != m0.h { TrimmedModes(m0.h, m.h, o); }
    forall x | x in m.h && m.h[x].Table? && x in m.c && m.c[x] == Black ensures !IsWeak(m.h, m.h[x].meta) {
      if x != o { assert c2[x] == Black && c1[x] == m0.c[x]; }
    }
  }

  lemma MarkingTables(h: Heap, c0: Marks, g0: seq<Ref>, c: Marks, g: seq<Ref>)
    requires Marking(h, c0, g0, c, g)
    ensures c.Keys == c0.Keys == h.Keys && forall x :: x in h && h[x].Table? && c[x] == Black ==> c0[x] == Black
  {
  }

  lemma TrimmedModes(h0: Heap, h: Heap, o: Ref)
    requires Trimmed(h0, h, o)
    ensures h.Keys == h0.Keys && forall x :: x in h && h[x].Table? ==> h0[x].Table? && h0[x].meta == h[x].meta
    ensures forall v :: IsWeak(h, v) == IsWeak(h0, v)
    ensures forall v :: WeakKeys(h, v) == WeakKeys(h0, v) && WeakVals(h, v) == WeakVals(h0, v)
  {
  }

  lemma TraversedInv(m0: MarkState, m: MarkState, o: Ref, c1: Marks, c2: Marks, cw: bool, P: set<Ref>)
    requires MarkInv(m0, cw, P) && Traversed(m0, m, o, c1, c2)
    ensures MarkInv(m, cw, P - {o}) && Progress(m0.h, m0.c, m.h, m.c)
  {
    TraversedTri(m0, m, o, c1, c2, cw, P);
    TraversedStep(m0, m, o, c1, c2);
    if BlackStrong(m0.h, m0.c) { TraversedStrong(m0, m, o, c1, c2); }
    hide Traversed, Tri, NoDangling, ListsOK, StacksGray, GrayTables, OneWhite, Advances, BlackStrong;
    SteppedLists(m0, m, o);
    SteppedStacks(m0, m, o);
    SteppedTables(m0, m, o, P);
    SteppedRest(m0, m, o, cw);
  }

  lemma WhitesRecolour(c0: Marks, c1: Marks, c2: Marks, c: Marks, o: Ref)
    requires o in c0 && Recoloured(c0, c1, o) && Marked(c0, o) && Recoloured(c2, c, o) && Marked(c2, o)
    ensures Whites(c1) == Whites(c0) && Whites(c) == Whites(c2)
  {
  }

  lemma TableTraversed(m0: MarkState, m: MarkState, o: Ref, c1: Marks, c2: Marks, isWeak: bool)
    requires |m0.gray| > 0 && o == m0.gray[0] && o in m0.h && m0.h[o].Table? && m0.h.Keys == m0.c.Keys
    requires Trimmed(m0.h, m.h, o) && Recoloured(m0.c, c1, o) && Marking(m.h, c1, m0.gray[1..], c2, m.gray)
               && Recoloured(c2, m.c, o)
    requires m.again == m0.again && o in m.c && o in m.h && m.h[o].Table?
    requires if isWeak then m.c[o] == Gray && m.weak == [o] + m0.weak && m.wk - {o} == m0.wk - {o}
               && m.wv - {o} == m0.wv - {o}
                            && forall x :: TableKeeps(m.h[o], o in m.wk, o in m.wv, x) ==> Marked(m.c, x)
             else m.c[o] == Black && m.weak == m0.weak && m.wk == m0.wk && m.wv == m0.wv
                  && !IsWeak(m.h, m.h[o].meta)
                  && forall x :: Holds(m.h, o, x) ==> Marked(m.c, x)
    ensures Traversed(m0, m, o, c1, c2)
  {
    hide Marking, TableKeeps;
    forall x | x != o ensures (x in m.wk <==> x in m0.wk) && (x in m.wv <==> x in m0.wv) {
      assert x in m.wk <==> x in m.wk - {o};
      assert x in m0.wk <==> x in m0.wk - {o};
      assert x in m.wv <==> x in m.wv - {o};
      assert x in m0.wv <==> x in m0.wv - {o};
    }
  }

  lemma PlainTraversed(m0: MarkState, m: MarkState, o: Ref, c1: Marks, c2: Marks)
    requires |m0.gray| > 0 && o == m0.gray[0] && o in m0.h && !m0.h[o].Table? && m0.h.Keys == m0.c.Keys
    requires m.h == m0.h && Recoloured(m0.c, c1, o) && Marking(m.h, c1, m0.gray[1..], c2, m.gray) && m.c == c2
               && Marked(m.c, o)
    requires m.weak == m0.weak && m.wk == m0.wk && m.wv == m0.wv
    requires if m0.h[o].Thread? then m.c[o] == Gray && m.again == [o] + m0.again
               else m.c[o] == Black && m.again == m0.again
    requires forall x :: HoldsPlain(m.h, m.h[o], x) ==> Marked(m.c, x)
    ensures Traversed(m0, m, o, c1, c2)
  {
    hide Marking, HoldsPlain;
  }

  lemma TraversedFalls(m0: MarkState, m: MarkState, o: Ref, c1: Marks, c2: Marks)
    requires Traversed(m0, m, o, c1, c2) && Whites(c1) == Whites(m0.c) && Whites(m.c) == Whites(c2)
    ensures Whites(m.c) < Whites(m0.c) || (Whites(m.c) == Whites(m0.c) && |m.gray| < |m0.gray|)
  {
    MarkingFacts(m.h, c1, m0.gray[1..], c2, m.gray);
  }
}
