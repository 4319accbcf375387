/** The incremental collector. */
module Gc {
  import opened GcHeap
  import opened GcMark
  import opened GcLinks
  import opened GcClear
  import opened GcInv
  import opened GcSweep
  import opened GcClose
  import opened GcCycle
  import opened GcWrite
  import opened GcAlloc
  import opened GcBound
  import opened GcSeen
  import opened GcExact
  import opened GcFinal

  const GCSWEEPMAX := 40

  class Collector {
    var m: MarkState
    var g: Globals
    /** A set that the collection under way has to stay within, if it can. */
    ghost var X: set<Ref>

    // -------------------------------------------------------------------
    // Marking

    /** What is marked, and what marking can reach from it, lies within X. */
    ghost predicate Within()
      reads this
    {
      Bound(m.h, m.c, X)
    }

    ghost predicate Sound()
      reads this
    {
      m.h.Keys == m.c.Keys && NoDangling(m.h)
    }

    /** markvalue */
    method MarkValue(v: Val)
      requires Sound() && (v.Ptr? ==> v.r in m.h)
      modifies this`m
      ensures m == old(m).(c := m.c, gray := m.gray)
      ensures Sound() && Marking(m.h, old(m.c), old(m.gray), m.c, m.gray)
      ensures v.Ptr? ==> Marked(m.c, v.r)
      ensures old(Within()) && (v.Ptr? ==> v.r in X) ==> Within()
      decreases Whites(m.c), 1
    {
      hide Bound;
      MarkingRefl(m.h, m.c, m.gray);
      if v.Ptr? && m.c[v.r].White? { ReallyMark(v.r); }
    }

    /** reallymarkobject */
    method ReallyMark(o: Ref)
      requires Sound() && o in m.h && m.c[o].White?
      modifies this`m
      ensures m == old(m).(c := m.c, gray := m.gray)
      ensures Sound() && Marking(m.h, old(m.c), old(m.gray), m.c, m.gray)
      ensures Marked(m.c, o)
      ensures old(Within()) && o in X ==> Within()
      decreases Whites(m.c), 0
    {
      hide Marking, JustMarked, ClosedUnder, MarkedIn, Refers, NoDangling;
      PlainInHeap(m.h, o);
      ghost var m0 := m;
      ghost var within := Within() && o in X;
      if within {
        MarkOneIn(m.c, X, o, Gray);
        if !m.h[o].Table? { PlainIn(m.h, X, o); }
      }
      m := m.(c := m.c[o := Gray]);
      assert o in Whites(m0.c) && o !in Whites(m.c);
      if Grayable(m.h[o]) {
        MarkedGrayable(m.h, m0.c, m0.gray, o);
        m := m.(gray := [o] + m.gray);
        return;
      }
      ghost var c1 := m.c;
      MarkingRefl(m.h, m.c, m.gray);
      match m.h[o] {
        case Str(_) =>
        case Udata(meta, env) =>
          if within { MarkOneIn(m.c, X, o, Black); }
          m := m.(c := m.c[o := Black]);
          c1 := m.c;
          MarkBoth(meta, env);
        case Open(_, _) =>
          MarkValue(UpValue(m.h, m.h[o]));
        case Closed(v) =>
          MarkValue(v);
      }
      ghost var c2 := m.c;
      MarkingFacts(m.h, c1, m0.gray, m.c, m.gray);
      if m.h[o].Closed? {
        if within { MarkOneIn(m.c, X, o, Black); }
        m := m.(c := m.c[o := Black]);
      }
      MarkedPlain(m.h, m0.c, m0.gray, o, c1, c2, m.gray, m.c);
    }

    method MarkBoth(v: Val, w: Val)
      requires Sound() && (v.Ptr? ==> v.r in m.h) && (w.Ptr? ==> w.r in m.h)
      modifies this`m
      ensures m == old(m).(c := m.c, gray := m.gray)
      ensures Sound() && Marking(m.h, old(m.c), old(m.gray), m.c, m.gray)
      ensures (v.Ptr? ==> Marked(m.c, v.r)) && (w.Ptr? ==> Marked(m.c, w.r))
      ensures old(Within()) && (v.Ptr? ==> v.r in X) && (w.Ptr? ==> w.r in X) ==> Within()
      decreases Whites(m.c), 2
    {
      hide Marking, Marked, NoDangling, Bound;
      MarkValue(v);
      ghost var m1 := m;
      MarkingFacts(m.h, old(m).c, old(m).gray, m1.c, m1.gray);
      MarkValue(w);
      MarkingFacts(m.h, m1.c, m1.gray, m.c, m.gray);
      MarkingTrans(m.h, old(m).c, old(m).gray, m1.c, m1.gray, m.c, m.gray);
    }

    /** The loops that mark a vector of values. */
    method MarkValues(vs: seq<Val>)
      requires Sound() && forall x :: Ptr(x) in vs ==> x in m.h
      modifies this`m
      ensures m == old(m).(c := m.c, gray := m.gray)
      ensures Sound() && Marking(m.h, old(m.c), old(m.gray), m.c, m.gray)
      ensures forall x :: Ptr(x) in vs ==> Marked(m.c, x)
      ensures old(Within()) && (forall x :: Ptr(x) in vs ==> x in X) ==> Within()
    {
      hide Marking, Marked, Refers, Bound;
      MarkingRefl(m.h, m.c, m.gray);
      var i := |vs|;
      while i > 0
        invariant m == old(m).(c := m.c, gray := m.gray)
        invariant 0 <= i <= |vs| && Sound() && Marking(m.h, old(m.c), old(m.gray), m.c, m.gray)
        invariant forall x :: Ptr(x) in vs[i..] ==> Marked(m.c, x)
        invariant old(Within()) && (forall x :: Ptr(x) in vs ==> x in X) ==> Within()
      {
        i := i - 1;
        ghost var c1, g1 := m.c, m.gray;
        MarkValue(vs[i]);
        MarkingFacts(m.h, c1, g1, m.c, m.gray);
        MarkingTrans(m.h, old(m.c), old(m.gray), c1, g1, m.c, m.gray);
        assert vs[i..] == [vs[i]] + vs[i + 1..];
      }
    }

    /** The loop of traversetable over the hash part. */
    method TraverseNodes(o: Ref, wk: bool, wv: bool)
      requires Sound() && o in m.h && m.h[o].Table?
      modifies this`m
      ensures m == old(m).(h := m.h, c := m.c, gray := m.gray)
      ensures Sound() && m.h == old(m.h)[o := old(m.h)[o].(node := TrimNode(old(m.h)[o].node))]
      ensures Marking(m.h, old(m.c), old(m.gray), m.c, m.gray)
      ensures forall x :: NodeKeeps(m.h[o].node, wk, wv, x) ==> Marked(m.c, x)
      ensures old(Within()) && old(forall x :: NodeKeeps(m.h[o].node, wk, wv, x) ==> x in X) ==> Within()
    {
      hide Marking, Marked, Refers, ClosedUnder, MarkedIn, NodeKeeps;
      var node := m.h[o].node;
      MarkingRefl(m.h, m.c, m.gray);
      EntriesRefer(m.h, o);
      KeepsFirst(node, |node|, wk, wv);
      ghost var h0 := m.h;
      var i := |node|;
      while i > 0
        invariant m == old(m).(h := m.h, c := m.c, gray := m.gray)
        invariant 0 <= i <= |node| && Sound() && m.h == h0
        invariant Marking(m.h, old(m.c), old(m.gray), m.c, m.gray)
        invariant forall x :: NodeKeeps(node[i..], wk, wv, x) ==> Marked(m.c, x)
        invariant old(Within()) && (forall x :: NodeKeeps(node, wk, wv, x) ==> x in X) ==> Within()
      {
        i := i - 1;
        KeepsFirst(node, i, wk, wv);
        if node[i].val != Nil {
          ghost var c1, g1 := m.c, m.gray;
          assert node[i] in node;
          KeepsAt(node, i, wk, wv);
          MarkValues((if wk || node[i].key.DeadKey? then [] else [node[i].key.v]) + (if wv then [] else [node[i].val]));
          MarkingFacts(m.h, c1, g1, m.c, m.gray);
          MarkingTrans(m.h, old(m.c), old(m.gray), c1, g1, m.c, m.gray);
        }
      }
      assert node[0..] == node;
      m := m.(h := m.h[o := m.h[o].(node := TrimNode(node))]);
      if ClosedUnder(h0, X) { TrimmedClosed(h0, m.h, o, X); }
      TrimmedRefers(h0, m.h, o);
      TrimmedMarking(h0, m.h, o, old(m.c), old(m.gray), m.c, m.gray);
      forall x ensures NodeKeeps(m.h[o].node, wk, wv, x) == NodeKeeps(node, wk, wv, x) { TrimNodeRefers(node, x); }
    }
  
    /** The part of traversetable that looks at the mode of the table. */
    method TableMode(o: Ref) returns (wk: bool, wv: bool)
      requires Sound() && o in m.h && m.h[o].Table?
      modifies this`m
      ensures m == old(m).(wk := m.wk, wv := m.wv, weak := m.weak)
      ensures !wk && !wv ==> m.weak == old(m.weak) && m.wk == old(m.wk) && m.wv == old(m.wv)
      ensures wk || wv ==> m.weak == [o] + old(m.weak) && m.wk - {o} == old(m.wk) - {o} && m.wv - {o} == old(m.wv) - {o}
      ensures wk || wv ==> (wk <==> o in m.wk) && (wv <==> o in m.wv)
      ensures wk == WeakKeys(m.h, m.h[o].meta) && wv == WeakVals(m.h, m.h[o].meta)
    {
      var t := m.h[o];
      wk, wv := false, false;
      if t.meta.Ptr? && t.meta.r in m.h && m.h[t.meta.r].Table? {
        wk, wv := m.h[t.meta.r].tm.weakKey, m.h[t.meta.r].tm.weakVal;
        if wk || wv {
          m := m.(wk := if wk then m.wk + {o} else m.wk - {o});
          m := m.(wv := if wv then m.wv + {o} else m.wv - {o});
          m := m.(weak := [o] + m.weak);
        }
      }
    }

    /** traversetable */
    method TraverseTable(o: Ref) returns (isWeak: bool)
      requires Sound() && o in m.h && m.h[o].Table?
      modifies this`m
      ensures m == old(m).(h := m.h, c := m.c, wk := m.wk, wv := m.wv, gray := m.gray, weak := m.weak)
      ensures Sound() && Trimmed(old(m.h), m.h, o) && Marking(m.h, old(m.c), old(m.gray), m.c, m.gray)
      ensures o in m.h && m.h[o].Table?
      ensures !isWeak ==> m.weak == old(m.weak) && m.wk == old(m.wk) && m.wv == old(m.wv)
      ensures !isWeak ==> forall x :: Holds(m.h, o, x) ==> Marked(m.c, x)
      ensures isWeak ==> m.weak == [o] + old(m.weak) && m.wk - {o} == old(m.wk) - {o} && m.wv - {o} == old(m.wv) - {o}
      ensures isWeak ==> forall x :: TableKeeps(m.h[o], o in m.wk, o in m.wv, x) ==> Marked(m.c, x)
      ensures old(Within()) && o in X ==> Within()
      ensures if isWeak then ModeNoted(m, o) else !IsWeak(m.h, m.h[o].meta)
    {
      hide Marking, Marked, ClosedUnder, MarkedIn;
      var meta := m.h[o].meta;
      TableRefers(m.h, o);
      if Within() && o in X { TableIn(m.h, X, o); }
      MarkValue(meta);
      ghost var c1, g1 := m.c, m.gray;
      var wk, wv := TableMode(o);
      isWeak := wk || wv;
      if wk && wv {
        assert forall x :: TableKeeps(m.h[o], true, true, x) ==> meta == Ptr(x);
        return;
      }
      MarkContents(o, wk, wv);
      TrimmedMarking(old(m.h), m.h, o, old(m.c), old(m.gray), c1, g1);
      MarkingFacts(m.h, c1, g1, m.c, m.gray);
      MarkingTrans(m.h, old(m.c), old(m.gray), c1, g1, m.c, m.gray);
      if !isWeak { StrongHolds(old(m.h), m.h, o); }
    }

    /** The part of traversetable that marks the array and the hash part. */
    method MarkContents(o: Ref, wk: bool, wv: bool)
      requires Sound() && o in m.h && m.h[o].Table?
      modifies this`m
      ensures m == old(m).(h := m.h, c := m.c, gray := m.gray)
      ensures Sound() && m.h == old(m.h)[o := old(m.h)[o].(node := TrimNode(old(m.h)[o].node))]
      ensures Marking(m.h, old(m.c), old(m.gray), m.c, m.gray)
      ensures forall x :: TableKeeps(m.h[o], wk, wv, x) ==> m.h[o].meta == Ptr(x) || Marked(m.c, x)
      ensures old(Within()) && old(forall x :: TableKeeps(m.h[o], wk, wv, x) ==> x in X) ==> Within()
    {
      hide Marking, Marked, ClosedUnder, MarkedIn;
      TableRefers(m.h, o);
      hide Refers;
      if !wv { MarkValues(m.h[o].slots); } else { MarkingRefl(m.h, m.c, m.gray); }
      ghost var h0, c2, g2 := m.h, m.c, m.gray;
      TraverseNodes(o, wk, wv);
      TrimmedMarking(h0, m.h, o, old(m.c), old(m.gray), c2, g2);
      MarkingFacts(m.h, c2, g2, m.c, m.gray);
      MarkingTrans(m.h, old(m.c), old(m.gray), c2, g2, m.c, m.gray);
    }

    lemma StrongHolds(h0: Heap, h: Heap, o: Ref)
      requires o in h0 && h0[o].Table? && h == h0[o := h0[o].(node := TrimNode(h0[o].node))]
      ensures forall x :: Holds(h, o, x) ==> TableKeeps(h[o], false, false, x)
    {
      forall x ensures Holds(h, o, x) ==> TableKeeps(h[o], false, false, x) { TrimNodeRefers(h0[o].node, x); }
    }

    /** propagatemark for a table. */
    method PropagateTable(o: Ref, ghost m0: MarkState)
      requires m.h == m0.h && m.gray == m0.gray && m.c == m0.c && m.again == m0.again && m.weak == m0.weak
      requires m.wk == m0.wk && m.wv == m0.wv
      requires Sound() && |m.gray| > 0 && o == m.gray[0] && o in m.h && m.h[o].Table? && Marked(m.c, o)
      modifies this`m
      ensures m == old(m).(h := m.h, c := m.c, wk := m.wk, wv := m.wv, gray := m.gray, weak := m.weak)
      ensures exists c1, c2 :: Traversed(m0, m, o, c1, c2) && Whites(c1) == Whites(m0.c) && Whites(m.c) == Whites(c2)
      ensures old(Within()) ==> Within()
      ensures m.weak == old(m.weak) || ModeNoted(m, o)
    {
      hide Marking, Traversed, NoDangling, ClosedUnder;
      m := m.(gray := m.gray[1..]);
      m := m.(c := m.c[o := Black]);
      ghost var c1 := m.c;
      var isWeak := TraverseTable(o);
      ghost var c2 := m.c;
      MarkingFacts(m.h, c1, m0.gray[1..], m.c, m.gray);
      if isWeak { m := m.(c := m.c[o := Gray]); }
      WhitesRecolour(m0.c, c1, c2, m.c, o);
      TableTraversed(m0, m, o, c1, c2, isWeak);
    }

    /** propagatemark for the other kinds; a thread stays gray. */
    method PropagateOther(o: Ref, vals: seq<Val>, ghost m0: MarkState)
      requires m.h == m0.h && m.gray == m0.gray && m.c == m0.c && m.again == m0.again && m.weak == m0.weak
      requires m.wk == m0.wk && m.wv == m0.wv
      requires Sound() && |m.gray| > 0 && o == m.gray[0] && o in m.h && !m.h[o].Table? && Marked(m.c, o)
      requires forall x :: Ptr(x) in vals <==> HoldsPlain(m.h, m.h[o], x)
      modifies this`m
      ensures m == old(m).(c := m.c, gray := m.gray, again := m.again)
      ensures exists c1, c2 :: Traversed(m0, m, o, c1, c2) && Whites(c1) == Whites(m0.c) && Whites(m.c) == Whites(c2)
      ensures old(Within()) ==> Within()
      ensures m.weak == old(m.weak)
    {
      hide Marking, Traversed, HoldsPlain, ClosedUnder;
      if Within() { PlainIn(m.h, X, o); }
      assert forall x :: HoldsPlain(m.h, m.h[o], x) ==> Refers(m.h, o, x);
      m := m.(gray := m.gray[1..]);
      m := m.(c := m.c[o := Black]);
      if m.h[o].Thread? {
        m := m.(again := [o] + m.again);
        m := m.(c := m.c[o := Gray]);
      }
      ghost var c1 := m.c;
      MarkValues(vals);
      MarkingFacts(m.h, c1, m0.gray[1..], m.c, m.gray);
      WhitesRecolour(m0.c, c1, m.c, m.c, o);
      PlainTraversed(m0, m, o, c1, m.c);
    }

    /** propagatemark */
    method PropagateMark(ghost cw: bool, ghost P: set<Ref>)
      requires MarkInv(m, cw, P) && |m.gray| > 0
      modifies this`m
      ensures MarkInv(m, cw, P - {old(m.gray)[0]}) && Progress(old(m.h), old(m.c), m.h, m.c)
      ensures Grown(old(m.again), m.again) && Grown(old(m.weak), m.weak)
      ensures Whites(m.c) < Whites(old(m.c)) || (Whites(m.c) == Whites(old(m.c)) && |m.gray| < |old(m.gray)|)
      ensures old(Within()) ==> Within()
      ensures old(ModesOK(m)) ==> ModesOK(m)
    {
      hide Bound, ModesOK, ModeNoted;
      var o := m.gray[0];
      ghost var m0 := m;
      assert o in m.gray;
      assert o in m.h && Grayable(m.h[o]) && m.c[o] == Gray && NoDangling(m.h);
      hide MarkInv, Traversed, Marking, NoDangling;
      match m.h[o] {
        case Table(_, _, _, _) => PropagateTable(o, m0);
        case Closure(refs) => PropagateOther(o, refs, m0);
        case Proto(refs) => PropagateOther(o, refs, m0);
        case Thread(globals, stack, _) => PropagateOther(o, [globals] + stack, m0);
      }
      ghost var c1, c2 :| Traversed(m0, m, o, c1, c2) && Whites(c1) == Whites(m0.c) && Whites(m.c) == Whites(c2);
      TraversedInv(m0, m, o, c1, c2, cw, P);
      if ModesOK(m0) { TraversedModes(m0, m, o, c1, c2, cw, P); }
      TraversedFalls(m0, m, o, c1, c2);
    }
  
    /** propagateall */
    method PropagateAll(ghost cw: bool, ghost P: set<Ref>)
      requires MarkInv(m, cw, P)
      modifies this`m
      ensures MarkInv(m, cw, P) && m.gray == [] && Progress(old(m.h), old(m.c), m.h, m.c)
      ensures Grown(old(m.again), m.again) && Grown(old(m.weak), m.weak)
      ensures old(Within()) ==> Within()
      ensures old(ModesOK(m)) ==> ModesOK(m)
    {
      hide MarkInv, Whites, Bound, ModesOK;
      ProgressRefl(m.h, m.c);
      hide Progress;
      while m.gray != []
        invariant MarkInv(m, cw, P) && Progress(old(m.h), old(m.c), m.h, m.c)
        invariant Grown(old(m.again), m.again) && Grown(old(m.weak), m.weak)
        invariant old(Within()) ==> Within()
        invariant old(ModesOK(m)) ==> ModesOK(m)
        decreases Whites(m.c), |m.gray|
      {
        ghost var h1, c1, o := m.h, m.c, m.gray[0];
        PropagateMark(cw, P);
        ProgressTrans(old(m.h), old(m.c), h1, c1, m.h, m.c);
        MarkInvMono(m, cw, P - {o}, P);
      }
    }

    /** markvalue on a root, or on behalf of a barrier. */
    method MarkMore(v: Val, ghost cw: bool, ghost P: set<Ref>)
      requires MarkInv(m, cw, P) && (v.Ptr? ==> v.r in m.h)
      modifies this`m
      ensures m == old(m).(c := m.c, gray := m.gray)
      ensures MarkInv(m, cw, P) && Progress(m.h, old(m.c), m.h, m.c)
      ensures v.Ptr? ==> Marked(m.c, v.r)
      ensures old(Within()) && (v.Ptr? ==> v.r in X) ==> Within()
    {
      ghost var m0 := m;
      MarkValue(v);
      hide MarkInv, Marking, Marked, Progress, Bound;
      MarkedMoreInv(m0, m, cw, P);
    }

    /** markmt */
    method MarkMt(ghost cw: bool, ghost P: set<Ref>)
      requires MarkInv(m, cw, P) && forall v :: v in g.R.mt && v.Ptr? ==> v.r in m.h
      modifies this`m
      ensures m == old(m).(c := m.c, gray := m.gray)
      ensures MarkInv(m, cw, P) && Progress(m.h, old(m.c), m.h, m.c)
      ensures forall v :: v in g.R.mt && v.Ptr? ==> Marked(m.c, v.r)
      ensures old(Within()) && RootsWithin(g.R, X) ==> Within()
    {
      hide MarkInv, Bound;
      var i := 0;
      while i < |g.R.mt|
        invariant m == old(m).(c := m.c, gray := m.gray)
        invariant i <= |g.R.mt| && MarkInv(m, cw, P) && Progress(m.h, old(m.c), m.h, m.c)
        invariant forall v :: v in g.R.mt[..i] && v.Ptr? ==> Marked(m.c, v.r)
        invariant old(Within()) && RootsWithin(g.R, X) ==> Within()
      {
        MarkMore(g.R.mt[i], cw, P);
        assert g.R.mt[..i + 1] == g.R.mt[..i] + [g.R.mt[i]];
        i := i + 1;
      }
      assert g.R.mt[..i] == g.R.mt;
    }

    /** remarkupvals */
    method RemarkUpvals(ghost cw: bool, ghost P0: set<Ref>)
      requires MarkInv(m, cw, P0) && forall u :: u in g.uvhead ==> u in m.h && m.h[u].Open?
      modifies this`m
      ensures m == old(m).(c := m.c, gray := m.gray)
      ensures MarkInv(m, cw, P0 - Elems(g.uvhead)) && Progress(m.h, old(m.c), m.h, m.c)
      ensures old(Within()) ==> Within()
    {
      hide MarkInv, ClosedUnder, HoldsPlain, UpValue;
      ghost var P := P0;
      var i := 0;
      while i < |g.uvhead|
        invariant m == old(m).(c := m.c, gray := m.gray)
        invariant i <= |g.uvhead| && MarkInv(m, cw, P) && Progress(m.h, old(m.c), m.h, m.c)
        invariant P == P0 - Elems(g.uvhead[..i])
        invariant old(Within()) ==> Within()
      {
        var u := g.uvhead[i];
        UpvalueFacts(m, cw, P, u);
        if m.c[u] == Gray {
          if Within() { PlainIn(m.h, X, u); }
          MarkMore(UpValue(m.h, m.h[u]), cw, P);
        }
        UpvalueFacts(m, cw, P, u);
        DropPending(m, cw, P, u);
        P := P - {u};
        assert g.uvhead[..i + 1] == g.uvhead[..i] + [u];
        i := i + 1;
      }
      assert g.uvhead[..i] == g.uvhead;
    }

    /** The body of marktmu: makewhite and reallymarkobject on a userdata. */
    method RemarkUdata(u: Ref, ghost cw: bool, ghost P: set<Ref>)
      requires MarkInv(m, cw, P) && u in m.h && m.h[u].Udata? && u in P
      modifies this`m
      ensures m == old(m).(c := m.c, gray := m.gray)
      ensures MarkInv(m, cw, P - {u}) && Progress(m.h, old(m.c), m.h, m.c) && Marked(m.c, u)
      ensures old(Within()) && u in X ==> Within()
    {
      hide MarkInv, ClosedUnder, MarkedIn;
      if Within() && u in X {
        PlainIn(m.h, X, u);
        MarkOneIn(m.c, X, u, Black);
      }
      MarkInvFacts(m, cw, P);
      assert forall x :: HoldsPlain(m.h, m.h[u], x) ==> Refers(m.h, u, x);
      BlackenUdata(m, cw, P, u);
      m := m.(c := m.c[u := Black]);
      MarkMore(m.h[u].meta, cw, P);
      MarkMore(m.h[u].env, cw, P);
      DropPending(m, cw, P, u);
    }

    /** marktmu */
    method MarkTmu(ghost cw: bool)
      requires MarkInv(m, cw, Elems(g.tmudata)) && forall u :: u in g.tmudata ==> u in m.h && m.h[u].Udata?
      requires NoDup(g.tmudata)
      modifies this`m
      ensures m == old(m).(c := m.c, gray := m.gray)
      ensures MarkInv(m, cw, {}) && Progress(m.h, old(m.c), m.h, m.c)
      ensures forall u :: u in g.tmudata ==> Marked(m.c, u)
      ensures old(Within()) && (forall u :: u in g.tmudata ==> u in X) ==> Within()
    {
      hide MarkInv, Bound;
      var i := 0;
      while i < |g.tmudata|
        invariant m == old(m).(c := m.c, gray := m.gray)
        invariant i <= |g.tmudata| && MarkInv(m, cw, Elems(g.tmudata[i..])) && Progress(m.h, old(m.c), m.h, m.c)
        invariant forall u :: u in g.tmudata[..i] ==> Marked(m.c, u)
        invariant old(Within()) && (forall u :: u in g.tmudata ==> u in X) ==> Within()
      {
        var u := g.tmudata[i];
        RemarkUdata(u, cw, Elems(g.tmudata[i..]));
        assert g.tmudata[i..] == [u] + g.tmudata[i + 1..];
        assert u !in g.tmudata[i + 1..];
        assert Elems(g.tmudata[i..]) - {u} == Elems(g.tmudata[i + 1..]);
        assert g.tmudata[..i + 1] == g.tmudata[..i] + [u];
        i := i + 1;
      }
      assert g.tmudata[..i] == g.tmudata && Elems(g.tmudata[i..]) == {};
    }

    /** fasttm(metatable, TM_GC) */
    predicate HasGC(u: Ref)
      requires u in m.h && m.h[u].Udata?
      reads this`m
    {
      HasFinalizer(m.h, m.h[u].meta)
    }

    /** luaC_separateudata(L, 0): unmarked userdata that were not finalized and
        have a finalizer move to tmudata. */
    method SeparateUdata()
      requires m.h.Keys == m.c.Keys && RootsOK(m.h, g.rootgc, g.tmudata)
      modifies this`g
      ensures g == old(g).(rootgc := g.rootgc, tmudata := g.tmudata, finalized := g.finalized)
      ensures RootsOK(m.h, g.rootgc, g.tmudata)
      ensures forall u :: u in g.tmudata <==>
                u in old(g.tmudata) || (u in old(g.rootgc) && Separates(u, old(g.finalized)))
      ensures old(TmuWithin(m.h, g, X)) ==> forall u :: u in g.tmudata ==> u in X
      ensures old(g.finalized) <= g.finalized
      ensures forall u :: u in old(g.rootgc) && Separates(u, old(g.finalized)) ==> u in g.finalized
      ensures forall u :: u in g.finalized && u !in old(g.finalized) ==> !Marked(m.c, u)
    {
      var p, rootgc, tmudata, finalized := 0, g.rootgc, g.tmudata, g.finalized;
      ghost var fin0 := finalized;
      while p < |rootgc|
        invariant p <= |rootgc| && RootsOK(m.h, rootgc, tmudata) && g == old(g)
        invariant forall u :: u in g.rootgc <==> u in rootgc || (u in tmudata && u !in g.tmudata)
        invariant forall u :: u in g.tmudata ==> u in tmudata
        invariant g.finalized <= finalized
        invariant forall u :: u in tmudata && u !in g.tmudata ==> u in finalized
        invariant forall u :: u in finalized && u !in fin0 ==> !Marked(m.c, u)
        invariant forall u :: u in rootgc[p..] ==> (u in finalized <==> u in fin0)
        invariant forall u :: u in rootgc[..p] ==> !Separates(u, fin0)
        invariant forall u :: u in tmudata && u !in g.tmudata ==> Separates(u, fin0)
        decreases |rootgc| - p
      {
        var curr := rootgc[p];
        assert rootgc[p..] == [curr] + rootgc[p + 1..];
        assert rootgc[..p + 1] == rootgc[..p] + [curr];
        if !m.h[curr].Udata? || !m.c[curr].White? || curr in finalized {
          p := p + 1;
        } else if !HasGC(curr) {
          finalized := finalized + {curr};
          p := p + 1;
        } else {
          finalized := finalized + {curr};
          MoveRoot(m.h, rootgc, tmudata, p);
          ghost var rootgc0 := rootgc;
          rootgc := rootgc[..p] + rootgc[p + 1..];
          tmudata := tmudata + [curr];
          assert rootgc[..p] == rootgc0[..p] && rootgc[p..] == rootgc0[p + 1..];
        }
      }
      assert rootgc[..p] == rootgc;
      g := g.(rootgc := rootgc, tmudata := tmudata, finalized := finalized);
    }

    ghost predicate Separates(u: Ref, fin: set<Ref>)
      reads this`m
    {
      u in m.h && m.h[u].Udata? && u in m.c && m.c[u].White? && u !in fin && HasGC(u)
    }
  
    /** iscleared */
    method IsCleared(v: Val, isKey: bool) returns (b: bool)
      requires m.h.Keys == m.c.Keys && (v.Ptr? ==> v.r in m.h)
      modifies this`m
      ensures m == old(m).(c := m.c)
      ensures m.h.Keys == m.c.Keys && StringsMarked(m.h, old(m.c), m.c)
      ensures b == Cleared(m.h, old(m.c), g.finalized, v, isKey)
      ensures !b && v.Ptr? ==> Marked(m.c, v.r)
      ensures old(Within()) && (v.Ptr? && m.h[v.r].Str? ==> v.r in X) ==> Within()
    {
      hide ClosedUnder;
      if v.Prim? { return false; }
      if m.h[v.r].Str? {
        if m.c[v.r].White? { m := m.(c := m.c[v.r := Gray]); }
        return false;
      }
      return m.c[v.r].White? || (m.h[v.r].Udata? && !isKey && v.r in g.finalized);
    }

    /** The loop of cleartable over the array part. */
    method ClearArray(slots: seq<Val>) returns (r: seq<Val>)
      requires m.h.Keys == m.c.Keys && forall x :: Ptr(x) in slots ==> x in m.h
      modifies this`m
      ensures m == old(m).(c := m.c)
      ensures m.h.Keys == m.c.Keys && StringsMarked(m.h, old(m.c), m.c)
      ensures r == ClearSlots(m.h, old(m.c), g.finalized, slots)
      ensures forall x :: Ptr(x) in slots && !Cleared(m.h, old(m.c), g.finalized, Ptr(x), false) ==> Marked(m.c, x)
      ensures old(Within()) && (forall x :: Ptr(x) in slots && m.h[x].Str? ==> x in X) ==> Within()
    {
      hide Cleared, Bound;
      r := slots;
      var i := |slots|;
      while i > 0
        invariant m == old(m).(c := m.c)
        invariant 0 <= i <= |slots| && |r| == |slots| && m.h.Keys == m.c.Keys && StringsMarked(m.h, old(m.c), m.c)
        invariant forall j :: 0 <= j < i ==> r[j] == slots[j]
        invariant forall j :: i <= j < |slots| ==>
                  r[j] == if Cleared(m.h, old(m.c), g.finalized, slots[j], false) then Nil else slots[j]
        invariant forall x :: Ptr(x) in slots[i..] && !Cleared(m.h, old(m.c), g.finalized, Ptr(x), false) ==>
                  Marked(m.c, x)
        invariant old(Within()) && (forall x :: Ptr(x) in slots && m.h[x].Str? ==> x in X) ==> Within()
      {
        i := i - 1;
        ClearedStays(m.h, old(m.c), m.c, g.finalized, slots[i], false);
        var b := IsCleared(slots[i], false);
        if b { r := r[i := Nil]; }
        assert slots[i..] == [slots[i]] + slots[i + 1..];
      }
      assert slots[0..] == slots;
    }

    /** The loop of cleartable over the hash part. */
    method ClearHash(node: seq<Entry>) returns (r: seq<Entry>)
      requires m.h.Keys == m.c.Keys && forall e, x :: e in node && EntryRefers(e, x) ==> x in m.h
      modifies this`m
      ensures m == old(m).(c := m.c)
      ensures m.h.Keys == m.c.Keys && StringsMarked(m.h, old(m.c), m.c)
      ensures r == ClearNodes(m.h, old(m.c), g.finalized, node)
      ensures forall e, x :: e in node && EntryRefers(e, x) && ClearEntry(m.h, old(m.c), g.finalized, e) == e ==>
                Marked(m.c, x)
      ensures old(Within()) && (forall e, x :: e in node && EntryRefers(e, x) && m.h[x].Str? ==> x in X) ==> Within()
    {
      hide Cleared, Bound;
      r := node;
      var i := |node|;
      while i > 0
        invariant m == old(m).(c := m.c)
        invariant 0 <= i <= |node| && |r| == |node| && m.h.Keys == m.c.Keys && StringsMarked(m.h, old(m.c), m.c)
        invariant forall j :: 0 <= j < i ==> r[j] == node[j]
        invariant forall j :: i <= j < |node| ==> r[j] == ClearEntry(m.h, old(m.c), g.finalized, node[j])
        invariant forall e, x :: e in node[i..] && EntryRefers(e, x) ==>
                    ClearEntry(m.h, old(m.c), g.finalized, e) != e || Marked(m.c, x)
        invariant old(Within()) && (forall e, x :: e in node && EntryRefers(e, x) && m.h[x].Str? ==> x in X) ==>
                  Within()
      {
        i := i - 1;
        var e := node[i];
        assert e in node && node[i..] == [e] + node[i + 1..];
        if e.val != Nil {
          var gone := ClearedEntry(e, old(m.c));
          if gone { r := r[i := Entry(if e.key.Key? && e.key.v.Ptr? then DeadKey else e.key, Nil)]; }
        }
      }
      assert node[0..] == node;
    }

    /** iscleared(key) || iscleared(value) */
    method ClearedEntry(e: Entry, ghost c0: Marks) returns (gone: bool)
      requires m.h.Keys == m.c.Keys && e.val != Nil && StringsMarked(m.h, c0, m.c)
                 && forall x :: EntryRefers(e, x) ==> x in m.h
      modifies this`m
      ensures m == old(m).(c := m.c)
      ensures m.h.Keys == m.c.Keys && StringsMarked(m.h, c0, m.c) && StringsMarked(m.h, old(m.c), m.c)
      ensures gone == (KeyCleared(m.h, c0, g.finalized, e.key) || Cleared(m.h, c0, g.finalized, e.val, false))
      ensures !gone ==> forall x :: EntryRefers(e, x) ==> Marked(m.c, x)
      ensures old(Within()) && (forall x :: EntryRefers(e, x) && m.h[x].Str? ==> x in X) ==> Within()
    {
      hide Cleared, Bound;
      gone := false;
      if e.key.Key? {
        ClearedStays(m.h, c0, m.c, g.finalized, e.key.v, true);
        assert e.key.v.Ptr? ==> EntryRefers(e, e.key.v.r);
        gone := IsCleared(e.key.v, true);
      }
      if !gone {
        ClearedStays(m.h, c0, m.c, g.finalized, e.val, false);
        assert e.val.Ptr? ==> EntryRefers(e, e.val.r);
        gone := IsCleared(e.val, false);
      }
    }

    /** One step of cleartable. */
    method ClearOne(o: Ref)
      requires m.h.Keys == m.c.Keys && NoDangling(m.h) && o in m.h && m.h[o].Table?
      requires forall x :: TableKeeps(m.h[o], o in m.wk, o in m.wv, x) ==> Marked(m.c, x)
      modifies this`m
      ensures m == old(m).(h := m.h, c := m.c)
      ensures m.h == old(m.h)[o := ClearTable(old(m.h), old(m.c), g.finalized, old(m.h)[o], o in m.wv)]
      ensures m.h.Keys == m.c.Keys && StringsMarked(old(m.h), old(m.c), m.c)
      ensures forall x :: Refers(m.h, o, x) ==> Marked(m.c, x)
      ensures old(Within()) && o in X ==> Within()
    {
      hide Cleared, StringsMarked, ClosedUnder, MarkedIn;
      ghost var h0, within := m.h, Within() && o in X;
      if within { TableIn(m.h, X, o); }
      var t := m.h[o];
      ghost var c0 := m.c;
      TableRefers(m.h, o);
      EntriesRefer(m.h, o);
      assert forall x :: t.meta == Ptr(x) || (o !in m.wv && Ptr(x) in t.slots) ==>
          TableKeeps(m.h[o], o in m.wk, o in m.wv, x);
      hide TableKeeps, Refers;
      var slots := t.slots;
      if o in m.wv { slots := ClearArray(slots); } else { StringsRefl(m.h, m.c); }
      ghost var c1 := m.c;
      var node := ClearHash(t.node);
      StringsTrans(m.h, c0, c1, m.c);
      SameClearing(m.h, c0, c1, g.finalized, t.node);
      forall x | Refers(m.h[o := ClearTable(m.h, c0, g.finalized, t, o in m.wv)], o, x) ensures Marked(m.c, x) {
        ClearTableRefers(m.h, c0, g.finalized, o, o in m.wv, x);
      }
      m := m.(h := m.h[o := t.(slots := slots, node := node)]);
      if within { ClearedClosed(h0, c0, g.finalized, o, o in m.wv, X); }
    }
  
    /** cleartable: the weak tables keep exactly what is not cleared. */
    method ClearTables(ghost cw: bool)
      requires MarkInv(m, cw, {}) && m.gray == []
      modifies this`m
      ensures m == old(m).(h := m.h, c := m.c)
      ensures ClearedUpto(old(m), g.finalized, m.h, m.c, |m.weak|) && AllMarked(m.h, m.c)
      ensures old(Within()) ==> Within()
    {
      ghost var m0 := m;
      ghost var within := Within();
      hide Bound, MarkInv, TableKeeps, ClearedUpto, Refers, ClearTable, NoDangling, StringsMarked;
      ClearStart(m0, cw, g.finalized);
      if within { WeakIn(m, cw, X); }
      var i := 0;
      while i < |m.weak|
        invariant m == old(m).(h := m.h, c := m.c)
        invariant i <= |m.weak| && ClearedUpto(m0, g.finalized, m.h, m.c, i)
        invariant within ==> Within()
      {
        ghost var h1, c1 := m.h, m.c;
        ClearReady(m0, cw, g.finalized, m.h, m.c, i);
        ClearOne(m.weak[i]);
        ClearStep(m0, g.finalized, h1, c1, m.h, m.c, i);
        i := i + 1;
      }
      ClearedAll(m0, cw, g.finalized, m.h, m.c);
    }
  
    /** atomic: upvalues of stacks that may never be traversed. */
    method AtomicUpvals(ghost cw: bool) returns (ghost P: set<Ref>)
      requires OpenOK(m.h, g.uvhead) && m.gray == [] && MarkInv(m, cw, PSet(m.h, m.again, m.weak, g.tmudata))
      modifies this`m
      ensures MarkInv(m, cw, P) && m.gray == [] && Progress(old(m.h), old(m.c), m.h, m.c)
      ensures forall x :: x in P ==> x in m.again || x in m.weak || x in g.tmudata
      ensures old(Within()) ==> Within()
    {
      hide Bound, MarkInv, OpenOK, Progress, Elems, PSet;
      P := PSet(m.h, m.again, m.weak, g.tmudata);
      PendingLists(m.h, m.again, m.weak, g.tmudata, g.uvhead);
      RemarkUpvals(cw, P);
      P := P - Elems(g.uvhead);
      ghost var c1 := m.c;
      PropagateAll(cw, P);
      ProgressTrans(old(m.h), old(m.c), old(m.h), c1, m.h, m.c);
    }

    /** atomic: weak tables, the running thread and the basic metatables. */
    method AtomicWeak(ghost cw: bool, ghost P: set<Ref>) returns (ghost Q: set<Ref>)
      requires m.gray == [] && MarkInv(m, cw, P) && forall x :: x in P ==> x in m.again || x in m.weak || x in g.tmudata
      requires g.R.running in m.h && forall v :: v in g.R.mt && v.Ptr? ==> v.r in m.h
      modifies this`m
      ensures MarkInv(m, cw, Q) && m.gray == [] && Progress(old(m.h), old(m.c), m.h, m.c)
      ensures forall x :: x in Q ==> x in m.again || x in g.tmudata
      ensures Marked(m.c, g.R.running) && (forall v :: v in g.R.mt && v.Ptr? ==> Marked(m.c, v.r))
      ensures old(Within()) && RootsWithin(g.R, X) ==> Within()
      ensures ModesOK(m)
    {
      hide MarkInv, Progress, Bound;
      Q := Elems(m.again) + Elems(g.tmudata);
      TakeWeak(m, cw, P, Q);
      m := m.(gray := m.weak);
      m := m.(weak := []);
      MarkMore(Ptr(g.R.running), cw, Q);
      ghost var c1 := m.c;
      MarkMt(cw, Q);
      ProgressTrans(old(m.h), old(m.c), m.h, c1, m.h, m.c);
      ProgressFacts(m.h, c1, m.h, m.c);
      ghost var c2 := m.c;
      PropagateAll(cw, Q);
      ProgressTrans(old(m.h), old(m.c), old(m.h), c2, m.h, m.c);
      ProgressFacts(old(m.h), c2, m.h, m.c);
    }

    /** atomic: threads and the tables caught by the back barrier. */
    method AtomicAgain(ghost cw: bool, ghost Q: set<Ref>)
      requires m.gray == [] && MarkInv(m, cw, Q) && forall x :: x in Q ==> x in m.again || x in g.tmudata
      modifies this`m
      ensures MarkInv(m, cw, Elems(g.tmudata)) && m.gray == [] && Progress(old(m.h), old(m.c), m.h, m.c)
      ensures old(Within()) ==> Within()
      ensures old(ModesOK(m)) ==> ModesOK(m)
    {
      hide MarkInv, Progress, Bound;
      TakeAgain(m, cw, Q, Elems(g.tmudata));
      m := m.(gray := m.again);
      m := m.(again := []);
      PropagateAll(cw, Elems(g.tmudata));
    }

    /** atomic: userdata to be finalized stay alive. */
    method AtomicUdata(ghost cw: bool)
      requires RootsOK(m.h, g.rootgc, g.tmudata) && m.gray == [] && MarkInv(m, cw, Elems(g.tmudata))
      modifies this`m, this`g
      ensures g == old(g).(rootgc := g.rootgc, tmudata := g.tmudata, finalized := g.finalized)
      ensures MarkInv(m, cw, {}) && m.gray == [] && Progress(old(m.h), old(m.c), m.h, m.c)
      ensures RootsOK(m.h, g.rootgc, g.tmudata) && forall u :: u in g.tmudata ==> Marked(m.c, u)
      ensures old(Within()) && old(TmuWithin(m.h, g, X)) ==> Within()
      ensures old(g.finalized) <= g.finalized
      ensures old(ModesOK(m)) ==> ModesOK(m)
      ensures FinalizableMarked(old(m.h), old(g.finalized), m.c)
      ensures forall u :: u in g.finalized && u !in old(g.finalized) ==> !Marked(old(m.c), u)
      ensures forall u :: Finalizable(old(m.h), old(g.finalized), u) && !Marked(old(m.c), u) && u !in old(g.tmudata) ==>
                u in g.finalized
    {
      hide Bound, MarkInv, Progress, RootsOK, NoDangling, OneWhite, TmuWithin, FinalizableMarked, Marked;
      ghost var c0, rootgc0, tmudata0 := m.c, g.rootgc, g.tmudata;
      ghost var T := Elems(g.tmudata);
      ghost var within := Within() && TmuWithin(m.h, g, X);
      MarkInvFacts(m, cw, T);
      SeparateUdata();
      ghost var g1 := g;
      forall u | Finalizable(m.h, old(g.finalized), u) && !Marked(c0, u) && u !in tmudata0 ensures u in g.finalized {
        SeparatesIs(m, rootgc0, tmudata0, old(g.finalized), u);
        assert Separates(u, old(g.finalized));
      }
      assert T <= Elems(g.tmudata);
      MarkInvMono(m, cw, T, Elems(g.tmudata));
      TmuFacts(m.h, g.rootgc, g.tmudata);
      MarkTmu(cw);
      ghost var c1 := m.c;
      PropagateAll(cw, {});
      ProgressTrans(old(m.h), old(m.c), old(m.h), c1, m.h, m.c);
      ProgressFacts(old(m.h), c1, m.h, m.c);
      RootsStay(old(m.h), m.h, g.rootgc, g.tmudata);
      ProgressFacts(old(m.h), c0, old(m.h), c1);
      SeparatedMarked(old(m.h), old(g.finalized), c0, rootgc0, tmudata0, g.tmudata, m.c);
    }
  
    // -------------------------------------------------------------------
    // The invariant

    ghost predicate Valid()
      reads this
    {
      Inv(m, g)
    }

    /** The marking part of atomic up to the userdata. */
    method AtomicRemark()
      requires OpenOK(m.h, g.uvhead) && m.gray == [] && MarkInv(m, g.cw, PSet(m.h, m.again, m.weak, g.tmudata))
      requires g.R.running in m.h && (forall v :: v in g.R.mt && v.Ptr? ==> v.r in m.h)
      requires Marked(m.c, g.R.main) && (g.R.registry.Ptr? ==> Marked(m.c, g.R.registry.r))
      modifies this`m
      ensures MarkInv(m, g.cw, Elems(g.tmudata)) && m.gray == [] && Progress(old(m.h), old(m.c), m.h, m.c)
      ensures RootsMarked(m.c, g.R)
      ensures old(Within()) && RootsWithin(g.R, X) ==> Within()
      ensures ModesOK(m)
    {
      hide ModesOK, Bound, MarkInv, OpenOK, Progress, PSet, Elems;
      ghost var cw := g.cw;
      ghost var P := AtomicUpvals(cw);
      ghost var h1, c1 := m.h, m.c;
      ProgressFacts(old(m.h), old(m.c), h1, c1);
      ghost var Q := AtomicWeak(cw, P);
      ProgressTrans(old(m.h), old(m.c), h1, c1, m.h, m.c);
      ProgressFacts(h1, c1, m.h, m.c);
      ghost var h2, c2 := m.h, m.c;
      AtomicAgain(cw, Q);
      ProgressTrans(old(m.h), old(m.c), h2, c2, m.h, m.c);
      RootsMarkedStay(h2, c2, m.h, m.c, g.R);
    }

    /** The marking part of atomic. */
    method AtomicMark()
      requires Valid() && g.phase == Propagate && m.gray == []
      modifies this`m, this`g
      ensures AtomicMarked(old(m), old(g), m, g)
      ensures old(Within()) && old(Covers(m.h, g, X)) ==> Within()
      ensures OnlyTrimmed(old(m.h), m.h) && old(g.finalized) <= g.finalized && ModesOK(m)
      ensures old(BlackStrong(m.h, m.c)) ==> BlackStrong(m.h, m.c)
      ensures FinalizableMarked(old(m.h), old(g.finalized), m.c)
      ensures FinalizesOnly(old(m.h), g.R, old(g.tmudata), old(g.finalized), g.finalized)
      ensures old(Within() && RootsHeld(g, X)) ==> FinalizesBeyond(old(m.h), old(g.finalized), g.finalized, X)
    {
      hide Finalizable, FinalizesOnly, FinalizesBeyond;
      hide Bound, TmuWithin, RootsWithin, MarkInv, RootsOK, StringsOK, OpenOK, Progress, RootsMarked, SameButTables;
      hide NoDup, Intact, RootsLive;
      hide FixedOK, TmuOK, NoBlackStacks, Marked, Linked, Elems, PSet, OnlyTrimmed, ModesOK, BlackStrong;
      ghost var covers := Covers(m.h, g, X);
      RootsIn(m.h, m.c, g.cw, g.fixed, g.R);
      LinkedParts(m.h, g.rootgc, g.strt, g.tmudata, g.uvhead);
      AtomicRemark();
      ghost var m1 := m;
      ProgressFacts(old(m).h, old(m).c, m1.h, m1.c);
      RootsStay(old(m).h, m1.h, g.rootgc, g.tmudata);
      if covers { TmuStays(old(m).h, old(m).c, m1.h, m1.c, g, X); }
      ghost var held := Within() && RootsHeld(g, X);
      AtomicUdata(g.cw);
      assert OnlyTrimmed(old(m).h, m1.h) by { ProgressTrimmed(old(m).h, old(m).c, m1.h, m1.c); }
      SeparatedFinal(old(m).h, m1, g.cw, g.R, old(g).tmudata, old(g).finalized, g.finalized);
      if held {
        BoundMarked(m1.h, m1.c, X);
        SeparatedBeyond(old(m).h, m1, old(g).tmudata, old(g).finalized, g.finalized, X);
      }
      ProgressTrims(old(m).h, old(m).c, m1.h, m1.c, m.h, m.c);
      ProgressStrong(old(m).h, old(m).c, m1.h, m1.c);
      ProgressFinalizable(old(m).h, old(m).c, m1.h, m1.c, old(g.finalized));
      ProgressStrong(m1.h, m1.c, m.h, m.c);
      AtomicUdataEnds(old(m), old(g), m1, m, g);
    }

    /** atomic */
    method Atomic()
      requires Valid() && g.phase == Propagate && m.gray == []
      modifies this`m, this`g
      ensures Valid() && m.h.Keys == old(m.h.Keys)
      ensures g == old(g).(cw := !old(g).cw, sweepstrgc := 0, sweepgc := 0, phase := SweepString,
                           finalized := g.finalized, rootgc := g.rootgc, tmudata := g.tmudata)
      ensures AllMarked(m.h, m.c) && RootsMarked(m.c, g.R)
      ensures old(Within()) && old(Covers(m.h, g, X)) ==> AliveIn(m, g, X)
      ensures Untouched(old(m.h), m, g) && old(g.finalized) <= g.finalized && Grasped(old(m.h), m, g)
      ensures old(BlackStrong(m.h, m.c)) ==> ClearsLive(old(m.h), m, g)
      ensures Spares(old(m.h), old(g.finalized), m, g)
      ensures FinalizesOnly(old(m.h), g.R, old(g.tmudata), old(g.finalized), g.finalized)
      ensures old(Within() && RootsHeld(g, X)) ==> FinalizesBeyond(old(m.h), old(g.finalized), g.finalized, X)
    {
      hide FinalizableMarked, Spares, FinalizesOnly, FinalizesBeyond;
      hide Grips, IsLive, ModesOK, OnlyTrimmed, Seen, Lost, Bound, Covers, MarkInv, RootsMarked, AllMarked;
      hide BlackStrong, ClearedAs, LiveSet;
      hide ClearedUpto, Inv, SameButTables, Linked, Marked;
      AtomicMark();
      ghost var m1, g1 := m, g;
      ClearTables(g.cw);
      g := g.(cw := !g.cw, sweepstrgc := 0, sweepgc := 0, phase := SweepString);
      AtomicEnds(old(m), old(g), m1, g1, m, g);
      forall o | IsLive(m, g, o) ensures Seen(old(m.h), m.h, o, Lost(old(m.h), m, g)) {
        assert o in m.h by { LiveKeys(m, g, o); }
        AtomicSeen(old(m), old(g), m1, g1, m, g, o);
      }
      forall o, r | IsLive(m, g, o) && o in old(m.h) && Grips(old(m.h), o, r) ensures IsLive(m, g, r) {
        AtomicGrips(old(m), old(g), m1, g1, m, g, o, r);
      }
      AtomicSpares(old(m), old(g), m1, g1, m, g);
      if old(BlackStrong(m.h, m.c)) {
        forall o | IsLive(m, g, o) ensures ClearedAs(old(m.h), m.h, LiveSet(m, g), g.finalized, o) {
          AtomicExact(old(m), old(g), m1, g1, m, g, o);
        }
      }
      if Within() && old(Covers(m.h, g, X)) { LiveIn(old(m), old(g), m1, g1, m, g, X); }
    }
  
    // -------------------------------------------------------------------
    // Sweeping

    method IndexOf(s: seq<Ref>, x: Ref) returns (j: nat)
      requires x in s
      ensures j < |s| && s[j] == x
    {
      j := 0;
      while s[j] != x
        invariant j < |s| && x in s[j..]
        decreases |s| - j
      {
        j := j + 1;
      }
    }

    /** The GCSsweepstring step: sweeps one chain of the string table. */
    method SweepStrings()
      requires Valid() && g.phase == SweepString
      modifies this`m, this`g
      ensures Valid() && Preserves(old(m), old(g), m, g) && m.h.Keys <= old(m.h.Keys)
      ensures g.cw == old(g.cw) && g.R == old(g.R) && g.fixed == old(g.fixed) && |g.strt| == |old(g.strt)|
      ensures g.tmudata == old(g.tmudata) && g.finalized == old(g.finalized)
      ensures g.sweepstrgc == old(g.sweepstrgc) + 1 && g.phase == if g.sweepstrgc < |g.strt| then SweepString else Sweep
    {
      hide Preserves, Inv;
      var b, i := g.sweepstrgc, 0;
      PreservesRefl(m, g);
      StringAt(m, g);
      while i < |g.strt[b]|
        invariant Inv(m, g) && Preserves(old(m), old(g), m, g) && m.h.Keys <= old(m.h.Keys)
        invariant g == old(g).(strt := g.strt) && |g.strt| == |old(g.strt)|
        invariant i <= |g.strt[b]| && ChainSwept(m, g.cw, g.strt[b], i)
        decreases |g.strt[b]| - i
      {
        var o := g.strt[b][i];
        ghost var m1, g1 := m, g;
        StringAt(m, g);
        ChainStep(m, g, i);
        if IsDead(m, g, o) {
          FreeStringInv(m, g, i);
          m := Free(m, o);
          g := g.(strt := g.strt[b := Without(g.strt[b], i)]);
        } else {
          WhitenInv(m, g, o);
          m := Whiten(m, g.cw, o);
          i := i + 1;
        }
        PreservesTrans(old(m), old(g), m1, g1, m, g);
      }
      ghost var g1 := g;
      g := g.(sweepstrgc := b + 1);
      if g.sweepstrgc >= |g.strt| { g := g.(phase := Sweep); }
      ChainDone(m, g1, g);
      PreservesSame2(old(m), old(g), m, g1, g);
    }
  
    /** sweepwholelist on the open upvalues of a thread. */
    method SweepOpen(th: Ref)
      requires Valid() && g.phase == Sweep && th in m.h && m.h[th].Thread?
      modifies this`m, this`g
      ensures Valid() && Preserves(old(m), old(g), m, g) && m.h.Keys <= old(m.h.Keys)
                && g == old(g).(uvhead := g.uvhead)
      ensures th in m.h && m.h[th].Thread? && IsDead(m, g, th) == old(IsDead(m, g, th))
      ensures forall u :: u in m.h[th].openupval ==> u in m.c && m.c[u] == White(g.cw)
    {
      hide Preserves, Inv;
      PreservesRefl(m, g);
      var i := 0;
      while i < |m.h[th].openupval|
        invariant Inv(m, g) && Preserves(old(m), old(g), m, g) && m.h.Keys <= old(m.h.Keys)
                  && g == old(g).(uvhead := g.uvhead)
        invariant th in m.h && m.h[th].Thread? && IsDead(m, g, th) == old(IsDead(m, g, th))
        invariant i <= |m.h[th].openupval| && ChainSwept(m, g.cw, m.h[th].openupval, i)
        decreases |m.h[th].openupval| - i
      {
        var u := m.h[th].openupval[i];
        ghost var m1, g1 := m, g;
        OpenAt(m, g, th, i);
        OpenStep(m, g, th, i);
        if IsDead(m, g, u) {
          var j := IndexOf(g.uvhead, u);
          FreeOpenInv(m, g, th, i, j);
          m := FreeOpen(m, th, i);
          g := UvWithout(g, j);
        } else {
          WhitenInv(m, g, u);
          m := Whiten(m, g.cw, u);
          i := i + 1;
        }
        PreservesTrans(old(m), old(g), m1, g1, m, g);
      }
    }

    /** luaC_linkupval in the mark phase: a gray upvalue becomes black, and the
        barrier marks its value. */
    method LinkMark(u: Ref, ghost m0: MarkState, ghost g0: Globals)
      requires ClosedInMark(m0, g0, m, g, u)
      modifies this`m
      ensures m == old(m).(c := m.c, gray := m.gray) && Inv(m, g) && Preserves(m0, g0, m, g)
    {
      hide MarkInv, Common, Preserves, Inv, NoDangling;
      ghost var P := Pending(m0, g0);
      MarkInvFacts(m, g.cw, P);
      ghost var m1 := m;
      if m.c[u] == Black {
        assert m.h[u].v.Ptr? ==> Refers(m.h, u, m.h[u].v.r);
        ClosedRefers(m, u);
        MarkMore(m.h[u].v, g.cw, P);
      }
      LinkMarkEnds(m0, g0, m1, m, g, u);
    }

    /** A live upvalue is closed and linked to the root list. */
    method CloseLive(th: Ref, j: nat)
      requires Valid() && th in m.h && m.h[th].Thread? && m.h[th].openupval != []
      requires j < |g.uvhead| && g.uvhead[j] == m.h[th].openupval[0] && g.uvhead[j] in m.h && m.h[g.uvhead[j]].Open?
      requires m.h.Keys == m.c.Keys && m.c[g.uvhead[j]] != Black && g.uvhead[j] !in g.fixed
                 && !IsDead(m, g, g.uvhead[j])
      modifies this`m, this`g
      ensures Valid() && Preserves(old(m), old(g), m, g)
      ensures th in m.h && m.h[th] == old(m.h[th]).(openupval := old(m.h[th]).openupval[1..])
      ensures var u := old(m.h[th]).openupval[0];
              && u in m.h && m.h[u] == Closed(old(UpValue(m.h, m.h[u])))
              && g == old(g).(uvhead := g.uvhead, rootgc := [u] + old(g).rootgc, sweepgc := Shifted(old(g).sweepgc))
      ensures m.h.Keys == old(m.h.Keys) && m.c.Keys == old(m.c.Keys)
      ensures forall x :: x in m.h && x != th && x != old(m.h[th]).openupval[0] ==> m.h[x] == old(m.h)[x]
      ensures g.phase != Propagate ==> forall x :: x in m.c ==>
                m.c[x] == old(m.c)[x] || (x == old(m.h[th]).openupval[0] && m.c[x] == White(g.cw))
    {
      hide Preserves, Inv, ClosedInMark;
      ghost var m0, g0 := m, g;
      var u := m.h[th].openupval[0];
      var col := LinkColour(m.c[u], g.phase, g.cw);
      assert Without(m.h[th].openupval, 0) == m.h[th].openupval[1..];
      m := CloseOpen(m, th, 0, col);
      g := LinkRoot(UvWithout(g, j), u);
      CloseReady(m0, g0, th, j, m, g);
      if g.phase == Propagate {
        LinkMark(u, m0, g0);
        InvKeys(m, g);
      }
    }

    /** One step of luaF_close: the upvalue with the highest level is closed
        and linked to the root list, or freed if it is dead. */
    method CloseHead(th: Ref)
      requires Valid() && th in m.h && m.h[th].Thread? && m.h[th].openupval != []
      modifies this`m, this`g
      ensures Valid() && Preserves(old(m), old(g), m, g)
      ensures th in m.h && m.h[th] == old(m.h[th]).(openupval := old(m.h[th]).openupval[1..])
      ensures var u := old(m.h[th]).openupval[0];
              if old(IsDead(m, g, u)) then u !in m.h && g == old(g).(uvhead := g.uvhead)
              else && u in m.h && m.h[u] == Closed(old(UpValue(m.h, m.h[u])))
                   && m.h.Keys == old(m.h.Keys) && m.c.Keys == old(m.c.Keys)
                   && g == old(g).(uvhead := g.uvhead, rootgc := [u] + old(g).rootgc,
                       sweepgc := Shifted(old(g).sweepgc))
      ensures forall x :: x in m.h && x != th && x != old(m.h[th]).openupval[0] ==>
                x in old(m.h) && m.h[x] == old(m.h)[x]
      ensures g.phase != Propagate ==>
                forall x :: x in m.c ==>
                  x in old(m.c) && (m.c[x] == old(m.c)[x] || (x == old(m.h[th]).openupval[0] && m.c[x] == White(g.cw)))
    {
      hide Preserves, Inv;
      OpenAt(m, g, th, 0);
      var u := m.h[th].openupval[0];
      var j := IndexOf(g.uvhead, u);
      if IsDead(m, g, u) {
        assert Without(m.h[th].openupval, 0) == m.h[th].openupval[1..];
        DeadSweeping(m, g, u);
        FreeOpenInv(m, g, th, 0, j);
        m := FreeOpen(m, th, 0);
        g := UvWithout(g, j);
      } else {
        CloseLive(th, j);
      }
    }

    /** luaF_close: closes exactly the open upvalues at or above a stack level;
        Preserves says that their values stay. */
    method CloseUpvals(th: Ref, level: nat)
      requires Valid() && th in m.h && m.h[th].Thread?
      modifies this`m, this`g
      ensures Valid() && Preserves(old(m), old(g), m, g) && g.R == old(g.R) && g.phase == old(g.phase)
      ensures th in m.h && m.h[th].Thread? && m.h[th].stack == old(m.h[th]).stack
      ensures forall u :: u in old(m.h[th]).openupval ==>
                u in old(m.h) && old(m.h)[u].Open?
                && (if old(m.h)[u].level < level then u in m.h[th].openupval && u in m.h && m.h[u] == old(m.h)[u]
                    else u !in m.h[th].openupval && (u in m.h ==> m.h[u].Closed?))
    {
      hide Preserves, Inv;
      PreservesRefl(m, g);
      ListFacts(m, g, th);
      ghost var l, h0, k := m.h[th].openupval, m.h, 0;
      while m.h[th].openupval != [] && HeadLevel(th) >= level
        invariant Inv(m, g) && Preserves(old(m), old(g), m, g) && g.R == old(g.R) && g.phase == old(g.phase)
        invariant th in m.h && m.h[th].Thread? && m.h[th].stack == old(m.h[th]).stack
        invariant k <= |l| && m.h[th].openupval == l[k..]
        invariant forall i :: 0 <= i < k ==> h0[l[i]].level >= level && (l[i] in m.h ==> m.h[l[i]].Closed?)
        invariant forall i :: k <= i < |l| ==> l[i] in m.h && m.h[l[i]] == h0[l[i]]
        decreases |m.h[th].openupval|
      {
        ghost var m1, g1 := m, g;
        OpenAt(m, g, th, 0);
        CloseHead(th);
        PreservesTrans(old(m), old(g), m1, g1, m, g);
        ListFacts(m, g, th);
        forall i | k < i < |l| ensures l[i] in m.h && m.h[l[i]] == h0[l[i]] {
          assert l[i] == m.h[th].openupval[i - (k + 1)];
          assert h0[l[i]].level != h0[l[k]].level;
        }
        k := k + 1;
      }
      if m.h[th].openupval != [] { BelowHead(m, g, th, level); }
      CloseExact(h0, m.h, th, l, k, level);
    }

    function HeadLevel(th: Ref): nat
      reads this
      requires th in m.h && m.h[th].Thread? && m.h[th].openupval != []
    {
      var u := m.h[th].openupval[0];
      if u in m.h && m.h[u].Open? then m.h[u].level else 0
    }

    /** freeobj on a dead thread: its open upvalues are closed first. */
    method FreeThread(p0: nat) returns (p: nat)
      requires Valid() && g.phase == Sweep && g.sweepgc == p0 < |g.rootgc| && g.rootgc[p0] in m.h
                 && m.h[g.rootgc[p0]].Thread?
      requires forall u :: u in m.h[g.rootgc[p0]].openupval ==> u in m.c && m.c[u] == White(g.cw)
      requires g.rootgc[p0] in m.c
      modifies this`m, this`g
      ensures Valid() && Preserves(old(m), old(g), m, g) && m.h.Keys <= old(m.h.Keys)
      ensures g == old(g).(uvhead := g.uvhead, rootgc := g.rootgc, sweepgc := g.sweepgc)
      ensures g.sweepgc <= p < |g.rootgc| && g.rootgc[p] == old(g.rootgc[p0]) && g.rootgc[p] in m.h
      ensures m.h[g.rootgc[p]].Thread? && m.h[g.rootgc[p]].openupval == []
      ensures g.rootgc[p] in m.c && m.c[g.rootgc[p]] == old(m.c)[g.rootgc[p]]
    {
      hide Preserves, Inv;
      PreservesRefl(m, g);
      p := p0;
      var th := g.rootgc[p];
      while m.h[th].openupval != []
        invariant Inv(m, g) && Preserves(old(m), old(g), m, g) && m.h.Keys <= old(m.h.Keys)
        invariant g == old(g).(uvhead := g.uvhead, rootgc := g.rootgc, sweepgc := g.sweepgc)
        invariant g.sweepgc <= p < |g.rootgc| && g.rootgc[p] == th && th in m.h && m.h[th].Thread?
        invariant th in m.c && m.c[th] == old(m.c)[th]
        invariant forall u :: u in m.h[th].openupval ==> u in m.c && m.c[u] == White(g.cw)
        decreases |m.h[th].openupval|
      {
        ghost var m1, g1 := m, g;
        assert m.h[th].openupval[0] in m.h[th].openupval;
        OpenAt(m, g, th, 0);
        CloseHead(th);
        PreservesTrans(old(m), old(g), m1, g1, m, g);
        p := p + 1;
      }
    }
  
    /** sweeplist on a dead object: unlinks it and frees it. */
    method FreeDead()
      requires Valid() && g.phase == Sweep && g.sweepgc < |g.rootgc| && g.rootgc[g.sweepgc] in m.h
                 && m.h.Keys == m.c.Keys
      requires IsDead(m, g, g.rootgc[g.sweepgc])
      requires m.h[g.rootgc[g.sweepgc]].Thread? ==>
                 forall u :: u in m.h[g.rootgc[g.sweepgc]].openupval ==> u in m.c && m.c[u] == White(g.cw)
      modifies this`m, this`g
      ensures Valid() && Preserves(old(m), old(g), m, g) && m.h.Keys < old(m.h.Keys)
      ensures g == old(g).(uvhead := g.uvhead, rootgc := g.rootgc, sweepgc := g.sweepgc)
    {
      hide Preserves, Inv;
      var p, curr := g.sweepgc, g.rootgc[g.sweepgc];
      if m.h[curr].Thread? { p := FreeThread(p); } else { PreservesRefl(m, g); }
      ghost var m1, g1 := m, g;
      FreeRootInv(m, g, p);
      m := Free(m, curr);
      g := g.(rootgc := Without(g.rootgc, p));
      PreservesTrans(old(m), old(g), m1, g1, m, g);
      assert curr in old(m.h.Keys) && curr !in m.h.Keys;
    }

    /** One object of sweeplist. */
    method SweepOne()
      requires Valid() && g.phase == Sweep && g.sweepgc < |g.rootgc|
      modifies this`m, this`g
      ensures Valid() && Preserves(old(m), old(g), m, g)
      ensures g == old(g).(uvhead := g.uvhead, rootgc := g.rootgc, sweepgc := g.sweepgc)
      ensures m.h.Keys < old(m.h.Keys) || (m.h.Keys == old(m.h.Keys)
                && |g.rootgc| - g.sweepgc < |old(g.rootgc)| - old(g.sweepgc))
    {
      hide Preserves, Inv;
      SweepAt(m, g);
      var curr := g.rootgc[g.sweepgc];
      if m.h[curr].Thread? { SweepOpen(curr); } else { PreservesRefl(m, g); }
      ghost var m1, g1 := m, g;
      InvKeys(m, g);
      if !IsDead(m, g, curr) {
        WhitenInv(m, g, curr);
        m := Whiten(m, g.cw, curr);
        g := g.(sweepgc := g.sweepgc + 1);
        SweepNext(m, g1, g);
        PreservesSame2(m1, g1, m, g1, g);
      } else {
        FreeDead();
      }
      PreservesTrans(old(m), old(g), m1, g1, m, g);
    }

    /** sweeplist on the root list, count objects at most. */
    method SweepList(count: nat)
      requires Valid() && g.phase == Sweep
      modifies this`m, this`g
      ensures Valid() && Preserves(old(m), old(g), m, g) && m.h.Keys <= old(m.h.Keys)
      ensures g == old(g).(uvhead := g.uvhead, rootgc := g.rootgc, sweepgc := g.sweepgc)
      ensures old(g.sweepgc >= |g.rootgc|) ==> m == old(m) && g == old(g)
      ensures count > 0 && old(g.sweepgc < |g.rootgc|) ==>
                m.h.Keys < old(m.h.Keys) || (m.h.Keys == old(m.h.Keys)
                    && |g.rootgc| - g.sweepgc < |old(g.rootgc)| - old(g.sweepgc))
    {
      hide Preserves, Inv;
      PreservesRefl(m, g);
      var n := count;
      while g.sweepgc < |g.rootgc| && n > 0
        invariant Inv(m, g) && Preserves(old(m), old(g), m, g) && n <= count
        invariant g == old(g).(uvhead := g.uvhead, rootgc := g.rootgc, sweepgc := g.sweepgc)
        invariant m.h.Keys <= old(m.h.Keys) && (n == count ==> m == old(m) && g == old(g))
        invariant old(g.sweepgc >= |g.rootgc|) ==> n == count
        invariant n < count ==>
                    m.h.Keys < old(m.h.Keys) || (m.h.Keys == old(m.h.Keys)
                        && |g.rootgc| - g.sweepgc < |old(g.rootgc)| - old(g.sweepgc))
        decreases n
      {
        ghost var m1, g1 := m, g;
        SweepOne();
        PreservesTrans(old(m), old(g), m1, g1, m, g);
        n := n - 1;
      }
    }
  
    // -------------------------------------------------------------------
    // The cycle

    /** The four markings of markroot. */
    method MarkTheRoots(ghost cw: bool, ghost P: set<Ref>)
      requires MarkInv(m, cw, P) && BlackStrong(m.h, m.c) && g.R.main in m.h && m.h[g.R.main].Thread?
      requires m.h[g.R.main].globals.Ptr? ==> m.h[g.R.main].globals.r in m.h
      requires (g.R.registry.Ptr? ==> g.R.registry.r in m.h) && forall v :: v in g.R.mt && v.Ptr? ==> v.r in m.h
      modifies this`m
      ensures m == old(m).(c := m.c, gray := m.gray) && MarkInv(m, cw, P) && BlackStrong(m.h, m.c)
      ensures Marked(m.c, g.R.main) && (g.R.registry.Ptr? ==> Marked(m.c, g.R.registry.r))
      ensures old(Within()) && RootsWithin(g.R, X) &&
                (m.h[g.R.main].globals.Ptr? ==> m.h[g.R.main].globals.r in X) ==>
                Within()
    {
      hide MarkInv, Marked, Bound, BlackStrong, Progress;
      ghost var c0 := m.c;
      MarkMore(Ptr(g.R.main), cw, P);
      ghost var c1 := m.c;
      MarkMore(m.h[g.R.main].globals, cw, P);
      ghost var c2 := m.c;
      MarkMore(g.R.registry, cw, P);
      ghost var c3 := m.c;
      MarkMt(cw, P);
      MarkRootMarks(m.h, c0, c1, c2, c3, m.c, g.R);
    }

    /** markroot */
    method MarkRoot()
      requires Valid() && (g.phase == Pause || g.phase == Finalize)
      modifies this`m, this`g
      ensures Valid() && g == old(g).(phase := Propagate) && m.h == old(m.h) && BlackStrong(m.h, m.c)
      ensures old(Retains(m, g, X)) ==> Retains(m, g, X)
      ensures old(Encloses(m, g, X)) ==> Within() && RootsHeld(g, X)
    {
      hide Inv, MarkInv, Pending, Marked, Bound, TmuWithin, BlackStrong, RootsWithin, Encloses, Retains, RootsHeld;
      RestedStrong(m, g);
      MarkRootStart(m, g);
      if Encloses(m, g, X) { RestIn(m, g, X); }
      m := m.(gray := [], again := [], weak := []);
      MarkTheRoots(g.cw, Pending(m, g));
      g := g.(phase := Propagate);
      if old(Retains(m, g, X)) { RetainsSame(old(m), old(g), m, g, X); }
      if old(Encloses(m, g, X)) { HeldStays(old(g), g, X); }
      MarkRootEnds(old(m), old(g), m, g);
    }

    /** GCTM without the call of the finalizer: the userdata returns to the
        root list. */
    method Finalizer()
      requires Valid() && g.phase == Finalize && g.tmudata != []
      modifies this`m, this`g
      ensures Valid() && m.h == old(m.h)
      ensures g == old(g).(tmudata := old(g).tmudata[1..], rootgc := [old(g).tmudata[0]] + old(g).rootgc)
    {
      var o := g.tmudata[0];
      ghost var m0, g0 := m, g;
      m := Whiten(m, g.cw, o);
      g := g.(tmudata := g.tmudata[1..], rootgc := [o] + g.rootgc);
      FinalizerInv(m0, g0, m, g);
    }

    /** The GCSpropagate step with a gray object. */
    method PropagateStep()
      requires Valid() && g.phase == Propagate && m.gray != []
      modifies this`m, this`g
      ensures Valid() && g == old(g) && SameButTables(old(m.h), m.h)
      ensures Whites(m.c) < Whites(old(m.c)) || (Whites(m.c) == Whites(old(m.c)) && |m.gray| < |old(m.gray)|)
      ensures old(Within()) ==> Within()
      ensures old(Covers(m.h, g, X)) ==> Covers(m.h, g, X)
      ensures Untouched(old(m.h), m, g) && OnlyTrimmed(old(m.h), m.h)
      ensures old(BlackStrong(m.h, m.c)) ==> BlackStrong(m.h, m.c)
    {
      hide OnlyTrimmed, Untouched, MarkInv, Common, PSet, Progress, Whites, Marked, Grown, Bound, TmuWithin;
      hide RootsWithin, BlackStrong;
      ghost var m0, P := m, Pending(m, g);
      PropagateMark(g.cw, P);
      if Covers(m0.h, g, X) { TmuStays(m0.h, m0.c, m.h, m.c, g, X); }
      ProgressStrong(m0.h, m0.c, m.h, m.c);
      PropagateEnds(m0, m, g);
      ProgressUntouched(m0, m, g);
    }
  
    /** singlestep */
    method SingleStep()
      requires Valid()
      modifies this`m, this`g
      ensures Valid() && g.R == old(g.R) && g.fixed == old(g.fixed)
      ensures forall o :: old(IsLive(m, g, o)) ==> o in m.h
      ensures m.h.Keys <= old(m.h.Keys)
      ensures old(g.phase) != Pause ==> Falls(old(m), old(g), m, g)
      ensures old(g.phase) == Pause ==> g.phase == Propagate
      ensures Sweeping(old(g)) ==> Preserves(old(m), old(g), m, g) && (Sweeping(g) || g.phase == Finalize)
      ensures Sweeping(old(g)) ==> g.tmudata == old(g.tmudata) && g.finalized == old(g.finalized)
      ensures old(g.phase) == Finalize ==>
                m.h == old(m.h) && g.finalized == old(g.finalized) && (g.phase == Finalize || g.phase == Pause)
      ensures old(g.phase) == Propagate && old(BlackStrong(m.h, m.c)) ==>
                if g.phase == Propagate then BlackStrong(m.h, m.c) else ClearsLive(old(m.h), m, g)
      ensures old(g.phase) == Propagate ==>
                if g.phase == Propagate then g.finalized == old(g.finalized) && g.tmudata == old(g.tmudata)
                else Spares(old(m.h), old(g.finalized), m, g)
                     && FinalizesOnly(old(m.h), g.R, old(g.tmudata), old(g.finalized), g.finalized)
      ensures old(g.phase) == Propagate && old(Within() && RootsHeld(g, X)) ==>
                if g.phase == Propagate then Within() && RootsHeld(g, X)
                else FinalizesBeyond(old(m.h), old(g.finalized), g.finalized, X)
      ensures g.phase == Pause ==> g.tmudata == []
      ensures old(g.phase) == Propagate && old(Within() && Covers(m.h, g, X)) ==>
                if g.phase == Propagate then Within() && Covers(m.h, g, X) else Sweeping(g) && AliveIn(m, g, X)
      ensures Untouched(old(m.h), m, g) && old(g.finalized) <= g.finalized
      ensures forall o :: IsLive(m, g, o) ==> old(IsLive(m, g, o))
      ensures old(g.phase) == Propagate ==> if g.phase == Propagate then OnlyTrimmed(old(m.h), m.h)
                else Grasped(old(m.h), m, g)
    {
      hide OnlyTrimmed, Grasped, Untouched, Inv, Preserves, AllMarked, RootsMarked, Whites, Bound, Covers, AliveIn;
      hide BlackStrong, ClearsLive, Spares, FinalizesOnly, FinalizesBeyond;
      ghost var m0, g0 := m, g;
      if !Sweeping(g) { NothingDead(m, g); }
      match g.phase {
        case Pause => MarkRoot();
        case Propagate =>
          if m.gray != [] { PropagateStep(); } else { Atomic(); }
        case SweepString =>
          SweepStrings();
          PreservesLive(old(m), old(g), m, g);
        case Sweep =>
          SweepList(GCSWEEPMAX);
          PreservesLive(old(m), old(g), m, g);
          if g.sweepgc >= |g.rootgc| {
            ghost var g1 := g;
            SweepEnds(m, g);
            g := g.(phase := Finalize);
            PreservesSame2(old(m), old(g), m, g1, g);
          }
        case Finalize =>
          if g.tmudata != [] {
            Finalizer();
          } else {
            CycleEnds(m, g);
            g := g.(phase := Pause);
          }
      }
      if Sweeping(g0) { SweepUntouched(m0, g0, m, g); }
      else if g0.phase != Propagate { SameUntouched(m0.h, m, g); }
    }

    /** The part of luaC_fullgc before markroot: a sweep without a flip if the
        collector was marking, then the rest of the sweep. */
    method FinishSweep()
      requires Valid()
      modifies this`m, this`g
      ensures Valid() && g.phase == Finalize && g.R == old(g.R) && g.fixed == old(g.fixed)
      ensures Preserves(old(m), old(g), m, g) && m.h.Keys <= old(m.h.Keys)
      ensures old(g.phase) == Pause || old(g.phase) == Propagate ==> m.h.Keys == old(m.h.Keys)
      ensures g.tmudata == old(g.tmudata) && g.finalized == old(g.finalized)
    {
      hide Inv, Preserves;
      PreservesRefl(m, g);
      ghost var g1 := g;
      if g.phase == Pause || g.phase == Propagate {
        NothingDead(m, g);
        AbortMark(m, g);
        m := m.(gray := [], again := [], weak := []);
        g := g.(sweepstrgc := 0, sweepgc := 0, phase := SweepString);
      }
      while g.phase != Finalize
        invariant Inv(m, g) && Preserves(old(m), old(g), m, g) && g.R == old(g.R) && g.fixed == old(g.fixed)
        invariant (Sweeping(g) || g.phase == Finalize) && m.h.Keys <= old(m.h.Keys)
        invariant g.tmudata == old(g.tmudata) && g.finalized == old(g.finalized)
        decreases Rank(g.phase), RankSet(m, g), RankNum(m, g)
      {
        ghost var m2, g2 := m, g;
        SingleStep();
        PreservesTrans(old(m), old(g), m2, g2, m, g);
      }
      PreservesLive(old(m), old(g), m, g);
    }

    /** luaC_fullgc */
    method FullGC(ghost keep: set<Ref>)
      requires Valid()
      modifies this
      ensures Valid() && g.phase == Pause && g.R == old(g.R) && g.fixed == old(g.fixed)
      ensures old(Retains(m, g, keep)) ==> m.h.Keys <= keep
      ensures LosesOnlyGone(old(m.h), m, g) && KeepsGripped(old(m.h), m.h)
      ensures ClearsExactly(old(m.h), m.h, g.finalized) && SparesFinalizable(old(m), old(g), m.h)
      ensures FinalizesOnly(old(m.h), g.R, old(g.tmudata), old(g.finalized), g.finalized) && g.tmudata == []
      ensures old(Encloses(m, g, keep)) ==> FinalizesAll(old(m), old(g), g.finalized, keep)
    {
      hide Spares, SparesFinalizable, FinalizesOnly, FinalizesBeyond, FinalizesAll, RootsHeld;
      hide Grasped, KeepsGripped, LosesOnlyGone, Untouched, Inv, Preserves, Bound, Covers, ClosedUnder, Intact;
      hide ClearsLive, ClearsExactly;
      X := keep;
      InvIntact(m, g);
      ghost var retains, encloses := Retains(m, g, X), Encloses(m, g, X);
      ghost var m0, g0 := m, g;
      FinishSweep();
      NothingDead(m, g);
      if retains { SweptRetains(m0, g0, m, g, X); }
      if encloses { SweptEncloses(m0, g0, m, g, X); }
      SweepUntouched(m0, g0, m, g);
      ghost var m1, g1 := m, g;
      RootsInHeap(m, g);
      WholeCycle();
      UntouchedTrans(m0.h, m1, g1, m, g);
      NothingDead(m, g);
      SeenAll(m0.h, m, g);
      GraspedAll(m0, g0, m1, g1, m, g);
      AllClears(m0, g0, m1, g1, m, g);
      AllSpared(m0, g0, m1, g1, m, g);
      SweptOnly(m0, g0, m1, g1, g.finalized);
      if encloses { SweptBeyond(m0, g0, m1, g1, g.finalized, X); }
    }

    /** The rest of luaC_fullgc: a whole cycle. */
    method WholeCycle()
      requires Valid() && g.phase == Finalize
      modifies this`m, this`g
      ensures Valid() && g.phase == Pause && g.R == old(g.R) && g.fixed == old(g.fixed)
      ensures old(Retains(m, g, X)) ==> m.h.Keys <= X
      ensures Untouched(old(m.h), m, g) && old(g.finalized) <= g.finalized && m.h.Keys <= old(m.h.Keys)
      ensures Grasped(old(m.h), m, g) && ClearsLive(old(m.h), m, g)
      ensures Spares(old(m.h), old(g.finalized), m, g) && g.tmudata == []
      ensures FinalizesOnly(old(m.h), g.R, old(g.tmudata), old(g.finalized), g.finalized)
      ensures old(Encloses(m, g, X)) ==> FinalizesBeyond(old(m.h), old(g.finalized), g.finalized, X)
    {
      hide OnlyTrimmed, Grasped, Untouched, Inv, Preserves, Bound, Covers, AliveIn, BlackStrong, ClearsLive, Spares;
      hide FinalizesOnly, FinalizesBeyond, RootsHeld;
      ghost var within, encloses := Retains(m, g, X), Encloses(m, g, X);
      if within { RetainsEncloses(m, g, X); }
      MarkRoot();
      SameUntouched(m.h, m, g);
      SameTrimmed(m.h);
      while g.phase != Pause
        invariant Inv(m, g) && g.R == old(g.R) && g.fixed == old(g.fixed)
        invariant within ==> if g.phase == Propagate then Within() && Covers(m.h, g, X) else AliveIn(m, g, X)
        invariant Untouched(old(m.h), m, g) && old(g.finalized) <= g.finalized && m.h.Keys <= old(m.h.Keys)
        invariant if g.phase == Propagate then OnlyTrimmed(old(m.h), m.h) else Grasped(old(m.h), m, g)
        invariant if g.phase == Propagate then BlackStrong(m.h, m.c) else ClearsLive(old(m.h), m, g)
        invariant if g.phase == Propagate then g.finalized == old(g.finalized) && g.tmudata == old(g.tmudata)
                  else Spares(old(m.h), old(g.finalized), m, g)
                       && FinalizesOnly(old(m.h), g.R, old(g.tmudata), old(g.finalized), g.finalized)
        invariant encloses ==> if g.phase == Propagate then Within() && RootsHeld(g, X)
                  else FinalizesBeyond(old(m.h), old(g.finalized), g.finalized, X)
        invariant g.phase == Pause ==> g.tmudata == []
        decreases Rank(g.phase), RankSet(m, g), RankNum(m, g)
      {
        ghost var m1, g1 := m, g;
        SingleStep();
        if within && g1.phase != Propagate { AliveStays(m1, g1, m, g, X); }
        UntouchedTrans(old(m.h), m1, g1, m, g);
        StepGrasped(old(m.h), m1, g1, m, g);
        StepClears(old(m.h), m1, g1, m, g);
        StepSpares(old(m.h), old(g.finalized), m1, g1, m, g);
        if g1.phase == Propagate && g.phase != Propagate {
          TrimmedOnly(old(m.h), m1.h, g.R, g1.tmudata, g1.finalized, g.finalized);
          if encloses { TrimmedBeyond(old(m.h), m1.h, g1.finalized, g.finalized, X); }
        }
      }
      NothingDead(m, g);
      if within { AllIn(m, g, X); }
    }
  
    // -------------------------------------------------------------------
    // The mutator

    /** lua_newstate and f_luaopen: the main thread, which is never collected,
        the table of globals and the registry. */
    constructor (mainthread: Ref, globals: Ref, registry: Ref, buckets: nat)
      requires buckets > 0 && mainthread != globals && mainthread != registry && globals != registry
      ensures Valid() && g.phase == Pause && m.h == NewHeap(mainthread, globals, registry)
      ensures g.R == Roots(mainthread, mainthread, Ptr(registry), []) && g.fixed == {mainthread}
    {
      m := MarkState(NewHeap(mainthread, globals, registry),
                     map[mainthread := White(false), globals := White(false), registry := White(false)],
                     {}, {}, [], [], []);
      g := Globals({}, {mainthread}, [registry, globals, mainthread], 0, seq(buckets, _ => []), 0, [], [], false, Pause,
                   Roots(mainthread, mainthread, Ptr(registry), []));
      new;
      InitInv(m, g, mainthread, globals, registry);
    }

    /** luaS_fix: the string is never collected. */
    method FixString(s: Ref)
      requires Valid() && IsLive(m, g, s) && m.h[s].Str?
      modifies this`g
      ensures Valid() && g == old(g).(fixed := old(g).fixed + {s})
      ensures forall x :: old(IsLive(m, g, x)) ==> IsLive(m, g, x)
    {
      FixInv(m, g, s);
      g := g.(fixed := g.fixed + {s});
    }

    /** A store into an object, followed by its barrier: luaC_barrierback for
        tables, none for threads, luaC_barrierf for the others. */
    method SetField(o: Ref, f: Field, v: Val)
      requires CanWrite(m, g, o, f, v)
      modifies this`m
      ensures Valid() && m.h == Put(old(m.h), o, f, v)
      ensures forall x :: old(IsLive(m, g, x)) ==> IsLive(m, g, x)
    {
      hide Inv, Put, MarkInv, Pending, Common, Progress;
      ghost var m0 := m;
      InvKeys(m, g);
      m := Written(m, o, f, v);
      WrittenKeys(m0, o, f, v);
      if v.Ptr? && m.c[v.r].White? && m.c[o] == Black {
        if m.h[o].Table? {
          WriteBack(m0, g, o, f, v);
          m := Back(m, o);
        } else if g.phase == Propagate {
          WrittenCommon(m0, g, o, f, v);
          ghost var P := Pending(m0, g) + {o};
          WrittenMark(m0, g, o, f, v, P);
          MarkMore(v, g.cw, P);
          WriteForward(m0, g, o, f, v, m);
          MarkInvFacts(m, g.cw, P);
        } else {
          WriteWhiten(m0, g, o, f, v);
          m := Whiten(m, g.cw, o);
        }
      } else {
        WriteNoBarrier(m0, g, o, f, v);
      }
    }

    /** luaC_link: a new object of a kind that the root list owns. */
    method New(r: Ref, o: Obj)
      requires Valid() && r !in m.h && !o.Str? && !o.Open? && (o.Thread? ==> o.openupval == [])
      requires forall x :: Refers(m.h[r := o], r, x) ==> IsLive(m, g, x)
      modifies this`m, this`g
      ensures Valid() && m.h == old(m.h)[r := o] && IsLive(m, g, r) && g.R == old(g.R)
      ensures forall x :: old(IsLive(m, g, x)) ==> IsLive(m, g, x)
    {
      hide Inv, Refers, NoOpenIn, Linked, Common;
      ghost var m0, g0 := m, g;
      NewReady(m, g, r, o);
      m := m.(h := m.h[r := o], c := m.c[r := White(g.cw)], wk := m.wk - {r}, wv := m.wv - {r});
      g := LinkRoot(g.(finalized := g.finalized - {r}), r);
      FreshInv(m0, g0, m, r, g);
    }

    /** luaS_newlstr when the string is not in the table yet. */
    method NewString(r: Ref, hash: nat)
      requires Valid() && r !in m.h
      modifies this`m, this`g
      ensures Valid() && m.h == old(m.h)[r := Str(hash)] && IsLive(m, g, r) && g.R == old(g.R)
      ensures forall x :: old(IsLive(m, g, x)) ==> IsLive(m, g, x)
    {
      hide Inv, Refers, NoOpenIn, Linked, Common, Bucket;
      ghost var m0, g0 := m, g;
      StringReady(m, g, r, hash);
      var b := Bucket(Str(hash), |g.strt|);
      m := m.(h := m.h[r := Str(hash)], c := m.c[r := White(g.cw)], wk := m.wk - {r}, wv := m.wv - {r});
      g := g.(strt := g.strt[b := [r] + g.strt[b]]);
      FreshInv(m0, g0, m, r, g);
    }

    /** luaS_newlstr when the string is found: it comes back to life. */
    method FindString(s: Ref)
      requires Valid() && s in m.h && m.h[s].Str?
      modifies this`m
      ensures Valid() && m.h == old(m.h) && IsLive(m, g, s)
      ensures forall x :: old(IsLive(m, g, x)) ==> IsLive(m, g, x)
    {
      hide Inv, Refers;
      InvKeys(m, g);
      if IsDead(m, g, s) {
        DeadIsSweeping(m, g, s);
        forall x ensures !Refers(m.h, s, x) { NoStringRefers(m.h, s, x); }
        ReviveInv(m, g, s);
        m := Whiten(m, g.cw, s);
      }
    }
  
    /** luaF_findupval: the one open upvalue for a stack slot. */
    method FindUpval(th: Ref, level: nat, r: Ref) returns (u: Ref)
      requires Valid() && IsLive(m, g, th) && m.h[th].Thread? && level < |m.h[th].stack| && r !in m.h
      modifies this`m, this`g
      ensures Valid() && IsLive(m, g, u) && u in m.h && m.h[u] == Open(th, level) && g.R == old(g.R)
      ensures u in old(m.h.Keys) || u == r
      ensures forall v :: v in old(m.h[th]).openupval && v in old(m.h) && old(m.h)[v] == Open(th, level) ==> u == v
      ensures m.h.Keys <= old(m.h.Keys) + {r}
      ensures forall x :: old(IsLive(m, g, x)) ==> IsLive(m, g, x)
      ensures th in m.h && m.h[th].Thread? && m.h[th].stack == old(m.h[th]).stack
      ensures m.h[th].globals == old(m.h[th]).globals && old(m.h.Keys) <= m.h.Keys
      ensures forall x :: x in old(m.h) && x != th ==> m.h[x] == old(m.h)[x]
    {
      hide Inv, Refers, NoOpenIn, Linked, Common;
      InvKeys(m, g);
      ListFacts(m, g, th);
      var k, l := 0, m.h[th].openupval;
      while k < |l| && m.h[l[k]].level >= level
        invariant k <= |l| && forall i :: 0 <= i < k ==> m.h[l[i]].level > level
      {
        if m.h[l[k]].level == level {
          u := l[k];
          OpenValue(m, g, th, u);
          if IsDead(m, g, u) {
            DeadIsSweeping(m, g, u);
            ReviveInv(m, g, u);
            m := Whiten(m, g.cw, u);
          }
          return;
        }
        k := k + 1;
      }
      ghost var m0, g0 := m, g;
      OpenReady(m, g, th, level, r, k);
      u := r;
      m := m.(h := m.h[r := Open(th, level)][th := m.h[th].(openupval := Inserted(l, k, r))],
              c := m.c[r := White(g.cw)], wk := m.wk - {r}, wv := m.wv - {r});
      g := g.(uvhead := [r] + g.uvhead);
      FreshInv(m0, g0, m, r, g);
    }

    /** OP_SETUPVAL: writes the value of an upvalue, in its stack slot while it
        is open. */
    method SetUpval(u: Ref, v: Val)
      requires Valid() && IsLive(m, g, u) && (m.h[u].Open? || m.h[u].Closed?) && LiveVal(m.h, m.c, g.cw, g.fixed, v)
      modifies this`m
      ensures Valid() && u in m.h && (m.h[u].Open? || m.h[u].Closed?) && UpValue(m.h, m.h[u]) == v
      ensures if old(m.h[u]).Closed? then m.h == Put(old(m.h), u, Value, v)
              else old(m.h[u]).thread in old(m.h)
                   && m.h == Put(old(m.h), old(m.h[u]).thread, Stack(old(m.h[u]).level), v)
      ensures forall x :: old(IsLive(m, g, x)) ==> IsLive(m, g, x)
    {
      hide Inv;
      if m.h[u].Closed? {
        SetField(u, Value, v);
      } else {
        var th, level := m.h[u].thread, m.h[u].level;
        OpenSlot(m, g, u);
        SetField(th, Stack(level), v);
      }
    }

    /** lua_setmetatable on a basic type: no barrier. */
    method SetMt(i: nat, v: Val)
      requires Valid() && LiveVal(m.h, m.c, g.cw, g.fixed, v)
      modifies this`g
      ensures Valid() && g == old(g).(R := old(g).R.(mt := PutVal(old(g).R.mt, i, v)))
    {
      ghost var g0 := g;
      g := g.(R := g.R.(mt := PutVal(g.R.mt, i, v)));
      RootsInv(m, g0, g);
    }

    /** lua_resume: another thread runs. */
    method Resume(th: Ref)
      requires Valid() && IsLive(m, g, th) && m.h[th].Thread?
      modifies this`g
      ensures Valid() && g == old(g).(R := old(g).R.(running := th))
    {
      ghost var g0 := g;
      g := g.(R := g.R.(running := th));
      RootsInv(m, g0, g);
    }
  }
}
