/** What a program writes into the heap, and what a write keeps. */
module GcWrite {
  import opened GcHeap
  import opened GcMark
  import opened GcLinks
  import opened GcInv
  import opened GcSweep
  import opened GcClose

  /** A place in an object. */
  datatype Field =
    | Meta | Env | GlobalTable
    | Slot(i: nat)                 // array part; i == size appends
    | NewKey(i: nat)               // newkey: takes an entry without a value
    | EntryVal(i: nat, key: Val)   // the value of an entry with this key
    | Mode(tm: Tm)                 // __mode and __gc of a metatable
    | Item(i: nat)                 // constants, upvalues, environment of functions
    | Value                        // a closed upvalue
    | Stack(i: nat)                // i == size pushes

  function PutVal(s: seq<Val>, i: nat, v: Val): seq<Val> {
    if i < |s| then s[i := v] else if i == |s| then s + [v] else s
  }

  function PutEntry(s: seq<Entry>, i: nat, e: Entry): seq<Entry> {
    if i < |s| then s[i := e] else if i == |s| then s + [e] else s
  }

  /** The object after the write; a field it does not have changes nothing. */
  function Updated(o: Obj, f: Field, v: Val): Obj {
    match o
    case Udata(meta, env) => if f.Meta? then Udata(v, env) else if f.Env? then Udata(meta, v) else o
    case Closed(_) => if f.Value? then Closed(v) else o
    case Closure(refs) => if f.Item? && f.i < |refs| then Closure(refs[f.i := v]) else o
    case Proto(refs) => if f.Item? && f.i < |refs| then Proto(refs[f.i := v]) else o
    case Table(_, slots, node, _) =>
      (match f
       case Meta => o.(meta := v)
       case Mode(tm) => o.(tm := tm)
       case Slot(i) => o.(slots := PutVal(slots, i, v))
       case NewKey(i) => if i < |node| && node[i].val != Nil then o
           else o.(node := PutEntry(node, i, Entry(Key(v), Nil)))
       case EntryVal(i, k) => if i < |node| && node[i].key == Key(k) then o.(node := node[i := Entry(Key(k), v)]) else o
       case _ => o)
    case Thread(_, stack, _) =>
      (match f
       case GlobalTable => o.(globals := v)
       case Stack(i) => o.(stack := PutVal(stack, i, v))
       case _ => o)
    case _ => o
  }

  /** The key that a write to an entry uses. */
  function KeyOf(f: Field): Val {
    if f.EntryVal? then f.key else Nil
  }

  function Put(h: Heap, o: Ref, f: Field, v: Val): Heap
    requires o in h
  {
    h[o := Updated(h[o], f, v)]
  }

  /** The kind of an object stays, and stacks do not shrink. */
  ghost predicate SameKind(a: Obj, b: Obj) {
    match a
    case Str(_) => b == a
    case Udata(_, _) => b.Udata?
    case Open(_, _) => b == a
    case Closed(_) => b.Closed?
    case Closure(_) => b.Closure?
    case Proto(_) => b.Proto?
    case Table(_, _, _, _) => b.Table?
    case Thread(_, _, _) => b.Thread? && b.openupval == a.openupval && |b.stack| >= |a.stack|
  }

  ghost predicate SameKinds(h: Heap, h': Heap) {
    h'.Keys == h.Keys && forall o :: o in h ==> SameKind(h[o], h'[o])
  }

  lemma PutKinds(h: Heap, o: Ref, f: Field, v: Val)
    requires o in h
    ensures SameKinds(h, Put(h, o, f, v))
  {
  }

  lemma KindsLinked(h: Heap, h': Heap, g: Globals)
    requires SameKinds(h, h') && Linked(h, g.rootgc, g.strt, g.tmudata, g.uvhead)
    ensures Linked(h', g.rootgc, g.strt, g.tmudata, g.uvhead)
  {
    hide RootsOK, StringsOK, OpenOK, SameKinds;
    KindsRootsOK(h, h', g);
    KindsStrings(h, h', g.strt);
    KindsOpen(h, h', g.uvhead);
  }

  lemma KindsRootsOK(h: Heap, h': Heap, g: Globals)
    requires SameKinds(h, h') && RootsOK(h, g.rootgc, g.tmudata)
    ensures RootsOK(h', g.rootgc, g.tmudata)
  {
  }

  lemma KindsStrings(h: Heap, h': Heap, strt: seq<seq<Ref>>)
    requires SameKinds(h, h') && StringsOK(h, strt)
    ensures StringsOK(h', strt)
  {
  }

  lemma KindsOpen(h: Heap, h': Heap, uvhead: seq<Ref>)
    requires SameKinds(h, h') && OpenOK(h, uvhead)
    ensures OpenOK(h', uvhead)
  {
    forall th | th in h' && h'[th].Thread? ensures OpenList(h', th) { assert OpenList(h, th); }
  }

  lemma PutValIn(s: seq<Val>, i: nat, v: Val, x: Ref)
    requires Ptr(x) in PutVal(s, i, v)
    ensures Ptr(x) in s || v == Ptr(x)
  {
  }

  lemma PutEntryIn(s: seq<Entry>, i: nat, e: Entry, d: Entry)
    requires d in PutEntry(s, i, e)
    ensures d in s || d == e
  {
  }

  /** A write adds at most the written value to what objects hold. */
  lemma PutHolds(h: Heap, o: Ref, f: Field, v: Val, p: Ref, x: Ref)
    requires o in h && p in h && Holds(Put(h, o, f, v), p, x)
    ensures Holds(h, p, x) || v == Ptr(x)
  {
    hide PutVal, PutEntry;
    var h' := Put(h, o, f, v);
    if p == o {
      match h[o] {
        case Table(_, slots, node, _) =>
          if f.Slot? && Ptr(x) in h'[o].slots { PutValIn(slots, f.i, v, x); }
          if NodeHolds(h'[o].node, x) {
            var e :| e in h'[o].node && EntryHolds(e, x);
            if f.NewKey? && h'[o].node != node { PutEntryIn(node, f.i, Entry(Key(v), Nil), e); }
            if f.EntryVal? && e !in node { assert e == Entry(Key(f.key), v) && node[f.i] in node; }
          }
        case Thread(_, stack, _) =>
          if f.Stack? && Ptr(x) in h'[o].stack { PutValIn(stack, f.i, v, x); }
        case _ =>
      }
    } else if h[p].Open? && h[p].thread == o {
      PutUpValue(h, o, f, v, p);
    }
  }

  lemma PutUpValue(h: Heap, o: Ref, f: Field, v: Val, p: Ref)
    requires o in h && p in h && h[p].Open? && p != o
    ensures var h' := Put(h, o, f, v); UpValue(h', h'[p]) == UpValue(h, h[p]) || UpValue(h', h'[p]) == v
  {
  }

  /** A program that had live objects gets at live objects only. */
  lemma PutRefers(h: Heap, o: Ref, f: Field, v: Val, p: Ref, x: Ref)
    requires o in h && p in h && Refers(Put(h, o, f, v), p, x)
    ensures Refers(h, p, x) || v == Ptr(x) || KeyOf(f) == Ptr(x)
  {
    hide PutVal, PutEntry;
    var h' := Put(h, o, f, v);
    if !h[p].Table? {
      PutHolds(h, o, f, v, p, x);
    } else if p == o {
      var slots, node := h[o].slots, h[o].node;
      if f.Slot? && Ptr(x) in h'[o].slots { PutValIn(slots, f.i, v, x); }
      if NodeRefers(h'[o].node, x) {
        var e :| e in h'[o].node && EntryRefers(e, x);
        if f.NewKey? && h'[o].node != node { PutEntryIn(node, f.i, Entry(Key(v), Nil), e); }
        if f.EntryVal? && e !in node { assert e == Entry(Key(f.key), v); }
      }
    }
  }

  lemma PutAlive(m: MarkState, g: Globals, o: Ref, f: Field, v: Val)
    requires Alive(m, g) && o in m.h && LiveVal(m.h, m.c, g.cw, g.fixed, v)
               && LiveVal(m.h, m.c, g.cw, g.fixed, KeyOf(f))
    ensures Alive(m.(h := Put(m.h, o, f, v)), g)
  {
    PutKinds(m.h, o, f, v);
    var h' := Put(m.h, o, f, v);
    hide Updated, Refers, Put;
    forall p, x | Live(h', m.c, g.cw, g.fixed, p) && Refers(h', p, x) ensures Live(h', m.c, g.cw, g.fixed, x) {
      PutRefers(m.h, o, f, v, p, x);
    }
    assert Intact(h', m.c, g.cw, g.fixed);
    hide Intact;
    KindsRoots(m, g, h');
  }

  lemma KindsRoots(m: MarkState, g: Globals, h': Heap)
    requires Alive(m, g) && SameKinds(m.h, h') && Intact(h', m.c, g.cw, g.fixed)
    ensures Alive(m.(h := h'), g)
  {
    hide Intact;
  }

  // ---------------------------------------------------------------------
  // Writes while marking

  /** After the write the invariant holds if o was pending anyway, or if the
      value it got is marked. */
  lemma PutTri(m: MarkState, cw: bool, P: set<Ref>, o: Ref, f: Field, v: Val)
    requires MarkInv(m, cw, P) && o in m.h && forall u :: u in m.h && m.h[u].Open? ==> u in P
    requires o in P || o in m.gray || !Marked(m.c, o) || (m.c[o] == Black && (v.Ptr? ==> Marked(m.c, v.r)))
    ensures Tri(Put(m.h, o, f, v), m.c, m.wk, m.wv, m.gray, P)
  {
    hide ListsOK, StacksGray, GrayTables, NoDangling;
    PutKinds(m.h, o, f, v);
    var h' := Put(m.h, o, f, v);
    forall p | p in h' && Marked(m.c, p) && p !in P && p !in m.gray ensures Done(h', m.c, m.wk, m.wv, p) {
      assert Done(m.h, m.c, m.wk, m.wv, p);
      forall r | Keeps(h', m.c, m.wk, m.wv, p, r) ensures Marked(m.c, r) {
        if p == o {
          PutHolds(m.h, o, f, v, o, r);
          assert v != Ptr(r) ==> Keeps(m.h, m.c, m.wk, m.wv, o, r);
        } else {
          assert h'[p] == m.h[p] && !h'[p].Open?;
          assert Keeps(m.h, m.c, m.wk, m.wv, p, r);
        }
      }
    }
  }

  lemma PutMarkInv(m: MarkState, cw: bool, P: set<Ref>, o: Ref, f: Field, v: Val)
    requires MarkInv(m, cw, P) && o in m.h && NoDangling(Put(m.h, o, f, v))
    requires forall u :: u in m.h && m.h[u].Open? ==> u in P
    requires o in P || o in m.gray || !Marked(m.c, o) || (m.c[o] == Black && (v.Ptr? ==> Marked(m.c, v.r)))
    ensures MarkInv(m.(h := Put(m.h, o, f, v)), cw, P)
  {
    PutTri(m, cw, P, o, f, v);
    PutKinds(m.h, o, f, v);
    hide Tri, Put, NoDangling;
    KindsMark(m, m.(h := Put(m.h, o, f, v)), P);
  }

  lemma KindsMark(m: MarkState, m': MarkState, P: set<Ref>)
    requires m.h.Keys == m.c.Keys && ListsOK(m) && StacksGray(m) && GrayTables(m, P) && SameKinds(m.h, m'.h)
               && m' == m.(h := m'.h)
    ensures ListsOK(m') && StacksGray(m') && GrayTables(m', P)
  {
    hide ListsOK, StacksGray, SameKinds, GrayTables;
    KindsLists(m, m');
    KindsStacks(m, m', P);
  }

  lemma KindsLists(m: MarkState, m': MarkState)
    requires m.h.Keys == m.c.Keys && ListsOK(m) && SameKinds(m.h, m'.h) && m' == m.(h := m'.h)
    ensures m'.h.Keys == m'.c.Keys && ListsOK(m')
  {
  }

  lemma KindsStacks(m: MarkState, m': MarkState, P: set<Ref>)
    requires m.h.Keys == m.c.Keys && StacksGray(m) && GrayTables(m, P) && SameKinds(m.h, m'.h) && m' == m.(h := m'.h)
    ensures m'.h.Keys == m'.c.Keys && StacksGray(m') && GrayTables(m', P)
  {
  }

  /** luaC_barrierback: the table becomes gray again. */
  function Back(m: MarkState, o: Ref): MarkState {
    m.(c := m.c[o := Gray], again := [o] + m.again)
  }

  lemma BackMarkInv(m: MarkState, cw: bool, P: set<Ref>, o: Ref)
    requires MarkInv(m, cw, P) && o in m.h && m.h[o].Table? && m.c[o] == Black && o in P
    ensures MarkInv(Back(m, o), cw, P)
  {
    var m' := Back(m, o);
    assert o !in m.gray && o !in m.again && o !in m.weak;
    BackLists(m, o);
    hide ListsOK, StacksGray, GrayTables, NoDangling;
    forall p | p in m.h && Marked(m'.c, p) && p !in P && p !in m.gray ensures Done(m.h, m'.c, m.wk, m.wv, p) {
      assert Done(m.h, m.c, m.wk, m.wv, p);
      forall r | Keeps(m.h, m'.c, m.wk, m.wv, p, r)
          ensures Marked(m'.c, r) { assert Keeps(m.h, m.c, m.wk, m.wv, p, r); }
    }
    assert GrayTables(m', P) by { BackTables(m, P, o); }
  }

  lemma BackLists(m: MarkState, o: Ref)
    requires m.h.Keys == m.c.Keys && ListsOK(m) && StacksGray(m) && o in m.h && m.h[o].Table? && m.c[o] == Black
    requires o !in m.gray && o !in m.again && o !in m.weak
    ensures ListsOK(Back(m, o)) && StacksGray(Back(m, o))
  {
    assert ListsOK(Back(m, o)) by { hide StacksGray; }
    hide ListsOK;
  }

  lemma BackTables(m: MarkState, P: set<Ref>, o: Ref)
    requires m.h.Keys == m.c.Keys && GrayTables(m, P) && o in m.h && o in P
    ensures GrayTables(Back(m, o), P)
  {
  }

  // ---------------------------------------------------------------------
  // Writes and their barriers keep the invariant

  ghost predicate CanWrite(m: MarkState, g: Globals, o: Ref, f: Field, v: Val) {
    && Inv(m, g) && o in m.h && !m.h[o].Str? && !m.h[o].Open? && (IsLive(m, g, o) || m.h[o].Thread?)
    && LiveVal(m.h, m.c, g.cw, g.fixed, v) && LiveVal(m.h, m.c, g.cw, g.fixed, KeyOf(f))
  }

  function Written(m: MarkState, o: Ref, f: Field, v: Val): MarkState
    requires o in m.h
  {
    m.(h := Put(m.h, o, f, v))
  }

  lemma WrittenCommon(m: MarkState, g: Globals, o: Ref, f: Field, v: Val)
    requires CanWrite(m, g, o, f, v)
    ensures Common(Written(m, o, f, v), g) && SameKinds(m.h, Written(m, o, f, v).h)
  {
    hide PhaseOK;
    PutAlive(m, g, o, f, v);
    PutKinds(m.h, o, f, v);
    hide Put, Alive, Linked;
    KindsLinked(m.h, Written(m, o, f, v).h, g);
  }

  lemma KindsPhase(m: MarkState, g: Globals, m': MarkState)
    requires Inv(m, g) && g.phase != Propagate && SameKinds(m.h, m'.h) && m' == m.(h := m'.h)
    ensures m'.h.Keys == m'.c.Keys && |g.strt| > 0 && PhaseOK(m', g)
  {
    InvKeys(m, g);
    hide Common, StringsSwept, RootsSwept, Rested, SameKinds;
    KindsKept(m, g, m');
    if g.phase == Sweep { KindsSwept(m, g, m'); }
  }

  lemma KindsKept(m: MarkState, g: Globals, m': MarkState)
    requires m.h.Keys == m.c.Keys && |g.strt| > 0 && SameKinds(m.h, m'.h) && m' == m.(h := m'.h)
    ensures m'.h.Keys == m'.c.Keys
    ensures Rested(m.h, m.c, g.cw, g.tmudata) ==> Rested(m'.h, m'.c, g.cw, g.tmudata)
    ensures forall n: nat :: StringsSwept(m.h, m.c, g.cw, |g.strt|, n) ==> StringsSwept(m'.h, m'.c, g.cw, |g.strt|, n)
  {
  }

  lemma KindsSwept(m: MarkState, g: Globals, m': MarkState)
    requires m.h.Keys == m.c.Keys && SameKinds(m.h, m'.h) && m' == m.(h := m'.h)
               && RootsSwept(m.h, m.c, g.cw, g.rootgc, g.sweepgc)
    ensures RootsSwept(m'.h, m'.c, g.cw, g.rootgc, g.sweepgc)
  {
    forall i | 0 <= i < g.sweepgc ensures ObjSwept(m'.h, m'.c, g.cw, g.rootgc[i]) {
      assert ObjSwept(m.h, m.c, g.cw, g.rootgc[i]);
    }
  }

  /** While marking, the written object may have to wait for its barrier. */
  lemma WrittenMark(m: MarkState, g: Globals, o: Ref, f: Field, v: Val, P: set<Ref>)
    requires CanWrite(m, g, o, f, v) && g.phase == Propagate && Common(Written(m, o, f, v), g)
    requires Pending(m, g) <= P
    requires o in P || m.c[o] != Black || (v.Ptr? ==> Marked(m.c, v.r))
    ensures MarkInv(Written(m, o, f, v), g.cw, P)
  {
    hide Common, MarkInv, NoDangling, Written;
    InvKeys(m, g);
    var P0 := Pending(m, g);
    assert forall u :: u in m.h && m.h[u].Open? ==> u in P;
    hide Pending;
    WaitsOrNot(m, g, o);
    MarkInvFacts(m, g.cw, P0);
    MarkInvMono(m, g.cw, P0, P);
    hide PhaseOK;
    WrittenWhite(m, g, o, f, v);
    PutMarkInv(m, g.cw, P, o, f, v);
    WrittenIsPut(m, o, f, v);
  }

  lemma WrittenIsPut(m: MarkState, o: Ref, f: Field, v: Val)
    requires o in m.h
    ensures Written(m, o, f, v) == m.(h := Put(m.h, o, f, v))
  {
  }

  lemma WrittenWhite(m: MarkState, g: Globals, o: Ref, f: Field, v: Val)
    requires o in m.h && Common(Written(m, o, f, v), g) && OneWhite(m.c, g.cw)
    ensures NoDangling(Put(m.h, o, f, v))
  {
    hide Common, Put, NoDangling;
    ClosedDangling(Written(m, o, f, v), g);
  }

  /** A gray object waits for a traversal. */
  lemma WaitsOrNot(m: MarkState, g: Globals, o: Ref)
    requires Inv(m, g) && g.phase == Propagate && o in m.h && o in m.c && (!m.h[o].Str?)
    ensures m.c[o] == Gray ==> o in m.gray || o in Pending(m, g)
  {
    hide Common, Tri, NoDangling;
    assert ListsOK(m) && StacksGray(m) && GrayTables(m, Pending(m, g));
  }

  /** The write needs no barrier. */
  lemma WriteNoBarrier(m: MarkState, g: Globals, o: Ref, f: Field, v: Val)
    requires CanWrite(m, g, o, f, v) && (m.c[o] != Black || (v.Ptr? ==> Marked(m.c, v.r)))
    ensures Inv(Written(m, o, f, v), g)
  {
    WrittenCommon(m, g, o, f, v);
    InvKeys(m, g);
    hide Common, MarkInv, Written;
    var m' := Written(m, o, f, v);
    if g.phase == Propagate {
      WrittenMark(m, g, o, f, v, Pending(m, g));
      WrittenPending(m, g, o, f, v);
    } else {
      WrittenOnlyHeap(m, o, f, v);
      KindsPhase(m, g, m');
    }
  }

  lemma WrittenOnlyHeap(m: MarkState, o: Ref, f: Field, v: Val)
    requires o in m.h
    ensures var m' := Written(m, o, f, v); m' == m.(h := m'.h)
  {
  }

  lemma WrittenPending(m: MarkState, g: Globals, o: Ref, f: Field, v: Val)
    requires o in m.h
    ensures Pending(Written(m, o, f, v), g) == Pending(m, g)
  {
    PutKinds(m.h, o, f, v);
    hide Put;
  }

  /** Outside the mark phase a write alone keeps the invariant. */
  lemma WrittenInv(m: MarkState, g: Globals, o: Ref, f: Field, v: Val)
    requires CanWrite(m, g, o, f, v) && g.phase != Propagate
    ensures Inv(Written(m, o, f, v), g) && Written(m, o, f, v).c == m.c
  {
    WrittenCommon(m, g, o, f, v);
    hide Common;
    WrittenOnlyHeap(m, o, f, v);
    KindsPhase(m, g, Written(m, o, f, v));
  }

  /** luaC_barrierf outside the mark phase: the object becomes white. */
  lemma WriteWhiten(m: MarkState, g: Globals, o: Ref, f: Field, v: Val)
    requires CanWrite(m, g, o, f, v) && g.phase != Propagate && IsLive(m, g, o)
    ensures Inv(Whiten(Written(m, o, f, v), g.cw, o), g)
  {
    hide Inv;
    WrittenInv(m, g, o, f, v);
    var m1 := Written(m, o, f, v);
    assert IsLive(m1, g, o);
    hide Written;
    if Sweeping(g) { WhitenInv(m1, g, o); } else { WhitenRested(m1, g, o); }
  }

  lemma WhitenRested(m: MarkState, g: Globals, o: Ref)
    requires Inv(m, g) && (g.phase == Pause || g.phase == Finalize) && IsLive(m, g, o)
    ensures Inv(Whiten(m, g.cw, o), g)
  {
    WhitenAlive(m, g, o);
    hide Alive, Linked;
    InvKeys(m, g);
  }

  // The back barrier

  /** Colours may change as long as nothing dies or comes to life. */
  lemma RecolourIntact(m: MarkState, g: Globals, m': MarkState)
    requires Alive(m, g) && m'.h == m.h && m'.c.Keys == m.c.Keys && forall x :: IsLive(m', g, x) == IsLive(m, g, x)
    ensures Intact(m'.h, m'.c, g.cw, g.fixed) && RootsLive(m'.h, m'.c, g.cw, g.fixed, g.R)
  {
    hide Refers, FixedOK, TmuOK, NoBlackStacks;
    assert forall x :: Live(m'.h, m'.c, g.cw, g.fixed, x) == IsLive(m', g, x);
    assert forall x :: Live(m.h, m.c, g.cw, g.fixed, x) == IsLive(m, g, x);
    hide IsLive, Live;
  }

  lemma BackAlive(m: MarkState, g: Globals, o: Ref)
    requires Common(m, g) && o in m.h && m.h[o].Table? && m.c[o] == Black
    ensures Common(Back(m, o), g)
  {
    var m' := Back(m, o);
    TmuFacts(m.h, g.rootgc, g.tmudata);
    hide Linked, Intact, RootsLive;
    assert forall x :: IsLive(m', g, x) == IsLive(m, g, x);
    RecolourIntact(m, g, m');
  }

  /** A table is black only in a cycle. */
  lemma BlackTable(m: MarkState, g: Globals, o: Ref)
    requires Inv(m, g) && o in m.h && o in m.c && m.h[o].Table? && m.c[o] == Black
    ensures g.phase == Propagate || Sweeping(g)
  {
    TmuFacts(m.h, g.rootgc, g.tmudata);
    hide Common;
  }

  lemma BackPhase(m: MarkState, g: Globals, o: Ref)
    requires m.h.Keys == m.c.Keys && |g.strt| > 0 && PhaseOK(m, g) && Sweeping(g) && o in m.h && m.h[o].Table?
               && m.c[o] == Black
    ensures Back(m, o).h.Keys == Back(m, o).c.Keys && PhaseOK(Back(m, o), g)
  {
    hide Bucket;
    var m' := Back(m, o);
    if g.phase == Sweep {
      forall i | 0 <= i < g.sweepgc ensures ObjSwept(m'.h, m'.c, g.cw, g.rootgc[i]) {
        assert ObjSwept(m.h, m.c, g.cw, g.rootgc[i]);
      }
    }
  }

  lemma WriteBack(m: MarkState, g: Globals, o: Ref, f: Field, v: Val)
    requires CanWrite(m, g, o, f, v) && m.h[o].Table? && o in m.c && m.c[o] == Black
    ensures Inv(Back(Written(m, o, f, v), o), g)
  {
    hide Common, MarkInv, PhaseOK, Back;
    InvKeys(m, g);
    BlackTable(m, g, o);
    WrittenCommon(m, g, o, f, v);
    var m1 := Written(m, o, f, v);
    assert m1.c == m.c && o in m1.h && m1.h[o].Table?;
    BackAlive(m1, g, o);
    if g.phase == Propagate {
      WriteBackMark(m, g, o, f, v);
    } else {
      WrittenInv(m, g, o, f, v);
      InvKeys(m1, g);
      hide Written;
      BackPhase(m1, g, o);
    }
  }

  lemma WriteBackMark(m: MarkState, g: Globals, o: Ref, f: Field, v: Val)
    requires CanWrite(m, g, o, f, v) && m.h[o].Table? && o in m.c && m.c[o] == Black && g.phase == Propagate
    requires Common(Written(m, o, f, v), g) && Common(Back(Written(m, o, f, v), o), g)
    ensures Inv(Back(Written(m, o, f, v), o), g)
  {
    hide Common, MarkInv, Pending;
    var m1, P := Written(m, o, f, v), Pending(m, g) + {o};
    WrittenMark(m, g, o, f, v, P);
    assert o in m1.h && m1.h[o].Table? && m1.c == m.c;
    BackMarkInv(m1, g.cw, P, o);
    WrittenPending(m, g, o, f, v);
    assert Pending(Back(m1, o), g) == P by { BackPending(m1, g, o); }
    hide PhaseOK;
    RootsMarkedNow(m, g);
    MarkPhase2(Back(m1, o), g);
  }

  lemma BackPending(m: MarkState, g: Globals, o: Ref)
    requires o in m.h
    ensures Pending(Back(m, o), g) == Pending(m, g) + {o}
  {
  }

  lemma RootsMarkedNow(m: MarkState, g: Globals)
    requires Inv(m, g) && g.phase == Propagate
    ensures Marked(m.c, g.R.main) && (g.R.registry.Ptr? ==> Marked(m.c, g.R.registry.r))
  {
    hide Common, MarkInv;
  }

  lemma MarkPhase2(m: MarkState, g: Globals)
    requires Common(m, g) && g.phase == Propagate && MarkInv(m, g.cw, Pending(m, g))
    requires Marked(m.c, g.R.main) && (g.R.registry.Ptr? ==> Marked(m.c, g.R.registry.r))
    ensures Inv(m, g)
  {
    hide MarkInv, Alive, Linked, Pending, Marked;
  }

  /** The forward barrier in the mark phase has marked the value. */
  lemma WriteForward(m: MarkState, g: Globals, o: Ref, f: Field, v: Val, m2: MarkState)
    requires CanWrite(m, g, o, f, v) && g.phase == Propagate && o in m.c && m.c[o] == Black && !m.h[o].Table?
    requires Common(Written(m, o, f, v), g)
    requires MarkInv(m2, g.cw, Pending(m, g) + {o}) && Progress(Written(m, o, f, v).h, m.c, m2.h, m2.c)
    requires m2 == Written(m, o, f, v).(c := m2.c, gray := m2.gray) && (v.Ptr? ==> Marked(m2.c, v.r))
    ensures Inv(m2, g)
  {
    hide Common, MarkInv, Progress, PSet;
    PutKinds(m.h, o, f, v);
    hide Put;
    var P := Pending(m, g);
    assert o in m2.h && SameKind(m.h[o], m2.h[o]);
    ProgressFacts(Written(m, o, f, v).h, m.c, m2.h, m2.c);
    RootsMarkedNow(m, g);
    WrittenPending(m, g, o, f, v);
    assert Pending(m2, g) == P by { SamePending(Written(m, o, f, v), m2, g); }
    if o in P {
      assert P + {o} == P;
    } else {
      WasDone(m, g, o);
      forall x | HoldsPlain(m2.h, m2.h[o], x) ensures Marked(m2.c, x) {
        PutHolds(m.h, o, f, v, o, x);
      }
      DropPending(m2, g.cw, P + {o}, o);
      assert P + {o} - {o} == P;
    }
    MarkCommon(Written(m, o, f, v), g, m2, g, P);
    MarkPhase2(m2, g);
  }

  lemma SamePending(m1: MarkState, m2: MarkState, g: Globals)
    requires m2.h == m1.h && m2.again == m1.again && m2.weak == m1.weak
    ensures Pending(m2, g) == Pending(m1, g)
  {
  }

  lemma WasDone(m: MarkState, g: Globals, o: Ref)
    requires Inv(m, g) && g.phase == Propagate && o in m.h && o in m.c && m.c[o] == Black && o !in Pending(m, g)
    ensures forall x :: Holds(m.h, o, x) ==> Marked(m.c, x)
  {
    hide Common, StacksGray, NoDangling;
    assert o !in m.gray;
    assert Done(m.h, m.c, m.wk, m.wv, o);
    assert forall x :: Holds(m.h, o, x) ==> Keeps(m.h, m.c, m.wk, m.wv, o, x);
  }

  // ---------------------------------------------------------------------
  // What a write does

  /** All elements but the one at i are the same. */
  predicate OnlyAt<T(==)>(s: seq<T>, s': seq<T>, i: nat) {
    |s'| == |s| && forall j :: 0 <= j < |s| && j != i ==> s'[j] == s[j]
  }

  /** Only the object o changes, and of it only the field. */
  lemma WriteTable(h: Heap, o: Ref, i: nat, k: Val, v: Val, tm: Tm)
    requires o in h && h[o].Table?
    ensures Put(h, o, Meta, v) == h[o := Table(v, h[o].slots, h[o].node, h[o].tm)]
    ensures Put(h, o, Mode(tm), v) == h[o := Table(h[o].meta, h[o].slots, h[o].node, tm)]
    ensures i < |h[o].slots| ==>
              var t := Put(h, o, Slot(i), v)[o];
              t == h[o].(slots := t.slots) && OnlyAt(h[o].slots, t.slots, i) && t.slots[i] == v
    ensures Put(h, o, Slot(|h[o].slots|), v)[o] == h[o].(slots := h[o].slots + [v])
    ensures i < |h[o].node| && h[o].node[i].key == Key(k) ==>
              var t := Put(h, o, EntryVal(i, k), v)[o];
              t == h[o].(node := t.node) && OnlyAt(h[o].node, t.node, i) && t.node[i] == Entry(Key(k), v)
    ensures i < |h[o].node| && h[o].node[i].val == Nil ==>
              var t := Put(h, o, NewKey(i), v)[o];
              t == h[o].(node := t.node) && OnlyAt(h[o].node, t.node, i) && t.node[i] == Entry(Key(v), Nil)
  {
  }

  lemma WriteOthers(h: Heap, o: Ref, i: nat, v: Val)
    requires o in h
    ensures h[o].Udata? ==> Put(h, o, Meta, v)[o] == Udata(v, h[o].env) && Put(h, o, Env, v)[o] == Udata(h[o].meta, v)
    ensures h[o].Closed? ==> Put(h, o, Value, v)[o] == Closed(v)
    ensures h[o].Closure? && i < |h[o].refs| ==> Put(h, o, Item(i), v)[o] == Closure(h[o].refs[i := v])
    ensures h[o].Proto? && i < |h[o].refs| ==> Put(h, o, Item(i), v)[o] == Proto(h[o].refs[i := v])
    ensures h[o].Thread? ==> Put(h, o, GlobalTable, v)[o] == h[o].(globals := v)
    ensures h[o].Thread? && i < |h[o].stack| ==> Put(h, o, Stack(i), v)[o] == h[o].(stack := h[o].stack[i := v])
    ensures h[o].Thread? ==> Put(h, o, Stack(|h[o].stack|), v)[o] == h[o].(stack := h[o].stack + [v])
  {
  }

  /** What a write puts into an object, the object refers to: a key as soon as
      it has a value. */
  lemma WrittenRefers(h: Heap, o: Ref, f: Field, r: Ref)
    requires o in h && Put(h, o, f, Ptr(r)) != Put(h, o, f, Nil)
    ensures if f.NewKey? then GcHeap.Holds(Put(h, o, f, Ptr(r)), o, r) else Refers(Put(h, o, f, Ptr(r)), o, r)
    ensures f.EntryVal? && f.key.Ptr? ==> Refers(Put(h, o, f, Ptr(r)), o, f.key.r)
  {
    var t, t' := Put(h, o, f, Ptr(r))[o], Put(h, o, f, Nil)[o];
    assert t != t';
    if f.NewKey? { assert t.node[f.i] == Entry(Key(Ptr(r)), Nil) && EntryHolds(t.node[f.i], r); }
    if f.EntryVal? { assert t.node[f.i] == Entry(Key(f.key), Ptr(r)) && EntryRefers(t.node[f.i], r); }
    if f.EntryVal? && f.key.Ptr? { assert EntryRefers(t.node[f.i], f.key.r); }
    if f.Slot? { assert t.slots[f.i] == Ptr(r); }
    if f.Stack? { assert t.stack[f.i] == Ptr(r); }
    if f.Item? { assert t.refs[f.i] == Ptr(r); }
  }

  lemma WriteElsewhere(h: Heap, o: Ref, f: Field, v: Val, x: Ref)
    requires o in h && x in h && x != o
    ensures Put(h, o, f, v).Keys == h.Keys && Put(h, o, f, v)[x] == h[x]
  {
  }
}
