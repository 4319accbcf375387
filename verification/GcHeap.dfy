/** The heap of a Lua state as its garbage collector sees it. */
module GcHeap {

  datatype Ref = Addr(n: int)

  /** A value: only pointers are collectable. */
  datatype Val = Prim(n: int) | Ptr(r: Ref)

  const Nil := Prim(0)

  /** The key of a table entry; LUA_TDEADKEY is not a reference. */
  datatype Key = Key(v: Val) | DeadKey

  datatype Entry = Entry(key: Key, val: Val)

  /** What the fields __mode and __gc of a table say when it is a metatable. */
  datatype Tm = Tm(weakKey: bool, weakVal: bool, gc: bool)

  datatype Obj =
    | Str(hash: nat)
    | Udata(meta: Val, env: Val)
    | Open(thread: Ref, level: nat)
    | Closed(v: Val)
    | Closure(refs: seq<Val>)
    | Proto(refs: seq<Val>)
    | Table(meta: Val, slots: seq<Val>, node: seq<Entry>, tm: Tm)
    | Thread(globals: Val, stack: seq<Val>, openupval: seq<Ref>)

  datatype Colour = White(bit: bool) | Gray | Black

  type Heap = map<Ref, Obj>
  type Marks = map<Ref, Colour>

  /** Objects that are traversed from a gray list. */
  predicate Grayable(o: Obj) {
    o.Closure? || o.Proto? || o.Table? || o.Thread?
  }

  // ---------------------------------------------------------------------
  // References

  /** The current value of an upvalue: while it is open, a stack slot. */
  function UpValue(h: Heap, o: Obj): Val
    requires o.Open? || o.Closed?
  {
    if o.Closed? then o.v
    else if o.thread in h && h[o.thread].Thread? && o.level < |h[o.thread].stack| then h[o.thread].stack[o.level]
    else Nil
  }

  /** The entry refers to r: an entry without a value refers to nothing. */
  predicate EntryRefers(e: Entry, r: Ref) {
    e.val != Nil && (e.key == Key(Ptr(r)) || e.val == Ptr(r))
  }

  predicate EntryHolds(e: Entry, r: Ref) {
    e.key == Key(Ptr(r)) || e.val == Ptr(r)
  }

  predicate NodeRefers(node: seq<Entry>, r: Ref) {
    exists e :: e in node && EntryRefers(e, r)
  }

  predicate NodeHolds(node: seq<Entry>, r: Ref) {
    exists e :: e in node && EntryHolds(e, r)
  }

  /** The part of the entries that keeps r alive in a table with these modes. */
  predicate NodeKeeps(node: seq<Entry>, wk: bool, wv: bool, r: Ref) {
    exists e :: e in node && e.val != Nil && ((!wk && e.key == Key(Ptr(r))) || (!wv && e.val == Ptr(r)))
  }

  /** A program that has object o can get at r. */
  predicate Refers(h: Heap, o: Ref, r: Ref)
    requires o in h
  {
    match h[o]
    case Table(meta, slots, node, _) => meta == Ptr(r) || Ptr(r) in slots || NodeRefers(node, r)
    case _ => HoldsPlain(h, h[o], r)
  }

  predicate HoldsPlain(h: Heap, o: Obj, r: Ref) {
    match o
    case Udata(meta, env) => meta == Ptr(r) || env == Ptr(r)
    case Open(_, _) => UpValue(h, o) == Ptr(r)
    case Closed(v) => v == Ptr(r)
    case Closure(refs) => Ptr(r) in refs
    case Proto(refs) => Ptr(r) in refs
    case Thread(globals, stack, _) => globals == Ptr(r) || Ptr(r) in stack
    case _ => false
  }

  /** o holds a pointer to r; the keys of empty entries count. */
  predicate Holds(h: Heap, o: Ref, r: Ref)
    requires o in h
  {
    match h[o]
    case Table(meta, slots, node, _) => meta == Ptr(r) || Ptr(r) in slots || NodeHolds(node, r)
    case _ => HoldsPlain(h, h[o], r)
  }

  predicate WeakKeys(h: Heap, meta: Val) {
    meta.Ptr? && meta.r in h && h[meta.r].Table? && h[meta.r].tm.weakKey
  }

  predicate WeakVals(h: Heap, meta: Val) {
    meta.Ptr? && meta.r in h && h[meta.r].Table? && h[meta.r].tm.weakVal
  }

  /** A table with this metatable is weak. */
  predicate IsWeak(h: Heap, meta: Val) {
    WeakKeys(h, meta) || WeakVals(h, meta)
  }

  /** No black table is weak: the weak ones were left gray. */
  ghost predicate BlackStrong(h: Heap, c: Marks) {
    forall o :: o in h && h[o].Table? && o in c && c[o] == Black ==> !IsWeak(h, h[o].meta)
  }

  /** What a traversal of o has to mark: a table that stays gray was traversed
      as a weak table with modes wk, wv. */
  predicate Keeps(h: Heap, c: Marks, wk: set<Ref>, wv: set<Ref>, o: Ref, r: Ref)
    requires o in h && o in c
  {
    if h[o].Table? && c[o] != Black then TableKeeps(h[o], o in wk, o in wv, r) else Holds(h, o, r)
  }

  predicate TableKeeps(t: Obj, wk: bool, wv: bool, r: Ref)
    requires t.Table?
  {
    t.meta == Ptr(r) || (!wv && Ptr(r) in t.slots) || NodeKeeps(t.node, wk, wv, r)
  }

  /** r is marked. */
  predicate Marked(c: Marks, r: Ref) {
    r in c && !c[r].White?
  }

  /** All that o keeps alive is marked. */
  ghost predicate Done(h: Heap, c: Marks, wk: set<Ref>, wv: set<Ref>, o: Ref)
    requires o in h && o in c
  {
    forall r :: Keeps(h, c, wk, wv, o, r) ==> Marked(c, r)
  }

  /** The marking invariant: every marked object is waiting for a traversal
      or has been traversed. */
  ghost predicate Tri(h: Heap, c: Marks, wk: set<Ref>, wv: set<Ref>, gray: seq<Ref>, pending: set<Ref>)
    requires h.Keys == c.Keys
  {
    forall o :: o in h && Marked(c, o) ==> o in gray || o in pending || Done(h, c, wk, wv, o)
  }

  // ---------------------------------------------------------------------
  // The effect of marking

  /** How reallymarkobject leaves an object it has marked. */
  ghost predicate JustMarked(h: Heap, c: Marks, gray: seq<Ref>, r: Ref)
    requires r in h && r in c
  {
    && c[r] == (if h[r].Udata? || h[r].Closed? then Black else Gray)
    && (Grayable(h[r]) ==> r in gray)
    && (!Grayable(h[r]) ==> forall x :: HoldsPlain(h, h[r], x) ==> Marked(c, x))
  }

  /** Marking only turns white objects into marked ones. */
  ghost predicate Marking(h: Heap, c0: Marks, gray0: seq<Ref>, c: Marks, gray: seq<Ref>) {
    && c.Keys == c0.Keys == h.Keys
    && (forall r :: r in c0 ==> c[r] == c0[r] || (c0[r].White? && JustMarked(h, c, gray, r)))
    && (forall r :: r in gray0 ==> r in gray)
    && (forall r :: r in gray ==> r in gray0 || (r in c0 && c0[r].White? && !c[r].White? && Grayable(h[r])))
    && (NoDup(gray0) && OnlyMarked(c0, gray0) ==> NoDup(gray))
    && (Whites(c) == Whites(c0) ==> gray == gray0)
  }

  predicate NoDup(s: seq<Ref>) {
    forall i, j :: 0 <= i < j < |s| ==> s[i] != s[j]
  }

  predicate OnlyMarked(c: Marks, s: seq<Ref>) {
    forall r :: r in s ==> Marked(c, r)
  }

  lemma MarkingRefl(h: Heap, c: Marks, gray: seq<Ref>)
    requires c.Keys == h.Keys
    ensures Marking(h, c, gray, c, gray)
  {
  }

  lemma MarkingTrans(h: Heap, c0: Marks, g0: seq<Ref>, c1: Marks, g1: seq<Ref>, c2: Marks, g2: seq<Ref>)
    requires Marking(h, c0, g0, c1, g1) && Marking(h, c1, g1, c2, g2)
    ensures Marking(h, c0, g0, c2, g2)
  {
    MarkingFacts(h, c0, g0, c1, g1);
    MarkingFacts(h, c1, g1, c2, g2);
    hide Whites;
    forall r | r in c0 ensures c2[r] == c0[r] || (c0[r].White? && JustMarked(h, c2, g2, r)) {
      if c1[r] != c0[r] { JustMarkedLater(h, c1, g1, c2, g2, r); }
    }
  }

  lemma JustMarkedLater(h: Heap, c1: Marks, g1: seq<Ref>, c2: Marks, g2: seq<Ref>, r: Ref)
    requires Marking(h, c1, g1, c2, g2) && r in c1 && JustMarked(h, c1, g1, r)
    ensures JustMarked(h, c2, g2, r)
  {
  }

  /** Marking keeps the invariant. */
  lemma MarkingTri(h: Heap, c0: Marks, g0: seq<Ref>, c: Marks, g: seq<Ref>, wk: set<Ref>, wv: set<Ref>,
                   pending: set<Ref>)
    requires Marking(h, c0, g0, c, g) && Tri(h, c0, wk, wv, g0, pending)
    ensures Tri(h, c, wk, wv, g, pending)
  {
    forall o | o in h && Marked(c, o) ensures o in g || o in pending || Done(h, c, wk, wv, o) {
      if c[o] == c0[o] {
        assert Marked(c0, o);
        if Done(h, c0, wk, wv, o) {
          forall r | Keeps(h, c, wk, wv, o, r) ensures Marked(c, r) { assert Keeps(h, c0, wk, wv, o, r); }
        }
      } else {
        assert JustMarked(h, c, g, o);
      }
    }
  }

  ghost function Whites(c: Marks): set<Ref> {
    set r | r in c && c[r].White?
  }

  lemma MarkingFacts(h: Heap, c0: Marks, g0: seq<Ref>, c: Marks, g: seq<Ref>)
    requires Marking(h, c0, g0, c, g)
    ensures Whites(c) <= Whites(c0) && c.Keys == h.Keys
    ensures forall r :: Marked(c0, r) ==> Marked(c, r) && c[r] == c0[r]
    ensures Whites(c) == Whites(c0) ==> g == g0
  {
  }

  /** What marking means for colours and for the gray list. */
  lemma MarkingColours(h: Heap, c0: Marks, g0: seq<Ref>, c: Marks, g: seq<Ref>)
    requires Marking(h, c0, g0, c, g) && OnlyMarked(c0, g0) && NoDup(g0)
    ensures c.Keys == c0.Keys == h.Keys && NoDup(g)
    ensures forall r :: Marked(c0, r) ==> c[r] == c0[r]
    ensures forall r :: r in c && c[r].White? ==> c0[r] == c[r]
    ensures forall r :: Marked(c, r) && !Marked(c0, r) ==>
              c[r] == (if h[r].Udata? || h[r].Closed? then Black else Gray) && (Grayable(h[r]) ==> r in g)
    ensures forall r :: r in g0 ==> r in g
    ensures forall r :: r in g && r !in g0 ==> Marked(c, r) && !Marked(c0, r) && Grayable(h[r])
  {
    forall r | Marked(c, r) && !Marked(c0, r)
      ensures c[r] == (if h[r].Udata? || h[r].Closed? then Black else Gray) && (Grayable(h[r]) ==> r in g)
    {
      assert JustMarked(h, c, g, r);
    }
  }

  /** An object of the other kinds is marked together with what it holds. */
  lemma MarkedPlain(h: Heap, c0: Marks, g0: seq<Ref>, o: Ref, c1: Marks, c2: Marks, g: seq<Ref>, c: Marks)
    requires o in h && o in c0 && c0[o].White? && !Grayable(h[o]) && c1.Keys == c0.Keys == h.Keys
    requires c1 == c0[o := c1[o]] && !c1[o].White? && Marking(h, c1, g0, c2, g)
    requires forall x :: HoldsPlain(h, h[o], x) ==> Marked(c2, x)
    requires c.Keys == h.Keys && c[o] == (if h[o].Udata? || h[o].Closed? then Black else Gray)
    requires forall r :: r in c && r != o ==> c[r] == c2[r]
    ensures Marking(h, c0, g0, c, g) && Marked(c, o)
  {
    hide HoldsPlain;
    forall r | r in c0 ensures c[r] == c0[r] || (c0[r].White? && JustMarked(h, c, g, r)) {
      if r != o && c2[r] != c1[r] { assert JustMarked(h, c2, g, r); }
    }
    assert OnlyMarked(c0, g0) ==> OnlyMarked(c1, g0);
    assert o in Whites(c0) && o !in Whites(c);
  }

  lemma MarkedGrayable(h: Heap, c0: Marks, g0: seq<Ref>, o: Ref)
    requires o in h && c0.Keys == h.Keys && c0[o].White? && Grayable(h[o])
    ensures Marking(h, c0, g0, c0[o := Gray], [o] + g0) && Marked(c0[o := Gray], o)
  {
    assert !Marked(c0, o);
    assert OnlyMarked(c0, g0) ==> o !in g0;
    assert o in Whites(c0) && o !in Whites(c0[o := Gray]);
  }

  // ---------------------------------------------------------------------
  // Traversal of tables

  /** removeentry on an empty entry */
  function TrimEntry(e: Entry): Entry {
    if e.val == Nil && e.key.Key? && e.key.v.Ptr? then Entry(DeadKey, Nil) else e
  }

  function TrimNode(node: seq<Entry>): (r: seq<Entry>)
    ensures |r| == |node| && forall i :: 0 <= i < |node| ==> r[i] == TrimEntry(node[i])
  {
    seq(|node|, i requires 0 <= i < |node| => TrimEntry(node[i]))
  }

  /** o is a table without keys in its empty entries; else nothing changed. */
  ghost predicate Trimmed(h0: Heap, h: Heap, o: Ref) {
    && o in h0 && h0[o].Table?
    && (h == h0 || h == h0[o := h0[o].(node := TrimNode(h0[o].node))])
  }

  lemma TrimNodeRefers(node: seq<Entry>, x: Ref)
    ensures NodeRefers(TrimNode(node), x) == NodeRefers(node, x)
    ensures NodeHolds(TrimNode(node), x) == NodeRefers(node, x)
    ensures forall wk, wv :: NodeKeeps(TrimNode(node), wk, wv, x) == NodeKeeps(node, wk, wv, x)
  {
    var t := TrimNode(node);
    forall e | e in node ensures TrimEntry(e) in t {
      var i :| 0 <= i < |node| && node[i] == e;
      assert t[i] == TrimEntry(e);
    }
    forall e | e in t ensures exists e0 :: e0 in node && e == TrimEntry(e0) {
      var i :| 0 <= i < |t| && t[i] == e;
      assert node[i] in node;
    }
  }

  lemma TrimmedRefers(h0: Heap, h: Heap, o: Ref)
    requires Trimmed(h0, h, o)
    ensures h.Keys == h0.Keys
    ensures forall p, x :: p in h0 ==> Refers(h, p, x) == Refers(h0, p, x)
    ensures forall p, x :: p in h0 && p != o ==> Holds(h, p, x) == Holds(h0, p, x)
    ensures forall p: Obj, x :: HoldsPlain(h, p, x) == HoldsPlain(h0, p, x)
  {
    forall x ensures NodeRefers(h[o].node, x) == NodeRefers(h0[o].node, x) { TrimNodeRefers(h0[o].node, x); }
  }

  lemma TrimmedMarking(h0: Heap, h: Heap, o: Ref, c0: Marks, g0: seq<Ref>, c: Marks, g: seq<Ref>)
    requires Trimmed(h0, h, o) && Marking(h0, c0, g0, c, g)
    ensures Marking(h, c0, g0, c, g)
  {
    TrimmedRefers(h0, h, o);
    hide HoldsPlain;
    forall r | r in c0 ensures c[r] == c0[r] || (c0[r].White? && JustMarked(h, c, g, r)) {
      if c[r] != c0[r] { assert JustMarked(h0, c, g, r); }
    }
  }

  lemma EntriesRefer(h: Heap, o: Ref)
    requires o in h && h[o].Table?
    ensures forall e, x :: e in h[o].node && EntryRefers(e, x) ==> Refers(h, o, x)
  {
  }

  lemma KeepsFirst(node: seq<Entry>, i: nat, wk: bool, wv: bool)
    requires i <= |node|
    ensures i == |node| ==> forall x :: !NodeKeeps(node[i..], wk, wv, x)
    ensures i < |node| ==> forall x :: NodeKeeps(node[i..], wk, wv, x) ==>
      NodeKeeps(node[i + 1..], wk, wv, x) ||
      (node[i].val != Nil && ((!wk && node[i].key == Key(Ptr(x))) || (!wv && node[i].val == Ptr(x))))
  {
    if i < |node| { assert node[i..] == [node[i]] + node[i + 1..]; }
  }

  lemma KeepsAt(node: seq<Entry>, i: nat, wk: bool, wv: bool)
    requires i < |node| && node[i].val != Nil
    ensures forall x :: (!wk && node[i].key == Key(Ptr(x))) || (!wv && node[i].val == Ptr(x)) ==>
                          NodeKeeps(node, wk, wv, x)
  {
    assert node[i] in node;
  }

  lemma TableRefers(h: Heap, o: Ref)
    requires o in h && h[o].Table?
    ensures forall x :: h[o].meta == Ptr(x) || Ptr(x) in h[o].slots ==> Refers(h, o, x)
  {
  }
}
