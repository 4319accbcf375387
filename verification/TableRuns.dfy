/** Whole runs of a Lua table: any sequence of reads and writes agrees with a
    finite map, and a traversal visits every live key once. */
module TableRuns {
  import opened Options
  import opened Powers
  import opened TableHash
  import opened TableSize
  import opened LuaTable

  datatype Op = OpGet(k: Key) | OpSet(k: Key, v: Val)

  datatype Reply = Value(v: Val) | Status(r: SetResult)

  // ---------------------------------------------------------------------
  // The reference: a finite map without nil

  function ValueAt(m: map<Key, int>, k: Key): Val {
    if k in m then Val(m[k]) else Nil
  }

  function Update(m: map<Key, int>, k: Key, v: Val): map<Key, int> {
    if v == Nil then m - {k} else m[k := v.id]
  }

  function ReplyOf(m: map<Key, int>, op: Op): Reply {
    match op
    case OpGet(k) => Value(ValueAt(m, k))
    case OpSet(k, v) => Status(if k == KNil then NilIndex else if k == KNaN then NaNIndex else Done)
  }

  function After(m: map<Key, int>, op: Op): map<Key, int> {
    if op.OpSet? && op.k != KNil && op.k != KNaN then Update(m, op.k, op.v) else m
  }

  /** The map after the first n operations on an empty one. */
  function MapAfter(ops: seq<Op>, n: nat): map<Key, int>
    requires n <= |ops|
  {
    if n == 0 then map[] else After(MapAfter(ops, n - 1), ops[n - 1])
  }

  /** No operation of a run from the i-th to before the n-th sets k. */
  ghost predicate NotSet(ops: seq<Op>, i: nat, n: nat, k: Key) {
    forall j :: i <= j < n && j < |ops| ==> !(ops[j].OpSet? && ops[j].k == k)
  }

  /** A read gives what the last write of the key wrote, or nil. */
  lemma {:induction false} LastWrite(ops: seq<Op>, i: nat, n: nat, k: Key)
    requires i <= n <= |ops| && NotSet(ops, i, n, k) && k != KNil && k != KNaN
    ensures i > 0 && ops[i - 1].OpSet? && ops[i - 1].k == k ==>
              ReplyOf(MapAfter(ops, n), OpGet(k)) == Value(ops[i - 1].v)
    ensures i == 0 ==> ReplyOf(MapAfter(ops, n), OpGet(k)) == Value(Nil)
    decreases n
  {
    if i < n { LastWrite(ops, i, n - 1, k); }
  }

  /** Writes to nil and NaN fail and change nothing; reads find nothing there. */
  lemma {:induction false} BadKeys(ops: seq<Op>, n: nat, v: Val)
    requires n <= |ops|
    ensures var m := MapAfter(ops, n);
            && ReplyOf(m, OpSet(KNil, v)) == Status(NilIndex) && ReplyOf(m, OpSet(KNaN, v)) == Status(NaNIndex)
            && ReplyOf(m, OpGet(KNil)) == Value(Nil) && ReplyOf(m, OpGet(KNaN)) == Value(Nil)
            && After(m, OpSet(KNil, v)) == m && After(m, OpSet(KNaN, v)) == m
    ensures forall k :: k != KNil && k != KNaN ==> ReplyOf(MapAfter(ops, n), OpSet(k, v)) == Status(Done)
    decreases n
  {
    if n > 0 { BadKeys(ops, n - 1, v); }
  }

  ghost predicate Agrees(t: Table, m: map<Key, int>)
    reads t
  {
    t.Valid() && forall k :: t.Lookup(k) == ValueAt(m, k)
  }

  /** Every run on a new table answers as the map does. It can only stop early
      with "table overflow", and then the table holds at least 2^26 keys. */
  method RunOps(h: Hash, ops: seq<Op>) returns (replies: seq<Reply>, t: Table)
    ensures |replies| <= |ops|
    ensures forall i :: 0 <= i < |replies| ==> replies[i] == ReplyOf(MapAfter(ops, i), ops[i])
    ensures |replies| == |ops| ==> Agrees(t, MapAfter(ops, |ops|))
    ensures |replies| < |ops| ==> |MapAfter(ops, |replies|)| >= Pow2(MAXBITS)
  {
    hide Pow2, Agrees, ReplyOf, After;
    t := new Table(h);
    NewAgrees(t);
    replies := [];
    while |replies| < |ops|
      invariant fresh(t) && |replies| <= |ops| && Agrees(t, MapAfter(ops, |replies|))
      invariant forall i :: 0 <= i < |replies| ==> replies[i] == ReplyOf(MapAfter(ops, i), ops[i])
    {
      var op := ops[|replies|];
      var reply := RunOne(t, op, MapAfter(ops, |replies|));
      if reply == Status(Overflow) { return; }
      replies := replies + [reply];
    }
  }

  lemma NewAgrees(t: Table)
    requires t.Valid() && forall k :: t.Lookup(k) == Nil
    ensures Agrees(t, map[])
  {
  }

  method RunOne(t: Table, op: Op, ghost m: map<Key, int>) returns (reply: Reply)
    requires Agrees(t, m)
    modifies t
    ensures reply == Status(Overflow) ==> |m| >= Pow2(MAXBITS)
    ensures reply != Status(Overflow) ==> reply == ReplyOf(m, op) && Agrees(t, After(m, op))
  {
    hide Pow2, Table.Valid, Table.Lookup, Table.Counted;
    if op.OpGet? {
      var v := t.Get(op.k);
      reply := Value(v);
    } else {
      LiveCount(t, op.k, m);
      var r := t.Set(op.k, op.v);
      reply := Status(r);
    }
  }

  /** The keys that rehash counts are those of the map and the new one. */
  lemma LiveCount(t: Table, k: Key, m: map<Key, int>)
    requires Agrees(t, m)
    ensures |t.Counted(k)| <= |m| + 1
  {
    hide Table.Lookup, Table.Valid;
    assert t.Counted(k) == m.Keys + {k};
    assert |m.Keys| == |m|;
  }

  // ---------------------------------------------------------------------
  // Traversal

  type Edits = seq<(Key, Val)>

  ghost predicate Visited(seen: seq<(Key, Val)>, k: Key) {
    exists i :: 0 <= i < |seen| && seen[i].0 == k
  }

  /** The value of k, v at first, after the assignments. */
  function Edited(v: Val, k: Key, edits: Edits): Val {
    if edits == [] then v
    else
      var e := edits[|edits| - 1];
      if e.0 == k then e.1 else Edited(v, k, edits[..|edits| - 1])
  }

  /** All values of the table. */
  ghost function Snapshot(t: Table): (s: imap<Key, Val>)
    reads t
    ensures forall k :: k in s && s[k] == t.Lookup(k)
  {
    imap k: Key | true :: t.Lookup(k)
  }

  /** One assignment, if the key has an entry. */
  method Assign(t: Table, k: Key, v: Val)
    requires t.Valid()
    modifies t
    ensures t.Valid() && |t.slots| == |old(t.slots)| && t.SameKeys(old(t.node))
    ensures forall q :: t.Lookup(q) == if q == k && old(t.HasKey(q)) then v else old(t.Lookup(q))
    ensures forall q :: t.HasKey(q) == old(t.HasKey(q))
  {
    hide Table.Valid, Table.Lookup;
    var f := t.FindIndex(k);
    if k != KNil && f.Some? {
      t.EntryLookup(k, f.value);
      t.Insert(k, v);
    } else if k == KNil {
      t.NilHasNone();
    }
  }

  /** Assigns to those keys of the list that have an entry in the table. */
  method ApplyEdits(t: Table, edits: Edits)
    requires t.Valid()
    modifies t
    ensures t.Valid() && |t.slots| == |old(t.slots)| && t.SameKeys(old(t.node))
    ensures forall q :: t.Lookup(q) == if old(t.HasKey(q)) then Edited(old(t.Lookup(q)), q, edits) else old(t.Lookup(q))
    ensures forall q :: t.HasKey(q) == old(t.HasKey(q))
  {
    hide Table.Valid, Table.Lookup, Table.HasKey, Edited;
    ghost var places := iset q | t.HasKey(q);
    ghost var before := Snapshot(t);
    var n := 0;
    forall q ensures Edited(before[q], q, edits[..0]) == before[q] { EditedNone(before[q], q, edits[..0]); }
    while n < |edits|
      invariant n <= |edits| && t.Valid() && |t.slots| == |old(t.slots)| && t.SameKeys(old(t.node))
      invariant forall q :: t.HasKey(q) <==> q in places
      invariant forall q :: t.Lookup(q) == if q in places then Edited(before[q], q, edits[..n]) else before[q]
    {
      forall q ensures Edited(before[q], q, edits[..n + 1])
                       == if q == edits[n].0 then edits[n].1 else Edited(before[q], q, edits[..n]) {
        EditedNext(before[q], q, edits, n);
      }
      Assign(t, edits[n].0, edits[n].1);
      n := n + 1;
    }
    assert edits[..n] == edits;
  }

  lemma EditedNone(v: Val, k: Key, edits: Edits)
    requires edits == []
    ensures Edited(v, k, edits) == v
  {
  }

  lemma EditedNext(v: Val, k: Key, edits: Edits, n: nat)
    requires n < |edits|
    ensures Edited(v, k, edits[..n + 1]) == if k == edits[n].0 then edits[n].1 else Edited(v, k, edits[..n])
  {
    assert edits[..n + 1][..n] == edits[..n];
  }

  /** The key had a value at every moment. */
  ghost predicate AlwaysLive(H: seq<imap<Key, Val>>, k: Key) {
    forall i :: 0 <= i < |H| ==> k in H[i] && H[i][k] != Nil
  }

  /** The values before and after the assignments between two steps. */
  ghost predicate NextValues(h0: imap<Key, Val>, h: imap<Key, Val>, edits: Edits, places: iset<Key>) {
    forall k :: k in h0 && k in h && h[k] == if k in places then Edited(h0[k], k, edits) else h0[k]
  }

  /** The assignments after step i. */
  function EditsAt(edits: seq<Edits>, i: nat): Edits {
    if i < |edits| then edits[i] else []
  }

  /** H holds the values at each call: they change only by the assignments, to
      keys that have places, and each visit reports the value of the moment. */
  ghost predicate History(H: seq<imap<Key, Val>>, seen: seq<(Key, Val)>, edits: seq<Edits>, places: iset<Key>) {
    && |H| == |seen| + 1
    && (forall i :: 0 <= i < |seen| ==> NextValues(H[i], H[i + 1], EditsAt(edits, i), places))
    && forall i :: 0 <= i < |seen| ==> seen[i].0 in H[i] && seen[i].1 == H[i][seen[i].0] != Nil
  }

  lemma HistoryStep(H: seq<imap<Key, Val>>, seen: seq<(Key, Val)>, edits: seq<Edits>, places: iset<Key>,
                    e: (Key, Val), h: imap<Key, Val>)
    requires History(H, seen, edits, places) && e.0 in H[|seen|] && e.1 == H[|seen|][e.0] != Nil
    requires NextValues(H[|seen|], h, EditsAt(edits, |seen|), places)
    ensures History(H + [h], seen + [e], edits, places)
  {
    hide NextValues;
  }

  lemma AlwaysMore(H: seq<imap<Key, Val>>, h: imap<Key, Val>, k: Key)
    ensures AlwaysLive(H + [h], k) ==> AlwaysLive(H, k)
    ensures |H| > 0 && AlwaysLive(H, k) ==> k in H[|H| - 1] && H[|H| - 1][k] != Nil
  {
    if AlwaysLive(H + [h], k) {
      forall i | 0 <= i < |H| ensures k in H[i] && H[i][k] != Nil { assert (H + [h])[i] == H[i]; }
    }
  }

  /** The keys of all entries in the order of the traversal. */
  function Entries(slots: nat, node: seq<Node>): (E: seq<Option<Key>>)
    ensures |E| == slots + |node|
  {
    seq(slots, i => Some(KInt(i + 1))) + seq(|node|, i requires 0 <= i < |node| => node[i].key)
  }

  predicate AtIn(E: seq<Option<Key>>, k: Key, p: int) {
    if p == -1 then k == KNil else 0 <= p < |E| && E[p] == Some(k)
  }

  lemma EntriesAre(t: Table)
    ensures forall k, p :: t.At(k, p) <==> AtIn(Entries(|t.slots|, t.node), k, p)
  {
  }

  lemma SameEntries(slots: nat, node: seq<Node>, node': seq<Node>)
    requires |node'| == |node| && forall j :: 0 <= j < |node| ==> node'[j].key == node[j].key
    ensures Entries(slots, node') == Entries(slots, node)
  {
  }

  /** The traversal has come to k at position p: P lists the rising positions
      of the visited keys, and what was live throughout was visited. */
  ghost predicate Passed(E: seq<Option<Key>>, H: seq<imap<Key, Val>>, seen: seq<(Key, Val)>, P: seq<int>, k: Key,
                         p: int) {
    && -1 <= p < |E| && AtIn(E, k, p) && |P| == |seen|
    && (forall i :: 0 <= i < |P| ==> 0 <= P[i] <= p && AtIn(E, seen[i].0, P[i]))
    && (forall i, j :: 0 <= i < j < |P| ==> P[i] < P[j])
    && forall q, x :: 0 <= x <= p && AtIn(E, q, x) && AlwaysLive(H, q) ==> Visited(seen, q)
  }

  lemma PassedNext(E: seq<Option<Key>>, H: seq<imap<Key, Val>>, h: imap<Key, Val>, seen: seq<(Key, Val)>, P: seq<int>,
                   k: Key, p: int, e: (Key, Val), p': int)
    requires Passed(E, H, seen, P, k, p) && p < p' < |E| && AtIn(E, e.0, p')
    requires forall q, x :: p < x < p' && AtIn(E, q, x) ==> !AlwaysLive(H, q)
    ensures Passed(E, H + [h], seen + [e], P + [p'], e.0, p')
  {
    hide AlwaysLive, Visited;
    VisitedMore(seen, e);
    forall q ensures AlwaysLive(H + [h], q) ==> AlwaysLive(H, q) { AlwaysMore(H, h, q); }
  }

  lemma PassedAll(t: Table, H: seq<imap<Key, Val>>, seen: seq<(Key, Val)>, P: seq<int>, k: Key, p: int)
    requires t.Valid() && Passed(Entries(|t.slots|, t.node), H, seen, P, k, p)
    requires forall q :: AlwaysLive(H, q) ==> t.Lookup(q) != Nil
    requires forall q, x :: p < x < |t.slots| + |t.node| && t.At(q, x) ==> t.Lookup(q) == Nil
    ensures forall q :: AlwaysLive(H, q) ==> Visited(seen, q)
    ensures forall i, j :: 0 <= i < j < |seen| ==> seen[i].0 != seen[j].0
  {
    hide Table.Valid, Table.Lookup, AlwaysLive, Visited, Entries;
    EntriesAre(t);
    forall q | AlwaysLive(H, q) ensures Visited(seen, q) { var x := t.LiveAt(q); }
    forall i, j | 0 <= i < j < |seen| ensures seen[i].0 != seen[j].0 {
      if seen[i].0 == seen[j].0 { t.AtUnique(seen[i].0, P[i], P[j]); }
    }
  }

  /** The loop over luaH_next. After its n-th step the assignments edits[n] are
      made, for keys that have an entry: visited or not, to nil or to any other
      value. No key is visited twice, and every key that has a value throughout
      is visited. */
  method Traverse(t: Table, edits: seq<Edits>) returns (seen: seq<(Key, Val)>, ghost H: seq<imap<Key, Val>>)
    requires t.Valid()
    modifies t
    ensures History(H, seen, edits, iset k | old(t.HasKey(k))) && H[0] == old(Snapshot(t))
    ensures forall i, j :: 0 <= i < j < |seen| ==> seen[i].0 != seen[j].0
    ensures forall k :: AlwaysLive(H, k) ==> Visited(seen, k)
  {
    hide Table.Valid, Table.Lookup, Table.HasKey, NextValues, AlwaysLive, Visited, History, Passed, Entries;
    ghost var E, places := Entries(|t.slots|, t.node), iset q | t.HasKey(q);
    seen, H := [], [Snapshot(t)];
    var k := KNil;
    ghost var P: seq<int>, p := [], -1;
    TraverseStarts(E, H, seen, edits, places);
    while true
      invariant t.Valid() && Entries(|t.slots|, t.node) == E && |H| == |seen| + 1
      invariant forall q :: q in places <==> t.HasKey(q)
      invariant History(H, seen, edits, places) && H[0] == old(Snapshot(t)) && H[|seen|] == Snapshot(t)
      invariant Passed(E, H, seen, P, k, p)
      decreases |E| - p
    {
      EntriesAre(t);
      var r;
      ghost var p0, p1;
      PassedHere(t, H, seen, P, k, p);
      r, p0, p1 := t.Next(k);
      t.AtUnique(k, p, p0);
      forall q ensures AlwaysLive(H, q) ==> t.Lookup(q) != Nil { AlwaysMore(H, H[0], q); }
      if r == End {
        PassedAll(t, H, seen, P, k, p);
        break;
      }
      forall q, x | p < x < p1 && AtIn(E, q, x) ensures !AlwaysLive(H, q) { assert t.At(q, x); }
      ghost var now, node0 := Snapshot(t), t.node;
      if |seen| < |edits| { ApplyEdits(t, edits[|seen|]); }
      SameEntries(|t.slots|, node0, t.node);
      ValuesChanged(now, Snapshot(t), EditsAt(edits, |seen|), places);
      HistoryStep(H, seen, edits, places, (r.key, r.val), Snapshot(t));
      PassedNext(E, H, Snapshot(t), seen, P, k, p, (r.key, r.val), p1);
      H, P, seen := H + [Snapshot(t)], P + [p1], seen + [(r.key, r.val)];
      k, p := r.key, p1;
    }
  }

  lemma PassedHere(t: Table, H: seq<imap<Key, Val>>, seen: seq<(Key, Val)>, P: seq<int>, k: Key, p: int)
    requires t.Valid() && Passed(Entries(|t.slots|, t.node), H, seen, P, k, p)
    ensures t.At(k, p) && (k == KNil || t.HasKey(k))
  {
    hide Table.Valid, Table.HasKey, AlwaysLive, Visited, Entries;
    EntriesAre(t);
    if p >= 0 { t.EntryLookup(k, p); }
  }

  lemma TraverseStarts(E: seq<Option<Key>>, H: seq<imap<Key, Val>>, seen: seq<(Key, Val)>, edits: seq<Edits>,
                       places: iset<Key>)
    requires |H| == 1 && seen == []
    ensures History(H, seen, edits, places) && Passed(E, H, seen, [], KNil, -1)
  {
  }

  lemma ValuesChanged(h0: imap<Key, Val>, h: imap<Key, Val>, edits: Edits, places: iset<Key>)
    requires forall k :: k in h0 && k in h && h[k] == if k in places then Edited(h0[k], k, edits) else h0[k]
    ensures NextValues(h0, h, edits, places)
  {
  }

  lemma VisitedMore(seen: seq<(Key, Val)>, e: (Key, Val))
    ensures forall q :: Visited(seen + [e], q) <==> Visited(seen, q) || q == e.0
  {
    forall q ensures Visited(seen + [e], q) <==> Visited(seen, q) || q == e.0 {
      if q == e.0 { assert (seen + [e])[|seen|].0 == q; }
      if i :| 0 <= i < |seen| && seen[i].0 == q { assert (seen + [e])[i].0 == q; }
    }
  }
}
