/** Lua tables: an array part and a hash part that together behave as one
    finite map from keys to values. */
module LuaTable {
  import opened Options
  import opened Powers
  import opened TableHash
  import opened TableSize

  datatype SetResult = Done | NilIndex | NaNIndex | Overflow

  datatype NextResult = End | Entry(key: Key, val: Val) | InvalidKey

  /** The largest int that unbound_search tries. */
  const MAXINT := 0x7FFF_FFFD

  class Table {
    const hash: Hash
    var slots: seq<Val>
    var node: seq<Node>
    var dummy: bool
    var lastfree: int
    ghost var chains: Chains

    predicate InArray(k: Key)
      reads this`slots
    {
      k.KInt? && 1 <= k.i <= |slots|
    }

    ghost predicate Valid()
      reads this
    {
      && HashOK(hash, node, chains)
      && |slots| <= Pow2(MAXBITS)
      && (dummy ==> |node| == 1 && !Keyed(node, 0))
      && lastfree <= |node|
      && (forall i :: 0 <= i < |node| && lastfree <= i ==> dummy || Keyed(node, i))
      && (dummy ==> lastfree <= 0)
      && (forall i :: Keyed(node, i) ==> !InArray(node[i].key.value))
    }

    /** The map that the table stands for; Nil is absence. */
    ghost function Lookup(k: Key): Val
      reads this
    {
      if InArray(k) then slots[k.i - 1] else Stored(node, k)
    }

    /** No node is free: newkey would have to rehash. */
    ghost predicate Full()
      reads this
    {
      dummy || forall i :: 0 <= i < |node| ==> Keyed(node, i)
    }

    /** luaH_new without preallocation: the shared dummy node. */
    constructor (h: Hash)
      ensures Valid() && hash == h && forall k :: Lookup(k) == Nil
    {
      hash := h;
      slots := [];
      node := [FreeNode];
      dummy := true;
      lastfree := 0;
      chains := Chains([0], [0.0]);
    }

    /** The chain walk of luaH_get, luaH_getnum and luaH_getstr. */
    method FindNode(k: Key) returns (i: int)
      requires Valid()
      ensures i == NULL ==> forall j :: Keyed(node, j) ==> node[j].key != Some(k)
      ensures i != NULL ==> Keyed(node, i) && node[i].key == Some(k)
    {
      hide Main;
      i := Main(hash, k, |node|);
      ghost var left := Positions(|node|);
      forall j | Keyed(node, j) && node[j].key == Some(k) ensures Keyed(node, i) && Reaches(chains, i, j) {
        assert NodePlaced(hash, node, chains, j);
      }
      while node[i].key != Some(k)
        invariant 0 <= i < |node| && i in left
        invariant forall j :: Keyed(node, j) && node[j].key == Some(k) ==> Keyed(node, i) && Reaches(chains, i, j)
        invariant forall j :: Keyed(node, i) && 0 <= j < |node| && Reaches(chains, i, j) ==> j in left
        decreases left
      {
        if Keyed(node, i) { assert NodeLinked(node, chains, i); }
        if node[i].next == NULL {
          i := NULL;
          return;
        }
        left := left - {i};
        i := node[i].next;
      }
    }

    /** luaH_get */
    method Get(k: Key) returns (v: Val)
      requires Valid()
      ensures v == Lookup(k)
    {
      if k == KNil { return Nil; }
      if k.KInt? && 0 <= k.i - 1 < |slots| { return slots[k.i - 1]; }
      var i := FindNode(k);
      if i == NULL { return Nil; }
      StoredIs(node, k, i);
      return node[i].val;
    }

    /** getfreepos */
    method FreePos() returns (n: int)
      requires Valid()
      modifies this`lastfree
      ensures n == NULL ==> Full()
      ensures n != NULL ==> !dummy && 0 <= n < |node| && !Keyed(node, n) && lastfree == n
      ensures forall i :: 0 <= i < |node| && lastfree <= i && i != n ==> dummy || Keyed(node, i)
      ensures lastfree <= old(lastfree)
    {
      while lastfree > 0
        invariant lastfree <= old(lastfree)
        invariant forall i :: 0 <= i < |node| && lastfree <= i ==> dummy || Keyed(node, i)
      {
        lastfree := lastfree - 1;
        if node[lastfree].key.None? { return lastfree; }
      }
      lastfree := lastfree - 1;
      return NULL;
    }

    /** The walk of newkey to the predecessor of a colliding node. */
    method Predecessor(m: int) returns (p: int)
      requires HashOK(hash, node, chains) && Keyed(node, m) && Main(hash, node[m].key.value, |node|) != m
      ensures Keyed(node, p) && node[p].next == m && p != m
    {
      hide Main;
      p := Main(hash, node[m].key.value, |node|);
      assert NodePlaced(hash, node, chains, m);
      assert NodeLinked(node, chains, p);
      ghost var left := Positions(|node|);
      while node[p].next != m
        invariant Keyed(node, p) && p != m && Reaches(chains, p, m) && NodeLinked(node, chains, p)
        invariant p in left && forall j :: 0 <= j < |node| && Reaches(chains, p, j) ==> j in left
        decreases left
      {
        left := left - {p};
        p := node[p].next;
        assert NodeLinked(node, chains, p);
      }
    }
  
    /** The colliding node moves to the free position n. */
    method MoveAway(k: Key, m: int, n: int)
      requires HashOK(hash, node, chains) && k != KNil && k != KNaN && m == Main(hash, k, |node|)
      requires Keyed(node, m) && Main(hash, node[m].key.value, |node|) != m && 0 <= n < |node| && !Keyed(node, n)
      requires forall j :: Keyed(node, j) ==> node[j].key != Some(k)
      modifies this`node, this`chains
      ensures HashOK(hash, node, chains) && Adds(node, old(node), k, m) && Keyed(node, n)
    {
      hide Main, MoveChains, Adds;
      var p := Predecessor(m);
      MoveColliderOK(hash, node, chains, k, m, p, n);
      MoveColliderAdds(hash, node, chains, k, m, p, n);
      chains := MoveChains(chains, m, n);
      node := node[p := node[p].(next := n)];
      node := node[n := node[m]];
      node := node[m := Node(Some(k), Nil, NULL)];
    }

    /** The new key is linked after the colliding node. */
    method LinkIn(k: Key, m: int, n: int)
      requires HashOK(hash, node, chains) && k != KNil && k != KNaN && m == Main(hash, k, |node|)
      requires Keyed(node, m) && Main(hash, node[m].key.value, |node|) == m && 0 <= n < |node| && !Keyed(node, n)
      requires forall j :: Keyed(node, j) ==> node[j].key != Some(k)
      modifies this`node, this`chains
      ensures HashOK(hash, node, chains) && Adds(node, old(node), k, n)
    {
      hide Main, LinkChains, Adds;
      LinkAfterOK(hash, node, chains, k, m, n);
      LinkAfterAdds(hash, node, chains, k, m, n);
      chains := LinkChains(node, chains, m, n);
      node := node[n := Node(Some(k), Nil, node[m].next)];
      node := node[m := node[m].(next := n)];
    }

    /** The new key takes its main position, whose node is empty. */
    method Reuse(k: Key, m: int)
      requires HashOK(hash, node, chains) && k != KNil && k != KNaN && m == Main(hash, k, |node|)
      requires node[m].val == Nil
      requires forall j :: Keyed(node, j) ==> node[j].key != Some(k)
      modifies this`node, this`chains
      ensures HashOK(hash, node, chains) && Adds(node, old(node), k, m)
    {
      hide Main, Adds, NodeLinked, NodePlaced;
      ghost var g := ReuseMainOK(hash, node, chains, k, m);
      ReuseMainAdds(hash, node, chains, k, m);
      chains := g;
      node := node[m := node[m].(key := Some(k))];
    }

    /** newkey up to the point where it would rehash: the position of the new
        key, or NULL if there is no free node. */
    method NewKey(k: Key) returns (at: int)
      requires Valid() && k != KNil && k != KNaN && !InArray(k)
      requires forall j :: Keyed(node, j) ==> node[j].key != Some(k)
      modifies this`node, this`lastfree, this`chains
      ensures at == NULL ==> Valid() && old(Full()) && node == old(node) && chains == old(chains)
      ensures at != NULL ==> Valid() && Adds(node, old(node), k, at)
    {
      hide Main, Stored, HashOK;
      MainFacts(hash, node, chains, k);
      var m := Main(hash, k, |node|);
      if node[m].val != Nil || dummy {
        var n := FreePos();
        if n == NULL { return NULL; }
        var other := Main(hash, node[m].key.value, |node|);
        if other != m {
          MoveAway(k, m, n);
        } else {
          LinkIn(k, m, n);
          m := n;
        }
      } else {
        Reuse(k, m);
      }
      at := m;
      assert forall i :: Keyed(node, i) ==> !InArray(node[i].key.value);
    }

    /** Storing through the pointer returned for position i. */
    method Store(i: int, v: Val)
      requires Valid() && Keyed(node, i)
      modifies this`node
      ensures Valid()
      ensures forall q :: Lookup(q) == if Some(q) == old(node[i].key) then v else old(Lookup(q))
      ensures |node| == |old(node)| && forall j :: 0 <= j < |node| ==> node[j].key == old(node[j].key)
    {
      hide HashOK, Stored;
      ghost var node0 := node;
      ValueSet(hash, node, chains, i, v);
      node := node[i := node[i].(val := v)];
      assert forall j :: Keyed(node, j) == Keyed(node0, j);
      assert forall j :: 0 <= j < |node| ==> node[j].key == node0[j].key;
    }

    /** The nodes have the keys they had before. */
    ghost predicate SameKeys(node0: seq<Node>)
      reads this
    {
      |node| == |node0| && forall j :: 0 <= j < |node| ==> node[j].key == node0[j].key
    }

    /** The key has a place: newkey is not needed to set it. */
    ghost predicate HasKey(k: Key)
      reads this
    {
      InArray(k) || exists j :: Keyed(node, j) && node[j].key == Some(k)
    }

    /** luaH_set and the store that follows it, when the key is there or a
        node is free. */
    method Insert(k: Key, v: Val)
      requires Valid() && k != KNil && k != KNaN && (HasKey(k) || !Full())
      modifies this`slots, this`node, this`lastfree, this`chains
      ensures Valid() && |slots| == |old(slots)| && |node| == |old(node)|
      ensures forall q :: Lookup(q) == if q == k then v else old(Lookup(q))
      ensures forall i :: Keyed(node, i) ==>
                node[i].key == Some(k) || exists j :: Keyed(old(node), j) && old(node)[j].key == node[i].key
      ensures old(HasKey(k)) ==> SameKeys(old(node))
    {
      hide HashOK, Stored;
      if k.KInt? && 0 <= k.i - 1 < |slots| {
        slots := slots[k.i - 1 := v];
        return;
      }
      var i := FindNode(k);
      if i == NULL {
        i := NewKey(k);
      }
      ghost var node1 := node;
      Store(i, v);
      assert forall j :: Keyed(node, j) <==> Keyed(node1, j);
    }
  
    // -------------------------------------------------------------------
    // resize

    /** What the table with these parts stores. */
    ghost function Content(a: seq<Val>, nodes: seq<Node>, q: Key): Val {
      if q.KInt? && 1 <= q.i <= |a| then a[q.i - 1] else Stored(nodes, q)
    }

    /** Every key in a node has a value. */
    ghost predicate NoStaleKeys()
      reads this
    {
      forall i :: Keyed(node, i) ==> Lookup(node[i].key.value) != Nil
    }

    /** With fewer keys than nodes there is a free node. */
    lemma NotFull(X: set<Key>, q: Key)
      requires Valid() && !dummy && |X| <= |node| && q in X
      requires forall i :: Keyed(node, i) ==> node[i].key.value in X && node[i].key.value != q
      ensures !Full()
    {
      if Full() { AllKeyed(node, X - {q}); }
    }

    /** setnodevector */
    method NewNodes(size: nat) returns (ok: bool)
      requires |slots| <= Pow2(MAXBITS)
      modifies this`node, this`dummy, this`lastfree, this`chains
      ensures ok ==> Valid() && (forall i :: !Keyed(node, i)) && (forall q :: Stored(node, q) == Nil)
      ensures ok ==> dummy == (size == 0) && size <= |node|
      ensures !ok ==> size > Pow2(MAXBITS) && node == old(node)
    {
      hide HashOK, Stored, Keyed, FreeNodes, Pow2;
      var n := 1;
      if size > 0 {
        var lsize := CeilLog2(size);
        if lsize > MAXBITS {
          Pow2Mono(MAXBITS, lsize - 1);
          return false;
        }
        n := Pow2(lsize);
      }
      FreeOK(hash, n);
      node := FreeNodes(n);
      chains := Chains(seq(n, i => i), seq(n, _ => 0.0));
      dummy := size == 0;
      lastfree := if size == 0 then 0 else n;
      return true;
    }

    /** resize: X holds the keys that have to go to the hash part. */
    method Resize(nasize: nat, nhsize: nat, ghost X: set<Key>) returns (ok: bool)
      requires Valid() && nasize <= Pow2(MAXBITS) && |X| <= nhsize
      requires forall q :: Lookup(q) != Nil && !(q.KInt? && 1 <= q.i <= nasize) ==> q in X
      modifies this
      ensures !ok ==> nhsize > Pow2(MAXBITS)
      ensures ok ==> Valid() && |slots| == nasize && NoStaleKeys() && dummy == (nhsize == 0) && |X| <= |node|
      ensures ok ==> forall q :: Lookup(q) == old(Lookup(q))
    {
      hide HashOK, Stored, Pow2;
      ghost var a0, n0 := slots, node;
      HashFacts(hash, node, chains);
      var oldslots, oldnodes := slots, node;
      if nasize > |slots| {
        slots := slots + seq(nasize - |slots|, _ => Nil);
      }
      ok := NewNodes(nhsize);
      if !ok { return; }
      if nasize < |oldslots| {
        slots := oldslots[..nasize];
        assert Valid();
        var i := nasize;
        while i < |oldslots|
          invariant nasize <= i <= |oldslots| && |slots| == nasize
          invariant Valid() && NoStaleKeys() && dummy == (nhsize == 0) && |X| <= |node|
          invariant forall q :: Lookup(q) == if q.KInt? && 1 <= q.i <= i then a0[q.i - 1] else Nil
        {
          if oldslots[i] != Nil {
            ghost var q := KInt(i + 1);
            assert Content(a0, n0, q) != Nil;
            NotFull(X, q);
            Insert(KInt(i + 1), oldslots[i]);
          }
          i := i + 1;
        }
      }
      var i := |oldnodes|;
      assert n0[i..] == [];
      StoredNone();
      while i > 0
        invariant 0 <= i <= |oldnodes| && |slots| == nasize
        invariant Valid() && NoStaleKeys() && dummy == (nhsize == 0) && |X| <= |node|
        invariant forall q :: Lookup(q) == Content(a0, n0[i..], q)
      {
        i := i - 1;
        Reinsert(i, a0, oldnodes, X, nhsize);
      }
      assert n0[0..] == n0;
    }

    /** The keys of the nodes are among those that had to go to the hash part. */
    lemma AllIn(a0: seq<Val>, n0: seq<Node>, i: nat, X: set<Key>)
      requires i <= |n0| && UniqueKeys(n0) && Valid() && NoStaleKeys()
      requires forall q :: Lookup(q) == Content(a0, n0[i..], q)
      requires forall q :: Content(a0, n0, q) != Nil && !InArray(q) ==> q in X
      ensures forall j :: Keyed(node, j) ==> node[j].key.value in X
    {
      hide HashOK;
      forall j | Keyed(node, j) ensures node[j].key.value in X {
        StoredTail(n0, i, node[j].key.value);
      }
    }

    method Reinsert(i: int, ghost a0: seq<Val>, n0: seq<Node>, ghost X: set<Key>, ghost nhsize: nat)
      requires 0 <= i < |n0| && UniqueKeys(n0)
      requires forall j :: Keyed(n0, j) ==> n0[j].key.value != KNil && n0[j].key.value != KNaN
                                            && !(n0[j].key.value.KInt? && 1 <= n0[j].key.value.i <= |a0|)
      requires forall j :: 0 <= j < |n0| && n0[j].key.None? ==> n0[j].val == Nil
      requires Valid() && NoStaleKeys() && dummy == (nhsize == 0) && |X| <= |node| && |X| <= nhsize
      requires forall q :: Lookup(q) == Content(a0, n0[i + 1..], q)
      requires forall q :: Content(a0, n0, q) != Nil && !InArray(q) ==> q in X
      modifies this`slots, this`node, this`lastfree, this`chains
      ensures Valid() && NoStaleKeys() && |slots| == |old(slots)| && |X| <= |node|
      ensures forall q :: Lookup(q) == Content(a0, n0[i..], q)
    {
      forall q ensures Content(a0, n0[i..], q)
                       == if n0[i].key == Some(q) && !(q.KInt? && 1 <= q.i <= |a0|) then n0[i].val
                           else Content(a0, n0[i + 1..], q)
      {
        StoredFrom(n0, i, q);
      }
      if n0[i].val != Nil {
        var k := n0[i].key.value;
        StoredFrom(n0, i, k);
        StoredIs(n0, k, i);
        assert Lookup(k) == Nil;
        if !InArray(k) {
          assert Content(a0, n0, k) == n0[i].val;
          AllIn(a0, n0, i + 1, X);
          NotFull(X, k);
        }
        Insert(k, n0[i].val);
      }
    }

    // -------------------------------------------------------------------
    // rehash

    /** The inner loop of numusearray: counts slice lg of the array part. */
    method CountSlice(lg: nat, i0: int, lim: int, nums0: seq<nat>) returns (nums: seq<nat>, lc: nat)
      requires |slots| <= Pow2(MAXBITS) && |nums0| == MAXBITS + 1 && lg <= MAXBITS
      requires Low(lg) < i0 <= lim + 1 && lim <= |slots| && lim <= Pow2(lg)
      requires Tallies(nums0, LiveSlots(slots, i0 - 1))
      ensures |nums| == MAXBITS + 1 && Tallies(nums, LiveSlots(slots, lim))
      ensures lc == |LiveSlots(slots, lim)| - |LiveSlots(slots, i0 - 1)|
    {
      hide Pow2, Low, Tallies, LiveSlots, Grows;
      var i := i0;
      lc := 0;
      ghost var t := nums0;
      while i <= lim
        invariant i0 <= i <= lim + 1 && |LiveSlots(slots, i - 1)| == |LiveSlots(slots, i0 - 1)| + lc
        invariant t == nums0[lg := nums0[lg] + lc] && Tallies(t, LiveSlots(slots, i - 1))
      {
        LiveStep(slots, i);
        if slots[i - 1] != Nil {
          TallyOne(t, LiveSlots(slots, i - 1), LiveSlots(slots, i), i, lg);
          t := t[lg := t[lg] + 1];
          lc := lc + 1;
        }
        i := i + 1;
      }
      nums := nums0[lg := nums0[lg] + lc];
    }

    /** numusearray */
    method NumUseArray() returns (nums: seq<nat>, ause: nat)
      requires |slots| <= Pow2(MAXBITS)
      ensures Tallies(nums, LiveSlots(slots, |slots|)) && ause == |LiveSlots(slots, |slots|)|
    {
      hide Pow2, Low, Tallies, LiveSlots;
      Pow2Small();
      LiveNone(slots);
      nums := seq(MAXBITS + 1, _ => 0);
      TallyNone(nums);
      ause := 0;
      var i, lg, ttlg := 1, 0, 1;
      LowValues(0);
      while lg <= MAXBITS
        invariant lg <= MAXBITS + 1 && ttlg == Pow2(lg) && |nums| == MAXBITS + 1
        invariant 0 < i && i - 1 == if Low(lg) <= |slots| then Low(lg) else |slots|
        invariant Tallies(nums, LiveSlots(slots, i - 1)) && ause == |LiveSlots(slots, i - 1)|
      {
        var lim := ttlg;
        LowValues(lg);
        if lim > |slots| {
          lim := |slots|;
          if i > lim { break; }
        }
        var lc;
        nums, lc := CountSlice(lg, i, lim, nums);
        i := lim + 1;
        ause := ause + lc;
        Pow2Succ(lg);
        lg, ttlg := lg + 1, ttlg * 2;
      }
      if lg == MAXBITS + 1 { Pow2Succ(MAXBITS); }
    }

    /** countint */
    method CountInt(k: Key, nums0: seq<nat>, ghost S: set<int>, ghost S': set<int>) returns (nums: seq<nat>, c: nat)
      requires Tallies(nums0, S) && CountsKey(S, S', k)
      ensures Tallies(nums, S') && |S'| == |S| + c
    {
      hide Pow2, Low;
      nums := nums0;
      if k.KInt? && 0 < k.i <= Pow2(MAXBITS) {
        var l := CeilLog2(k.i);
        assert l <= MAXBITS by {
          if l > MAXBITS { Pow2Succ(l - 1); Pow2Mono(MAXBITS, l - 1); }
        }
        TallyOne(nums, S, S', k.i, l);
        return nums[l := nums[l] + 1], 1;
      }
      return nums, 0;
    }

    /** numusehash: S is what the array part counted. */
    method NumUseHash(nums0: seq<nat>, ghost S: set<int>) returns (nums: seq<nat>, ause: nat, totaluse: nat)
      requires HashOK(hash, node, chains) && Tallies(nums0, S)
      requires forall j :: Keyed(node, j) && node[j].key.value.KInt? ==> node[j].key.value.i !in S
      ensures Tallies(nums, S + IntKeys(LiveNodes(node, 0)))
      ensures ause == |S + IntKeys(LiveNodes(node, 0))| - |S| && totaluse == |LiveNodes(node, 0)|
    {
      hide Tallies, IntKeys, LiveNodes, CountsKey;
      HashFacts(hash, node, chains);
      hide HashOK;
      nums, ause, totaluse := nums0, 0, 0;
      var i := |node|;
      CountsNone(node, S);
      while i > 0
        invariant 0 <= i <= |node|
        invariant Tallies(nums, S + IntKeys(LiveNodes(node, i)))
        invariant |S + IntKeys(LiveNodes(node, i))| == |S| + ause && totaluse == |LiveNodes(node, i)|
      {
        i := i - 1;
        CountsStep(node, i, S);
        if node[i].val != Nil {
          ghost var S1, S2 := S + IntKeys(LiveNodes(node, i + 1)), S + IntKeys(LiveNodes(node, i));
          var c;
          nums, c := CountInt(node[i].key.value, nums, S1, S2);
          ause := ause + c;
          totaluse := totaluse + 1;
        }
      }
    }

    /** The keys that rehash counts: those with a value, and the new one. */
    ghost function Counted(ek: Key): (K: set<Key>)
      requires Valid()
      reads this
      ensures forall q :: q in K <==> Lookup(q) != Nil || q == ek
    {
      HashFacts(hash, node, chains);
      StoredLive(node);
      var K := AsKeys(LiveSlots(slots, |slots|)) + LiveNodes(node, 0) + {ek};
      K
    }

    /** rehash: the array part gets the best size for the integer keys in use,
        nothing stored changes, and the new key finds room. */
    method Rehash(ek: Key) returns (ok: bool)
      requires Valid() && ek != KNil && ek != KNaN && Lookup(ek) == Nil && !InArray(ek)
      modifies this
      ensures !ok ==> |old(Counted(ek))| > Pow2(MAXBITS)
      ensures ok ==> Valid() && forall q :: Lookup(q) == old(Lookup(q))
      ensures ok ==> BestSize(IntKeys(Counted(ek)), |slots|)
      ensures ok ==> InArray(ek) || !Full()
    {
      hide Pow2, HashOK, Stored;
      CountedFacts(ek);
      HashFacts(hash, node, chains);
      ghost var A, K := LiveSlots(slots, |slots|), Counted(ek);
      hide LiveSlots, LiveNodes, IntKeys, CountsKey, Tallies, Counted, HashOK;
      var nums, nasize := NumUseArray();
      var totaluse := nasize;
      var ause, huse;
      nums, ause, huse := NumUseHash(nums, A);
      var c;
      nums, c := CountInt(ek, nums, A + IntKeys(LiveNodes(node, 0)), IntKeys(K));
      nasize := nasize + ause + c;
      totaluse := totaluse + huse + 1;
      var na;
      nasize, na := ComputeSizes(nums, nasize, IntKeys(K));
      BestIsBounded(IntKeys(K), nasize);
      ghost var X := Rest(K, nasize);
      ok := Resize(nasize, totaluse - na, X);
      if ok {
        SameCounted(ek, K);
        if !InArray(ek) { NotFull(X, ek); }
      }
    }

    lemma SameCounted(ek: Key, K: set<Key>)
      requires Valid() && forall q :: q in K <==> Lookup(q) != Nil || q == ek
      ensures Counted(ek) == K
    {
      hide Valid, Lookup;
    }

    /** What rehash counts. */
    lemma CountedFacts(ek: Key)
      requires Valid() && Lookup(ek) == Nil && !InArray(ek)
      ensures var A, H := LiveSlots(slots, |slots|), LiveNodes(node, 0);
              && |Counted(ek)| == |A| + |H| + 1
              && CountsKey(A + IntKeys(H), IntKeys(Counted(ek)), ek)
              && forall j :: Keyed(node, j) && node[j].key.value.KInt? ==> node[j].key.value.i !in A
    {
      hide Pow2;
      HashFacts(hash, node, chains);
      StoredLive(node);
      hide HashOK;
      var A, H := LiveSlots(slots, |slots|), LiveNodes(node, 0);
      assert ek !in AsKeys(A) + H;
      assert AsKeys(A) !! H;
      AsKeysCard(A, |slots|);
      assert Upto(A, |slots|) == A;
      assert Counted(ek) == AsKeys(A) + H + {ek};
      IntKeysPlus(AsKeys(A) + H, ek);
      hide LiveSlots, LiveNodes, Stored;
      IntKeysUnion(A, H);
    }

    // -------------------------------------------------------------------
    // Whole operations

    /** luaH_set and the store that follows it. */
    method Set(k: Key, v: Val) returns (r: SetResult)
      requires Valid()
      modifies this
      ensures r == NilIndex <==> k == KNil
      ensures r == NaNIndex <==> k == KNaN
      ensures r == NilIndex || r == NaNIndex ==> Valid() && forall q :: Lookup(q) == old(Lookup(q))
      ensures r == Done ==> Valid() && forall q :: Lookup(q) == if q == k then v else old(Lookup(q))
      ensures r == Overflow ==> |old(Counted(k))| > Pow2(MAXBITS)
    {
      hide HashOK, Stored, Pow2, Counted;
      if k == KNil { return NilIndex; }
      if k == KNaN { return NaNIndex; }
      var here := k.KInt? && 0 <= k.i - 1 < |slots|;
      if !here {
        var i := FindNode(k);
        here := i != NULL;
        if !here {
          AbsentNil(k);
          ghost var node0, lastfree0 := node, lastfree;
          i := NewKey(k);
          if i != NULL {
            Store(i, v);
            return Done;
          }
          SameCounted(k, old(Counted(k)));
          var ok := Rehash(k);
          if !ok { return Overflow; }
        }
      }
      Insert(k, v);
      return Done;
    }

    lemma AbsentNil(k: Key)
      requires !HasKey(k)
      ensures Lookup(k) == Nil
    {
    }

    // -------------------------------------------------------------------
    // Traversal: the array part first, then the nodes

    /** The key at position p of a traversal. */
    ghost function EntryKey(p: int): Option<Key>
      reads this
      requires 0 <= p < |slots| + |node|
    {
      if p < |slots| then Some(KInt(p + 1)) else node[p - |slots|].key
    }

    /** p is the position of k; a traversal starts with nil, before position 0. */
    ghost predicate At(k: Key, p: int)
      reads this
    {
      if p == -1 then k == KNil else 0 <= p < |slots| + |node| && EntryKey(p) == Some(k)
    }

    lemma EntryLookup(k: Key, p: int)
      requires Valid() && At(k, p) && p >= 0
      ensures Lookup(k) == if p < |slots| then slots[p] else node[p - |slots|].val
      ensures k != KNil && k != KNaN && HasKey(k)
    {
      HashFacts(hash, node, chains);
      if p >= |slots| {
        assert Keyed(node, p - |slots|);
        StoredIs(node, k, p - |slots|);
      }
    }

    lemma NilHasNone()
      requires Valid()
      ensures !HasKey(KNil)
    {
      HashFacts(hash, node, chains);
    }

    lemma AtUnique(k: Key, p: int, q: int)
      requires Valid() && At(k, p) && At(k, q)
      ensures p == q
    {
      HashFacts(hash, node, chains);
      hide HashOK;
      if p >= |slots| { assert Keyed(node, p - |slots|); }
      if q >= |slots| { assert Keyed(node, q - |slots|); }
    }

    lemma LiveAt(k: Key) returns (p: int)
      requires Valid() && Lookup(k) != Nil
      ensures 0 <= p && At(k, p)
    {
      hide HashOK;
      if InArray(k) {
        p := k.i - 1;
      } else {
        var j :| Keyed(node, j) && node[j].key == Some(k);
        p := |slots| + j;
      }
    }

    /** findindex; None is the error "invalid key to 'next'". */
    method FindIndex(k: Key) returns (i: Option<int>)
      requires Valid()
      ensures i.None? <==> k != KNil && !HasKey(k)
      ensures i.Some? ==> At(k, i.value) && -1 <= i.value < |slots| + |node|
    {
      HashFacts(hash, node, chains);
      hide HashOK;
      if k == KNil { return Some(-1); }
      if k.KInt? && 0 < k.i <= |slots| { return Some(k.i - 1); }
      var n := FindNode(k);
      return if n == NULL then None else Some(n + |slots|);
    }

    lemma SkippedNil(p: int, p': int)
      requires Valid() && -1 <= p < p' <= |slots| + |node|
      requires forall x :: p < x < p' && x < |slots| ==> slots[x] == Nil
      requires forall i :: 0 <= i < |node| && p < i + |slots| < p' ==> node[i].val == Nil
      ensures forall q, x :: p < x < p' && At(q, x) ==> Lookup(q) == Nil
    {
      hide HashOK, Stored, Lookup;
      forall q, x | p < x < p' && At(q, x) ensures Lookup(q) == Nil {
        EntryLookup(q, x);
        if x >= |slots| { assert node[x - |slots|].val == Nil; }
      }
    }

    lemma EntryAt(p: nat)
      requires Valid() && p < |slots| + |node| && (if p < |slots| then slots[p] else node[p - |slots|].val) != Nil
      ensures p >= |slots| ==> node[p - |slots|].key.Some?
      ensures var q := if p < |slots| then KInt(p + 1) else node[p - |slots|].key.value;
              At(q, p) && Lookup(q) == if p < |slots| then slots[p] else node[p - |slots|].val
    {
      HashFacts(hash, node, chains);
      hide HashOK, Stored, Lookup;
      var q := if p < |slots| then KInt(p + 1) else node[p - |slots|].key.value;
      assert At(q, p);
      EntryLookup(q, p);
    }

    /** The loop of luaH_next over the array part. */
    method NonNilSlot(i0: nat) returns (i: nat)
      ensures i0 <= i && (i < |slots| ==> slots[i] != Nil) && (i >= |slots| ==> i == i0 || i == |slots|)
      ensures forall x :: i0 <= x < i && x < |slots| ==> slots[x] == Nil
    {
      i := i0;
      while i < |slots|
        invariant i0 <= i && (i <= |slots| || i == i0) && forall x :: i0 <= x < i && x < |slots| ==> slots[x] == Nil
      {
        if slots[i] != Nil { return; }
        i := i + 1;
      }
    }

    /** The loop of luaH_next over the hash part. */
    method NonNilNode(i0: nat) returns (i: nat)
      requires i0 <= |node|
      ensures i0 <= i <= |node| && (i < |node| ==> node[i].val != Nil)
      ensures forall x :: i0 <= x < i ==> node[x].val == Nil
    {
      i := i0;
      while i < |node|
        invariant i0 <= i <= |node| && forall x :: i0 <= x < i ==> node[x].val == Nil
      {
        if node[i].val != Nil { return; }
        i := i + 1;
      }
    }

    /** luaH_next: the first entry with a value after the position of k. */
    method Next(k: Key) returns (r: NextResult, ghost p: int, ghost p': int)
      requires Valid()
      ensures r == InvalidKey <==> k != KNil && !HasKey(k)
      ensures r != InvalidKey ==> At(k, p) && p < p' <= |slots| + |node|
      ensures r != InvalidKey ==> forall q, x :: p < x < p' && At(q, x) ==> Lookup(q) == Nil
      ensures r == End ==> p' == |slots| + |node|
      ensures r.Entry? ==> At(r.key, p') && r.val != Nil && r.val == Lookup(r.key)
    {
      hide HashOK, Stored, Lookup, At, Keyed, HasKey;
      var f := FindIndex(k);
      if f.None? { return InvalidKey, 0, 0; }
      p := f.value;
      var i := NonNilSlot(f.value + 1);
      if i < |slots| {
        SkippedNil(p, i);
        EntryAt(i);
        return Entry(KInt(i + 1), slots[i]), p, i;
      }
      i := NonNilNode(i - |slots|);
      SkippedNil(p, i + |slots|);
      if i < |node| {
        EntryAt(i + |slots|);
        return Entry(node[i].key.value, node[i].val), p, i + |slots|;
      }
      return End, p, i + |slots|;
    }

    // -------------------------------------------------------------------
    // Length

    /** A border: a value at n (unless n is 0) and none at n + 1. */
    ghost predicate Border(n: int)
      reads this
    {
      n >= 0 && (n == 0 || Lookup(KInt(n)) != Nil) && Lookup(KInt(n + 1)) == Nil
    }

    /** unbound_search */
    method UnboundSearch(j0: nat) returns (n: int)
      requires Valid() && j0 <= |slots| && (j0 == 0 || Lookup(KInt(j0)) != Nil)
      ensures Border(n)
    {
      hide HashOK, Stored, Lookup;
      Pow2Max();
      hide Pow2;
      var i, j := j0, j0 + 1;
      var v := Get(KInt(j));
      while v != Nil
        invariant v == Lookup(KInt(j)) && 0 <= i < j <= MAXINT && (i == 0 || Lookup(KInt(i)) != Nil)
        decreases MAXINT - j
      {
        i := j;
        j := j * 2;
        if j > MAXINT {
          n := LinearSearch();
          return;
        }
        v := Get(KInt(j));
      }
      while j - i > 1
        invariant 0 <= i < j <= MAXINT && Lookup(KInt(j)) == Nil && (i == 0 || Lookup(KInt(i)) != Nil)
      {
        var m := (i + j) / 2;
        v := Get(KInt(m));
        if v == Nil { j := m; } else { i := m; }
      }
      return i;
    }

    /** The linear search of unbound_search ends because the table is finite. */
    method LinearSearch() returns (n: int)
      requires Valid()
      ensures Border(n)
    {
      ghost var K := Counted(KNil);
      hide HashOK, Stored, Counted, Pow2, Lookup;
      var i := 1;
      var v := Get(KInt(i));
      RangeCard(K, i - 1);
      while v != Nil
        invariant 1 <= i <= |K| + 1 && v == Lookup(KInt(i))
        invariant forall x :: 1 <= x < i ==> KInt(x) in K
        decreases |K| + 1 - i
      {
        RangeCard(K, i);
        i := i + 1;
        v := Get(KInt(i));
      }
      return i - 1;
    }

    /** luaH_getn */
    method Length() returns (n: int)
      requires Valid()
      ensures Border(n)
    {
      hide HashOK;
      var j := |slots|;
      if j > 0 && slots[j - 1] == Nil {
        var i := 0;
        while j - i > 1
          invariant 0 <= i < j <= |slots| && slots[j - 1] == Nil && (i == 0 || slots[i - 1] != Nil)
        {
          var m := (i + j) / 2;
          if slots[m - 1] == Nil { j := m; } else { i := m; }
        }
        return i;
      } else if dummy {
        return j;
      } else {
        n := UnboundSearch(j);
      }
    }
  }

  /** The positions of the array part that hold a value. */
  ghost function LiveSlots(a: seq<Val>, n: nat): (S: set<int>)
    requires n <= |a|
    ensures forall k {:trigger k in S} :: k in S <==> 1 <= k <= n && a[k - 1] != Nil
  {
    if n == 0 then {}
    else if a[n - 1] != Nil then LiveSlots(a, n - 1) + {n} else LiveSlots(a, n - 1)
  }

  lemma LiveNone(a: seq<Val>)
    ensures LiveSlots(a, 0) == {}
  {
  }

  lemma LiveStep(a: seq<Val>, n: nat)
    requires 0 < n <= |a|
    ensures a[n - 1] == Nil ==> LiveSlots(a, n) == LiveSlots(a, n - 1)
    ensures a[n - 1] != Nil ==>
              Grows(LiveSlots(a, n - 1), LiveSlots(a, n), n)
              && |LiveSlots(a, n)| == |LiveSlots(a, n - 1)| + 1
  {
  }

  /** The keys of the nodes from i on that hold a value. */
  ghost function LiveNodes(node: seq<Node>, i: nat): (K: set<Key>)
    requires i <= |node|
    ensures forall q {:trigger q in K} :: q in K <==>
              exists j :: i <= j < |node| && node[j].val != Nil && node[j].key == Some(q)
    decreases |node| - i
  {
    if i == |node| then {}
    else if node[i].key.Some? && node[i].val != Nil then LiveNodes(node, i + 1) + {node[i].key.value}
        else LiveNodes(node, i + 1)
  }

  ghost function AsKeys(S: set<int>): set<Key> {
    set k | k in S :: KInt(k)
  }

  /** The keys that could go to an array part. */
  ghost function IntKeys(K: set<Key>): set<int> {
    set k | k in K && k.KInt? && 0 < k.i <= Pow2(MAXBITS) :: k.i
  }

  /** S' is S with the key counted, if it could go to an array part. */
  ghost predicate CountsKey(S: set<int>, S': set<int>, k: Key) {
    if k.KInt? && 0 < k.i <= Pow2(MAXBITS) then Grows(S, S', k.i) else S' == S
  }

  lemma CountsNone(node: seq<Node>, S: set<int>)
    ensures LiveNodes(node, |node|) == {} && S + IntKeys(LiveNodes(node, |node|)) == S
  {
  }

  lemma CountsStep(node: seq<Node>, i: nat, S: set<int>)
    requires i < |node| && UniqueKeys(node) && (node[i].key.None? ==> node[i].val == Nil)
    requires forall j :: Keyed(node, j) && node[j].key.value.KInt? ==> node[j].key.value.i !in S
    ensures var K, K' := LiveNodes(node, i + 1), LiveNodes(node, i);
            if node[i].val == Nil then K' == K
            else |K'| == |K| + 1 && CountsKey(S + IntKeys(K), S + IntKeys(K'), node[i].key.value)
  {
    hide Pow2;
    if node[i].val != Nil {
      var K, k := LiveNodes(node, i + 1), node[i].key.value;
      assert Keyed(node, i);
      forall j | i + 1 <= j < |node| && node[j].val != Nil ensures node[j].key != Some(k) {
        assert Keyed(node, i) && (Keyed(node, j) ==> node[j].key != node[i].key);
      }
      assert LiveNodes(node, i) == K + {k};
      hide LiveNodes;
      IntKeysPlus(K, k);
      hide IntKeys;
      assert S + IntKeys(K + {k}) == if k.KInt? && 0 < k.i <= Pow2(MAXBITS) then (S + IntKeys(K)) + {k.i}
          else S + IntKeys(K);
    }
  }

  lemma IntKeysPlus(K: set<Key>, k: Key)
    requires k !in K
    ensures IntKeys(K + {k}) == if k.KInt? && 0 < k.i <= Pow2(MAXBITS) then IntKeys(K) + {k.i} else IntKeys(K)
    ensures k.KInt? ==> k.i !in IntKeys(K)
  {
    hide Pow2;
  }

  lemma IntKeysUnion(A: set<int>, H: set<Key>)
    requires forall k :: k in A ==> 0 < k <= Pow2(MAXBITS)
    ensures IntKeys(AsKeys(A) + H) == A + IntKeys(H)
  {
    hide Pow2;
    var L, R := IntKeys(AsKeys(A) + H), A + IntKeys(H);
    forall k | k in R ensures k in L {
      if k in A { assert KInt(k) in AsKeys(A); }
    }
  }

  lemma {:induction false} AsKeysCard(S: set<int>, n: nat)
    ensures |AsKeys(Upto(S, n))| == |Upto(S, n)|
    decreases n
  {
    if n > 0 {
      AsKeysCard(S, n - 1);
      var U := Upto(S, n - 1);
      if n in S {
        assert Upto(S, n) == U + {n} && AsKeys(U + {n}) == AsKeys(U) + {KInt(n)};
      } else {
        assert Upto(S, n) == U;
      }
    } else {
      assert Upto(S, 0) == {} && AsKeys({}) == {};
    }
  }

  /** The keys that do not go to the array part. */
  ghost function Rest(K: set<Key>, n: nat): (X: set<Key>)
    requires n <= Pow2(MAXBITS)
    ensures |X| == |K| - |Upto(IntKeys(K), n)|
    ensures forall q :: q in X <==> q in K && !(q.KInt? && 1 <= q.i <= n)
  {
    var X := set q | q in K && !(q.KInt? && 1 <= q.i <= n);
    RestCard(K, X, n);
    X
  }

  lemma RestCard(K: set<Key>, X: set<Key>, n: nat)
    requires n <= Pow2(MAXBITS) && X == set q | q in K && !(q.KInt? && 1 <= q.i <= n)
    ensures |X| == |K| - |Upto(IntKeys(K), n)|
  {
    hide Pow2;
    var U := Upto(IntKeys(K), n);
    AsKeysCard(IntKeys(K), n);
    assert K == X + AsKeys(U) && X !! AsKeys(U);
  }

  lemma BestIsBounded(S: set<int>, n: nat)
    requires BestSize(S, n)
    ensures n <= Pow2(MAXBITS)
  {
    hide Pow2;
    if n > 0 {
      var e: nat :| e <= MAXBITS && n == Pow2(e);
      Pow2Mono(e, MAXBITS);
    }
  }

  lemma TallyNone(nums: seq<nat>)
    requires |nums| == MAXBITS + 1 && forall l :: 0 <= l <= MAXBITS ==> nums[l] == 0
    ensures Tallies(nums, {})
  {
    forall l | 0 <= l <= MAXBITS ensures nums[l] == |Slice({}, l)| {
      assert Slice({}, l) == {};
    }
  }

  lemma LowValues(l: nat)
    ensures Low(0) == 0 && Low(l) < Pow2(l) && (l > 0 ==> Low(l) == Pow2(l - 1))
  {
  }

  lemma StoredLive(node: seq<Node>)
    requires UniqueKeys(node) && forall j :: 0 <= j < |node| && node[j].key.None? ==> node[j].val == Nil
    ensures forall q :: q in LiveNodes(node, 0) <==> Stored(node, q) != Nil
  {
    forall q ensures q in LiveNodes(node, 0) <==> Stored(node, q) != Nil {
      if i :| Keyed(node, i) && node[i].key == Some(q) { StoredIs(node, q, i); }
    }
  }

  lemma {:induction false} RangeCard(K: set<Key>, n: nat)
    requires forall x :: 1 <= x <= n ==> KInt(x) in K
    ensures n <= |K|
    decreases n
  {
    if n > 0 { RangeCard(K - {KInt(n)}, n - 1); }
  }

  lemma StoredNone()
    ensures forall q :: Stored([], q) == Nil
  {
  }

  lemma HashFacts(h: Hash, node: seq<Node>, g: Chains)
    requires HashOK(h, node, g)
    ensures UniqueKeys(node) && forall j :: Keyed(node, j) ==> node[j].key.value != KNil && node[j].key.value != KNaN
    ensures forall j :: 0 <= j < |node| && node[j].key.None? ==> node[j].val == Nil
  {
  }
}
