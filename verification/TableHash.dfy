/** The hash part of a Lua table: a chained scatter table with Brent's
    variation, as a vector of nodes linked by indices.

    Every node of a chain carries a ghost chain number and a rank that falls
    along the chain, so that "b is reachable from a" is a comparison. */
module TableHash {
  import opened Options

  /** Keys: nil and NaN are rejected by luaH_set; integers are visible. */
  datatype Key = KNil | KNaN | KInt(i: int) | KOther(id: int)

  datatype Val = Nil | Val(id: int)

  datatype Node = Node(key: Option<Key>, val: Val, next: int)

  const NULL := -1
  const FreeNode := Node(None, Nil, NULL)

  /** The hash of a key for a vector of n nodes; nothing is known about it. */
  type Hash = (Key, int) -> nat

  /** mainposition */
  function Main(h: Hash, k: Key, n: int): (m: int)
    requires n > 0
    ensures 0 <= m < n
  {
    h(k, n) % n
  }

  /** The ghost view of the chains. */
  datatype Chains = Chains(id: seq<int>, rank: seq<real>)

  predicate Keyed(node: seq<Node>, i: int) {
    0 <= i < |node| && node[i].key.Some?
  }

  /** b comes at or after a in the chain of a. */
  ghost predicate Reaches(g: Chains, a: int, b: int)
    requires 0 <= a < |g.id| && 0 <= b < |g.id| && |g.rank| == |g.id|
  {
    g.id[a] == g.id[b] && g.rank[b] <= g.rank[a]
  }

  ghost predicate NodeLinked(node: seq<Node>, g: Chains, i: int)
    requires |g.id| == |g.rank| == |node| && Keyed(node, i)
  {
    var x := node[i].next;
    && (x != NULL ==> Keyed(node, x) && g.id[x] == g.id[i] && g.rank[x] < g.rank[i])
    && forall j :: Keyed(node, j) && g.id[j] == g.id[i] && g.rank[j] < g.rank[i] ==>
         x != NULL && g.rank[j] <= g.rank[x]
  }

  ghost predicate NodePlaced(h: Hash, node: seq<Node>, g: Chains, i: int)
    requires |g.id| == |g.rank| == |node| && Keyed(node, i)
  {
    var m := Main(h, node[i].key.value, |node|);
    && Keyed(node, m) && Reaches(g, m, i)
    && (m != i ==> Main(h, node[m].key.value, |node|) == m)
  }

  ghost predicate UniqueKeys(node: seq<Node>) {
    forall i, j :: Keyed(node, i) && Keyed(node, j) && node[i].key == node[j].key ==> i == j
  }

  /** The invariant of the node vector. */
  ghost predicate HashOK(h: Hash, node: seq<Node>, g: Chains) {
    && |node| > 0 && |g.id| == |g.rank| == |node|
    && (forall i :: 0 <= i < |node| && node[i].key.None? ==> node[i] == FreeNode)
    && (forall i :: Keyed(node, i) ==> node[i].key.value != KNil && node[i].key.value != KNaN)
    && (forall i {:trigger NodeLinked(node, g, i)} :: Keyed(node, i) ==> NodeLinked(node, g, i))
    && (forall i, j :: Keyed(node, i) && Keyed(node, j) && g.id[i] == g.id[j] && g.rank[i] == g.rank[j] ==> i == j)
    && (forall i {:trigger NodePlaced(h, node, g, i)} :: Keyed(node, i) ==> NodePlaced(h, node, g, i))
    && UniqueKeys(node)
  }

  /** The value stored for a key. */
  ghost function Stored(node: seq<Node>, k: Key): Val {
    if exists i :: Keyed(node, i) && node[i].key == Some(k)
    then var i :| Keyed(node, i) && node[i].key == Some(k); node[i].val
    else Nil
  }

  lemma StoredIs(node: seq<Node>, k: Key, i: int)
    requires UniqueKeys(node) && Keyed(node, i) && node[i].key == Some(k)
    ensures Stored(node, k) == node[i].val
  {
  }

  /** A new vector. */
  function FreeNodes(n: nat): seq<Node> {
    seq(n, _ => FreeNode)
  }

  lemma FreeOK(h: Hash, n: nat)
    requires n > 0
    ensures HashOK(h, FreeNodes(n), Chains(seq(n, i => i), seq(n, _ => 0.0)))
    ensures forall k :: Stored(FreeNodes(n), k) == Nil
    ensures |FreeNodes(n)| == n && forall i :: !Keyed(FreeNodes(n), i)
  {
  }

  lemma MainFacts(h: Hash, node: seq<Node>, g: Chains, k: Key)
    requires HashOK(h, node, g)
    ensures |node| > 0
    ensures var m := Main(h, k, |node|); 0 <= m < |node| && (node[m].val != Nil ==> Keyed(node, m))
  {
  }

  ghost function Positions(n: nat): (r: set<int>)
    ensures forall j :: j in r <==> 0 <= j < n
  {
    if n == 0 then {} else Positions(n - 1) + {n - 1}
  }

  /** An id that no node has. */
  function FreshId(id: seq<int>): (x: int)
    ensures forall i :: 0 <= i < |id| ==> id[i] < x
  {
    if id == [] then 0
    else var y := FreshId(id[1..]);
         assert forall i :: 1 <= i < |id| ==> id[i] == id[1..][i - 1];
         if id[0] < y then y else id[0] + 1
  }

  // ---------------------------------------------------------------------
  // The cases of newkey

  /** The main position holds no value: it takes the key and keeps its link. */
  function ReuseMain(node: seq<Node>, k: Key, m: int): seq<Node>
    requires 0 <= m < |node|
  {
    node[m := node[m].(key := Some(k))]
  }

  lemma ReuseMainOK(h: Hash, node: seq<Node>, g: Chains, k: Key, m: int) returns (g': Chains)
    requires HashOK(h, node, g) && k != KNil && k != KNaN
    requires m == Main(h, k, |node|) && node[m].val == Nil
    requires forall i :: Keyed(node, i) ==> node[i].key != Some(k)
    ensures HashOK(h, ReuseMain(node, k, m), g')
  {
    hide Main, NodeLinked, NodePlaced;
    var node' := ReuseMain(node, k, m);
    if Keyed(node, m) {
      g' := g;
    } else {
      g' := Chains(g.id[m := FreshId(g.id)], g.rank);
    }
    assert forall i :: Keyed(node', i) <==> Keyed(node, i) || i == m;
    assert forall i :: 0 <= i < |node'| && node'[i].key.None? ==> node'[i] == FreeNode;
    assert UniqueKeys(node') by {
      forall i, j | Keyed(node', i) && Keyed(node', j) && node'[i].key == node'[j].key ensures i == j {
      }
    }
    assert forall i :: Keyed(node', i) ==> node'[i].key.value != KNil && node'[i].key.value != KNaN;
    forall i, j | Keyed(node', i) && Keyed(node', j) && g'.id[i] == g'.id[j] && g'.rank[i] == g'.rank[j]
      ensures i == j
    {
    }
    forall i {:trigger NodeLinked(node', g', i)} | Keyed(node', i) ensures NodeLinked(node', g', i) {
      ReuseMainNode(h, node, g, g', k, m, i);
    }
    forall i {:trigger NodePlaced(h, node', g', i)} | Keyed(node', i) ensures NodePlaced(h, node', g', i) {
      ReuseMainNode(h, node, g, g', k, m, i);
    }
  }

  lemma ReuseMainNode(h: Hash, node: seq<Node>, g: Chains, g': Chains, k: Key, m: int, i: int)
    requires HashOK(h, node, g) && m == Main(h, k, |node|) && node[m].val == Nil && Keyed(ReuseMain(node, k, m), i)
    requires g' == if Keyed(node, m) then g else Chains(g.id[m := FreshId(g.id)], g.rank)
    ensures NodeLinked(ReuseMain(node, k, m), g', i) && NodePlaced(h, ReuseMain(node, k, m), g', i)
  {
    hide Main, UniqueKeys;
    var node' := ReuseMain(node, k, m);
    assert forall i :: Keyed(node', i) <==> Keyed(node, i) || i == m;
    if i != m { assert NodeLinked(node, g, i) && NodePlaced(h, node, g, i); }
    else if Keyed(node, m) { assert NodeLinked(node, g, m); }
  }

  /** The colliding node is in its own main position: the new key goes to the
      free position n, linked right after it. */
  function LinkAfter(node: seq<Node>, k: Key, m: int, n: int): seq<Node>
    requires 0 <= m < |node| && 0 <= n < |node| && m != n
  {
    node[n := Node(Some(k), Nil, node[m].next)][m := node[m].(next := n)]
  }

  function LinkChains(node: seq<Node>, g: Chains, m: int, n: int): Chains
    requires |g.id| == |g.rank| == |node| && 0 <= m < |node| && 0 <= n < |node|
  {
    var x := node[m].next;
    var r := if 0 <= x < |node| then (g.rank[m] + g.rank[x]) / 2.0 else g.rank[m] - 1.0;
    Chains(g.id[n := g.id[m]], g.rank[n := r])
  }

  ghost predicate CanLink(h: Hash, node: seq<Node>, g: Chains, k: Key, m: int, n: int) {
    && HashOK(h, node, g) && k != KNil && k != KNaN
    && m == Main(h, k, |node|) && Keyed(node, m) && Main(h, node[m].key.value, |node|) == m
    && 0 <= n < |node| && !Keyed(node, n)
    && forall i :: Keyed(node, i) ==> node[i].key != Some(k)
  }

  lemma LinkAfterNode(h: Hash, node: seq<Node>, g: Chains, k: Key, m: int, n: int, i: int)
    requires CanLink(h, node, g, k, m, n) && Keyed(LinkAfter(node, k, m, n), i)
    ensures NodeLinked(LinkAfter(node, k, m, n), LinkChains(node, g, m, n), i)
    ensures NodePlaced(h, LinkAfter(node, k, m, n), LinkChains(node, g, m, n), i)
  {
    hide Main, UniqueKeys;
    var node', g' := LinkAfter(node, k, m, n), LinkChains(node, g, m, n);
    assert NodeLinked(node, g, m);
    assert forall j :: Keyed(node', j) <==> Keyed(node, j) || j == n;
    if i != n { assert NodeLinked(node, g, i) && NodePlaced(h, node, g, i); }
  }

  lemma LinkAfterOK(h: Hash, node: seq<Node>, g: Chains, k: Key, m: int, n: int)
    requires CanLink(h, node, g, k, m, n)
    ensures HashOK(h, LinkAfter(node, k, m, n), LinkChains(node, g, m, n))
  {
    hide Main;
    var node', g' := LinkAfter(node, k, m, n), LinkChains(node, g, m, n);
    assert NodeLinked(node, g, m);
    assert forall i :: Keyed(node', i) <==> Keyed(node, i) || i == n;
    forall i, j | Keyed(node', i) && Keyed(node', j) && g'.id[i] == g'.id[j] && g'.rank[i] == g'.rank[j]
      ensures i == j
    {
    }
    forall i {:trigger NodeLinked(node', g', i)} | Keyed(node', i) ensures NodeLinked(node', g', i) {
      LinkAfterNode(h, node, g, k, m, n, i);
    }
    forall i {:trigger NodePlaced(h, node', g', i)} | Keyed(node', i) ensures NodePlaced(h, node', g', i) {
      LinkAfterNode(h, node, g, k, m, n, i);
    }
  }

  /** The colliding node is not in its main position: it moves to the free
      position n, and p, its predecessor, is relinked. */
  function MoveCollider(node: seq<Node>, k: Key, m: int, p: int, n: int): seq<Node>
    requires 0 <= m < |node| && 0 <= n < |node| && 0 <= p < |node|
  {
    node[p := node[p].(next := n)][n := node[m]][m := Node(Some(k), Nil, NULL)]
  }

  function MoveChains(g: Chains, m: int, n: int): Chains
    requires |g.id| == |g.rank| && 0 <= m < |g.id| && 0 <= n < |g.id|
  {
    Chains(g.id[n := g.id[m]][m := FreshId(g.id)], g.rank[n := g.rank[m]])
  }

  ghost predicate CanMove(h: Hash, node: seq<Node>, g: Chains, k: Key, m: int, p: int, n: int) {
    && HashOK(h, node, g) && k != KNil && k != KNaN
    && m == Main(h, k, |node|) && Keyed(node, m) && Main(h, node[m].key.value, |node|) != m
    && Keyed(node, p) && node[p].next == m
    && 0 <= n < |node| && !Keyed(node, n)
    && forall i :: Keyed(node, i) ==> node[i].key != Some(k)
  }

  lemma MoveColliderLinked(h: Hash, node: seq<Node>, g: Chains, k: Key, m: int, p: int, n: int, i: int)
    requires CanMove(h, node, g, k, m, p, n) && Keyed(MoveCollider(node, k, m, p, n), i)
    ensures NodeLinked(MoveCollider(node, k, m, p, n), MoveChains(g, m, n), i)
  {
    hide Main, UniqueKeys, FreshId, NodePlaced;
    var node', g' := MoveCollider(node, k, m, p, n), MoveChains(g, m, n);
    assert NodeLinked(node, g, m) && NodeLinked(node, g, p) && p != m && p != n;
    assert forall j :: Keyed(node', j) <==> Keyed(node, j) || j == n;
    var j := if i == n then m else i;
    if i != m {
      assert NodeLinked(node, g, j);
      assert j != p ==> node[j].next != m;
    }
  }

  lemma MoveColliderPlaced(h: Hash, node: seq<Node>, g: Chains, k: Key, m: int, p: int, n: int, i: int)
    requires CanMove(h, node, g, k, m, p, n) && Keyed(MoveCollider(node, k, m, p, n), i)
    ensures NodePlaced(h, MoveCollider(node, k, m, p, n), MoveChains(g, m, n), i)
  {
    hide Main, UniqueKeys, FreshId, NodeLinked;
    var node', g' := MoveCollider(node, k, m, p, n), MoveChains(g, m, n);
    assert forall j :: Keyed(node', j) <==> Keyed(node, j) || j == n;
    if i != m { assert NodePlaced(h, node, g, if i == n then m else i); }
  }

  lemma MoveColliderOK(h: Hash, node: seq<Node>, g: Chains, k: Key, m: int, p: int, n: int)
    requires CanMove(h, node, g, k, m, p, n)
    ensures HashOK(h, MoveCollider(node, k, m, p, n), MoveChains(g, m, n))
  {
    hide Main, FreshId;
    var node', g' := MoveCollider(node, k, m, p, n), MoveChains(g, m, n);
    assert NodeLinked(node, g, p) && p != m && p != n;
    assert forall i :: Keyed(node', i) <==> Keyed(node, i) || i == n;
    forall i, j | Keyed(node', i) && Keyed(node', j) && g'.id[i] == g'.id[j] && g'.rank[i] == g'.rank[j]
      ensures i == j
    {
    }
    forall i {:trigger NodeLinked(node', g', i)} | Keyed(node', i) ensures NodeLinked(node', g', i) {
      MoveColliderLinked(h, node, g, k, m, p, n, i);
    }
    forall i {:trigger NodePlaced(h, node', g', i)} | Keyed(node', i) ensures NodePlaced(h, node', g', i) {
      MoveColliderPlaced(h, node, g, k, m, p, n, i);
    }
  }

  // ---------------------------------------------------------------------
  // What the vector stores

  /** node' has key k, without a value, at position at, and otherwise stores
      what node stores. */
  ghost predicate Adds(node': seq<Node>, node: seq<Node>, k: Key, at: int) {
    && Keyed(node', at) && node'[at].key == Some(k) && node'[at].val == Nil
    && (forall q :: q != k ==> Stored(node', q) == Stored(node, q))
    && (forall i :: Keyed(node', i) && i != at ==> exists j :: Keyed(node, j) && node[j].key == node'[i].key)
    && (forall i :: Keyed(node, i) ==> Keyed(node', i))
    && |node'| == |node|
  }

  lemma ReuseMainAdds(h: Hash, node: seq<Node>, g: Chains, k: Key, m: int)
    requires HashOK(h, node, g) && 0 <= m < |node| && node[m].val == Nil
    requires forall i :: Keyed(node, i) ==> node[i].key != Some(k)
    requires UniqueKeys(ReuseMain(node, k, m))
    ensures Adds(ReuseMain(node, k, m), node, k, m)
  {
    var node' := ReuseMain(node, k, m);
    assert forall i :: Keyed(node, i) ==> Keyed(node', i);
    forall q | q != k ensures Stored(node', q) == Stored(node, q) {
      if i :| Keyed(node, i) && node[i].key == Some(q) {
        StoredIs(node, q, i);
        if i != m { StoredIs(node', q, i); }
      }
    }
  }

  lemma LinkAfterAdds(h: Hash, node: seq<Node>, g: Chains, k: Key, m: int, n: int)
    requires CanLink(h, node, g, k, m, n) && UniqueKeys(LinkAfter(node, k, m, n))
    ensures Adds(LinkAfter(node, k, m, n), node, k, n)
  {
    hide Main;
    var node' := LinkAfter(node, k, m, n);
    assert forall i :: Keyed(node', i) <==> Keyed(node, i) || i == n;
    forall q | q != k ensures Stored(node', q) == Stored(node, q) {
      if i :| Keyed(node, i) && node[i].key == Some(q) {
        StoredIs(node, q, i);
        StoredIs(node', q, i);
      }
    }
  }

  lemma MoveColliderAdds(h: Hash, node: seq<Node>, g: Chains, k: Key, m: int, p: int, n: int)
    requires CanMove(h, node, g, k, m, p, n) && UniqueKeys(MoveCollider(node, k, m, p, n)) && p != m
    ensures Adds(MoveCollider(node, k, m, p, n), node, k, m)
  {
    hide Main;
    var node' := MoveCollider(node, k, m, p, n);
    assert forall i :: Keyed(node', i) <==> Keyed(node, i) || i == n;
    forall q | q != k ensures Stored(node', q) == Stored(node, q) {
      if i :| Keyed(node, i) && node[i].key == Some(q) {
        StoredIs(node, q, i);
        StoredIs(node', q, if i == m then n else i);
      }
    }
    forall i | Keyed(node', i) && i != m ensures exists j :: Keyed(node, j) && node[j].key == node'[i].key {
      assert node[if i == n then m else i].key == node'[i].key;
    }
  }

  /** Writing the value of a node changes the value of its key only. */
  lemma ValueSet(h: Hash, node: seq<Node>, g: Chains, at: int, v: Val)
    requires HashOK(h, node, g) && Keyed(node, at)
    ensures var node' := node[at := node[at].(val := v)];
            && HashOK(h, node', g)
            && forall q :: Stored(node', q) == if Some(q) == node[at].key then v else Stored(node, q)
  {
    hide Main;
    var node' := node[at := node[at].(val := v)];
    assert forall i :: Keyed(node', i) <==> Keyed(node, i);
    assert UniqueKeys(node');
    forall i {:trigger NodeLinked(node', g, i)} | Keyed(node', i) ensures NodeLinked(node', g, i) {
      assert NodeLinked(node, g, i);
    }
    forall i {:trigger NodePlaced(h, node', g, i)} | Keyed(node', i) ensures NodePlaced(h, node', g, i) {
      assert NodePlaced(h, node, g, i);
    }
    forall q ensures Stored(node', q) == if Some(q) == node[at].key then v else Stored(node, q) {
      if i :| Keyed(node, i) && node[i].key == Some(q) {
        StoredIs(node, q, i);
        StoredIs(node', q, i);
      }
    }
  }

  /** A vector whose nodes all have keys from X is not longer than X is big. */
  lemma {:induction false} AllKeyed(node: seq<Node>, X: set<Key>)
    requires UniqueKeys(node)
    requires forall i :: 0 <= i < |node| ==> Keyed(node, i) && node[i].key.value in X
    ensures |node| <= |X|
    decreases |node|
  {
    if |node| > 0 {
      var n := |node| - 1;
      var rest, k := node[..n], node[n].key.value;
      assert forall i :: 0 <= i < n ==> Keyed(node, i) && rest[i] == node[i];
      assert Keyed(node, n);
      assert forall i :: Keyed(rest, i) ==> Keyed(node, i);
      AllKeyed(rest, X - {k});
    }
  }

  /** What is stored from position i on. */
  lemma StoredFrom(node: seq<Node>, i: int, q: Key)
    requires UniqueKeys(node) && 0 <= i < |node|
    ensures Stored(node[i..], q) == if node[i].key == Some(q) then node[i].val else Stored(node[i + 1..], q)
    ensures UniqueKeys(node[i..]) && UniqueKeys(node[i + 1..])
    ensures node[i].key == Some(q) ==> Stored(node[i + 1..], q) == Nil
  {
    var a, b := node[i..], node[i + 1..];
    assert forall j :: Keyed(a, j) ==> Keyed(node, i + j) && a[j] == node[i + j];
    assert forall j :: Keyed(b, j) ==>
             Keyed(node, i + 1 + j) && b[j] == node[i + 1 + j] && Keyed(a, j + 1) && a[j + 1] == b[j];
    if node[i].key == Some(q) {
      assert Keyed(a, 0);
      StoredIs(a, q, 0);
    } else if j :| Keyed(a, j) && a[j].key == Some(q) {
      assert j != 0 && Keyed(b, j - 1) && b[j - 1] == a[j];
      StoredIs(a, q, j);
      StoredIs(b, q, j - 1);
    }
  }

  lemma StoredTail(node: seq<Node>, i: int, q: Key)
    requires UniqueKeys(node) && 0 <= i <= |node|
    ensures Stored(node[i..], q) != Nil ==> Stored(node, q) == Stored(node[i..], q)
  {
    var a := node[i..];
    assert forall j :: Keyed(a, j) ==> Keyed(node, i + j) && a[j] == node[i + j];
    assert UniqueKeys(a);
    if j :| Keyed(a, j) && a[j].key == Some(q) {
      StoredIs(a, q, j);
      StoredIs(node, q, i + j);
    }
  }
}
