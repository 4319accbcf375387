/** table.sort: quicksort in place with a median of three, calling itself only
    for the smaller part. */
module Sort {
  import opened Powers

  datatype Elem = Elem(id: int)

  type Order = (Elem, Elem) -> bool

  /** A strict weak order: what a consistent comparison function is. */
  ghost predicate StrictWeak(lt: Order) {
    && (forall x :: !lt(x, x))
    && (forall x, y, z :: lt(x, y) && lt(y, z) ==> lt(x, z))
    && (forall x, y, z :: !lt(x, y) && !lt(y, z) ==> !lt(x, z))
  }

  /** x may come before y. */
  predicate Le(lt: Order, x: Elem, y: Elem) {
    !lt(y, x)
  }

  lemma LeOrder(lt: Order)
    requires StrictWeak(lt)
    ensures forall x :: Le(lt, x, x)
    ensures forall x, y :: Le(lt, x, y) || Le(lt, y, x)
    ensures forall x, y, z :: Le(lt, x, y) && Le(lt, y, z) ==> Le(lt, x, z)
  {
  }

  lemma LtLe(lt: Order)
    requires StrictWeak(lt)
    ensures forall x, y :: lt(x, y) ==> Le(lt, x, y)
  {
  }

  lemma LeSelf(lt: Order, x: Elem)
    requires StrictWeak(lt)
    ensures Le(lt, x, x)
  {
  }

  ghost predicate Sorted(lt: Order, s: seq<Elem>, l: int, u: int) {
    forall x, y :: 0 <= x < |s| && 0 <= y < |s| && l <= x <= y <= u ==> Le(lt, s[x], s[y])
  }

  /** t is s with the elements from l to u rearranged. */
  ghost predicate Rearranged(s: seq<Elem>, t: seq<Elem>, l: int, u: int) {
    && |s| == |t| && multiset(s) == multiset(t)
    && forall k :: 0 <= k < |s| && (k < l || u < k) ==> t[k] == s[k]
  }

  lemma SameMiddle(s: seq<Elem>, t: seq<Elem>, l: int, u: int)
    requires Rearranged(s, t, l, u) && 0 <= l <= u < |s|
    ensures multiset(s[l..u + 1]) == multiset(t[l..u + 1])
  {
    SplitThree(s, l, u + 1);
    SplitThree(t, l, u + 1);
    assert t[..l] == s[..l] && t[u + 1..] == s[u + 1..];
    Cancel(multiset(s[..l]), multiset(s[l..u + 1]), multiset(t[l..u + 1]), multiset(s[u + 1..]));
  }

  /** Every element between l and u comes from there. */
  lemma RearrangedFrom(s: seq<Elem>, t: seq<Elem>, l: int, u: int, k: int) returns (i: int)
    requires Rearranged(s, t, l, u) && 0 <= k < |s| && (l <= k <= u ==> 0 <= l && u < |s|)
    ensures 0 <= i < |s| && s[i] == t[k] && if l <= k <= u then l <= i <= u else i == k
  {
    if k < l || u < k { return k; }
    SameMiddle(s, t, l, u);
    hide Rearranged;
    var b, b' := s[l..u + 1], t[l..u + 1];
    assert b'[k - l] == t[k] && t[k] in b';
    assert t[k] in multiset(b);
    i :| 0 <= i < |b| && b[i] == t[k];
    i := l + i;
  }

  lemma Cancel(A: multiset<Elem>, B: multiset<Elem>, B': multiset<Elem>, C: multiset<Elem>)
    requires A + B + C == A + B' + C
    ensures B == B'
  {
    forall x ensures B[x] == B'[x] {
      assert (A + B + C)[x] == (A + B' + C)[x];
    }
  }

  lemma SplitThree(s: seq<Elem>, l: int, u: int)
    requires 0 <= l <= u <= |s|
    ensures multiset(s) == multiset(s[..l]) + multiset(s[l..u]) + multiset(s[u..])
  {
    assert s == s[..l] + s[l..u] + s[u..];
  }

  lemma RearrangedTrans(s: seq<Elem>, t: seq<Elem>, r: seq<Elem>, l: int, u: int, l1: int, u1: int)
    requires Rearranged(s, t, l, u) && Rearranged(t, r, l1, u1) && l <= l1 && u1 <= u
    ensures Rearranged(s, r, l, u)
  {
  }

  method Swap(a: array<Elem>, i: int, j: int)
    requires 0 <= i < a.Length && 0 <= j < a.Length
    modifies a
    ensures a[i] == old(a[j]) && a[j] == old(a[i])
              && (forall k :: 0 <= k < a.Length && k != i && k != j ==> a[k] == old(a[k]))
    ensures multiset(a[..]) == multiset(old(a[..]))
  {
    a[i], a[j] := a[j], a[i];
  }

  lemma RearrangedSelf(s: seq<Elem>, l: int, u: int)
    ensures Rearranged(s, s, l, u)
  {
  }

  lemma RearrangedSwap(s: seq<Elem>, t: seq<Elem>, r: seq<Elem>, l: int, u: int, i: int, j: int)
    requires Rearranged(s, t, l, u) && 0 <= l <= i <= u < |t| && l <= j <= u && |r| == |t|
    requires multiset(r) == multiset(t) && forall k :: 0 <= k < |t| && k != i && k != j ==> r[k] == t[k]
    ensures Rearranged(s, r, l, u)
  {
  }

  /** The first part of auxsort: a[l] <= a[(l+u)/2] <= a[u]. */
  method MedianOfThree(a: array<Elem>, lt: Order, l: int, u: int)
    requires StrictWeak(lt) && 0 <= l < u < a.Length
    modifies a
    ensures Rearranged(old(a[..]), a[..], l, u)
    ensures Le(lt, a[l], a[u]) && Le(lt, a[l], a[(l + u) / 2]) && Le(lt, a[(l + u) / 2], a[u])
  {
    LeOrder(lt);
    ghost var s := a[..];
    if lt(a[u], a[l]) { Swap(a, l, u); }
    assert Rearranged(s, a[..], l, u);
    if u - l == 1 { return; }
    var i := (l + u) / 2;
    if lt(a[i], a[l]) {
      Swap(a, i, l);
    } else if lt(a[u], a[i]) {
      Swap(a, i, u);
    }
  }

  /** A swap in the part from l to u rearranges it. */
  method SwapWithin(a: array<Elem>, i: int, j: int, ghost s: seq<Elem>, ghost l: int, ghost u: int)
    requires 0 <= l <= i <= u < a.Length && l <= j <= u && Rearranged(s, a[..], l, u)
    modifies a
    ensures Rearranged(s, a[..], l, u) && a[i] == old(a[j]) && a[j] == old(a[i])
    ensures forall k :: 0 <= k < a.Length && k != i && k != j ==> a[k] == old(a[k])
  {
    hide Rearranged;
    ghost var t := a[..];
    Swap(a, i, j);
    RearrangedSwap(s, t, a[..], l, u, i, j);
  }

  /** The upward scan for an element that is not below the pivot. The one at
      high stops it, so the index stays in the range. */
  method ScanUp(a: array<Elem>, lt: Order, P: Elem, l: int, i0: int, ghost high: int) returns (i: int)
    requires StrictWeak(lt) && 0 <= l <= i0 < high < a.Length && Le(lt, P, a[high])
    requires forall k :: l <= k <= i0 ==> Le(lt, a[k], P)
    ensures i0 < i <= high && Le(lt, P, a[i]) && forall k :: l <= k < i ==> Le(lt, a[k], P)
  {
    hide StrictWeak;
    LtLe(lt);
    i := i0 + 1;
    while lt(a[i], P)
      invariant i0 < i <= high && forall k :: l <= k < i ==> Le(lt, a[k], P)
      decreases high - i
    {
      i := i + 1;
    }
  }

  /** The downward scan for an element that is not above the pivot. */
  method ScanDown(a: array<Elem>, lt: Order, P: Elem, ghost low: int, j0: int, u: int) returns (j: int)
    requires StrictWeak(lt) && 0 <= low < j0 <= u < a.Length && Le(lt, a[low], P)
    requires forall k :: j0 <= k <= u ==> Le(lt, P, a[k])
    ensures low <= j < j0 && Le(lt, a[j], P) && forall k :: j < k <= u ==> Le(lt, P, a[k])
  {
    hide StrictWeak;
    LtLe(lt);
    j := j0 - 1;
    while lt(P, a[j])
      invariant low <= j < j0 && forall k :: j < k <= u ==> Le(lt, P, a[k])
      decreases j
    {
      j := j - 1;
    }
  }

  /** The partition loop of auxsort, with the pivot at u - 1. The branches that
      report an invalid order function are never taken. */
  method Partition(a: array<Elem>, lt: Order, l: int, u: int) returns (i: int)
    requires StrictWeak(lt) && 0 <= l && l + 2 < u < a.Length
    requires Le(lt, a[l], a[u - 1]) && Le(lt, a[u - 1], a[u])
    modifies a
    ensures Rearranged(old(a[..]), a[..], l, u) && l < i < u
    ensures (forall k :: l <= k < i ==> Le(lt, a[k], a[i])) && (forall k :: i < k <= u ==> Le(lt, a[i], a[k]))
  {
    hide Rearranged, StrictWeak, Le;
    ghost var s := a[..];
    RearrangedSelf(s, l, u);
    var P := a[u - 1];
    LeSelf(lt, P);
    i := l;
    var j := u - 1;
    while true
      invariant l <= i <= j <= u - 1 && (j == u - 1 ==> i == l) && (i == j ==> l < i)
      invariant a[u - 1] == P && Rearranged(s, a[..], l, u)
      invariant forall k :: l <= k <= i ==> Le(lt, a[k], P)
      invariant forall k :: j <= k <= u ==> Le(lt, P, a[k])
      decreases j - i
    {
      ghost var low, high := if i < j then i else i - 1, if i < j then j else j + 1;
      i := ScanUp(a, lt, P, l, i, high);
      j := ScanDown(a, lt, P, low, j, u);
      if j < i { break; }
      SwapWithin(a, i, j, s, l, u);
    }
    SwapWithin(a, u - 1, i, s, l, u);
  }

  function Max(a: int, b: int): int {
    if a > b then a else b
  }

  /** Everything outside the part that is still to be sorted is in place. */
  ghost predicate Placed(lt: Order, s: seq<Elem>, l0: int, u0: int, l: int, u: int) {
    forall x, y :: 0 <= x < |s| && 0 <= y < |s| && l0 <= x <= y <= u0 && (x < l || u < y) ==> Le(lt, s[x], s[y])
  }

  lemma PlacedStays(lt: Order, s: seq<Elem>, t: seq<Elem>, l0: int, u0: int, l: int, u: int)
    requires 0 <= l && u < |s| && l0 <= l && u <= u0 && Placed(lt, s, l0, u0, l, u) && Rearranged(s, t, l, u)
    ensures Placed(lt, t, l0, u0, l, u)
  {
    forall x, y | 0 <= x < |t| && 0 <= y < |t| && l0 <= x <= y <= u0 && (x < l || u < y) ensures Le(lt, t[x], t[y]) {
      var i := RearrangedFrom(s, t, l, u, x);
      var j := RearrangedFrom(s, t, l, u, y);
      assert Le(lt, s[i], s[j]);
    }
  }

  /** a[l..i-1] <= a[i] <= a[i+1..u] */
  ghost predicate Split(lt: Order, s: seq<Elem>, l: int, u: int, i: int)
    requires 0 <= l <= i <= u < |s|
  {
    (forall k :: l <= k < i ==> Le(lt, s[k], s[i])) && (forall k :: i < k <= u ==> Le(lt, s[i], s[k]))
  }

  /** The part left of the pivot was sorted. */
  lemma LeftSorted(lt: Order, s: seq<Elem>, t: seq<Elem>, l0: int, u0: int, l: int, u: int, i: int)
    requires StrictWeak(lt) && 0 <= l <= i <= u < |s| && Placed(lt, s, l0, u0, l, u) && Split(lt, s, l, u, i)
    requires Rearranged(s, t, l, i - 1) && Sorted(lt, t, l, i - 1) && l0 <= l && u <= u0
    ensures Placed(lt, t, l0, u0, i + 1, u)
  {
    LeOrder(lt);
    forall x, y | 0 <= x < |t| && 0 <= y < |t| && l0 <= x <= y <= u0 && (x < i + 1 || u < y)
        ensures Le(lt, t[x], t[y]) {
      var x' := RearrangedFrom(s, t, l, i - 1, x);
      var y' := RearrangedFrom(s, t, l, i - 1, y);
      if !(l <= x < i && l <= y < i) {
        assert x' <= y' && (x' < l || u < y' || (x' <= i <= y'));
        assert Le(lt, s[x'], s[y']);
      }
    }
  }

  /** The part right of the pivot was sorted. */
  lemma RightSorted(lt: Order, s: seq<Elem>, t: seq<Elem>, l0: int, u0: int, l: int, u: int, i: int)
    requires StrictWeak(lt) && 0 <= l <= i <= u < |s| && Placed(lt, s, l0, u0, l, u) && Split(lt, s, l, u, i)
    requires Rearranged(s, t, i + 1, u) && Sorted(lt, t, i + 1, u) && l0 <= l && u <= u0
    ensures Placed(lt, t, l0, u0, l, i - 1)
  {
    LeOrder(lt);
    forall x, y | 0 <= x < |t| && 0 <= y < |t| && l0 <= x <= y <= u0 && (x < l || i - 1 < y)
        ensures Le(lt, t[x], t[y]) {
      var x' := RearrangedFrom(s, t, i + 1, u, x);
      var y' := RearrangedFrom(s, t, i + 1, u, y);
      if !(i < x <= u && i < y <= u) {
        assert x' <= y' && (x' < l || u < y' || (x' <= i <= y'));
        assert Le(lt, s[x'], s[y']);
      }
    }
  }

  /** The body of the loop up to the recursive call: the position of the pivot. */
  method PivotStep(a: array<Elem>, lt: Order, l: int, u: int) returns (i: int)
    requires StrictWeak(lt) && 0 <= l && l + 2 < u < a.Length
    requires Le(lt, a[l], a[(l + u) / 2]) && Le(lt, a[(l + u) / 2], a[u])
    modifies a
    ensures Rearranged(old(a[..]), a[..], l, u) && l < i < u && Split(lt, a[..], l, u, i)
  {
    ghost var s := a[..];
    Swap(a, (l + u) / 2, u - 1);
    ghost var t := a[..];
    assert Rearranged(s, t, l, u);
    i := Partition(a, lt, l, u);
    RearrangedTrans(s, t, a[..], l, u, l, u);
  }

  /** auxsort: the elements from l to u are sorted, the others stay. The depth
      of the recursion is at most the logarithm of their number. */
  method AuxSort(a: array<Elem>, lt: Order, l0: int, u0: int) returns (ghost depth: nat)
    requires StrictWeak(lt) && 0 <= l0 && u0 < a.Length && l0 <= u0 + 1
    modifies a
    ensures Rearranged(old(a[..]), a[..], l0, u0) && Sorted(lt, a[..], l0, u0)
    ensures Pow2(depth) <= Max(1, u0 - l0 + 1)
    decreases u0 - l0 + 1, 1
  {
    hide Rearranged, Placed, Sorted, Split, StrictWeak;
    ghost var s := a[..];
    var l, u := l0, u0;
    depth := 0;
    StartSort(lt, s, l0, u0);
    while l < u
      invariant l0 <= l && u <= u0 && l <= u + 1
      invariant Rearranged(s, a[..], l0, u0) && Placed(lt, a[..], l0, u0, l, u)
      invariant Pow2(depth) <= Max(1, u0 - l0 + 1)
      decreases u - l
    {
      ghost var t := a[..];
      MedianOfThree(a, lt, l, u);
      PlacedStays(lt, t, a[..], l0, u0, l, u);
      RearrangedTrans(s, t, a[..], l0, u0, l, u);
      if u - l <= 2 {
        SmallSorted(lt, a[..], l0, u0, l, u);
        return;
      }
      t := a[..];
      ghost var d;
      l, u, d := SortSmaller(a, lt, l, u, l0, u0);
      RearrangedTrans(s, t, a[..], l0, u0, l0, u0);
      depth := Max(depth, d + 1);
    }
    OneSorted(lt, a[..], l0, u0, l, u);
  }

  /** Partition, and the recursive call for the smaller part; the rest is what
      the loop goes on with. */
  method SortSmaller(a: array<Elem>, lt: Order, l: int, u: int, ghost l0: int, ghost u0: int)
    returns (l': int, u': int, ghost d: nat)
    requires StrictWeak(lt) && 0 <= l && l + 2 < u < a.Length && l0 <= l && u <= u0 && Placed(lt, a[..], l0, u0, l, u)
    requires Le(lt, a[l], a[(l + u) / 2]) && Le(lt, a[(l + u) / 2], a[u])
    modifies a
    ensures Rearranged(old(a[..]), a[..], l0, u0) && Placed(lt, a[..], l0, u0, l', u')
    ensures l <= l' && u' <= u && l' <= u' + 1 && u' - l' < u - l && 2 * Pow2(d) <= u - l + 1
    decreases u - l + 1, 0
  {
    hide Rearranged, Placed, Sorted, Split, StrictWeak;
    ghost var s := a[..];
    var i := PivotStep(a, lt, l, u);
    ghost var t := a[..];
    PlacedStays(lt, s, t, l0, u0, l, u);
    if i - l < u - i {
      d := AuxSort(a, lt, l, i - 1);
      LeftSorted(lt, t, a[..], l0, u0, l, u, i);
      RearrangedTrans(s, t, a[..], l, u, l, i - 1);
      l', u' := i + 1, u;
    } else {
      d := AuxSort(a, lt, i + 1, u);
      RightSorted(lt, t, a[..], l0, u0, l, u, i);
      RearrangedTrans(s, t, a[..], l, u, i + 1, u);
      l', u' := l, i - 1;
    }
    RearrangedWider(s, a[..], l, u, l0, u0);
  }

  lemma RearrangedWider(s: seq<Elem>, t: seq<Elem>, l: int, u: int, l0: int, u0: int)
    requires Rearranged(s, t, l, u) && l0 <= l && u <= u0
    ensures Rearranged(s, t, l0, u0)
  {
  }

  lemma StartSort(lt: Order, s: seq<Elem>, l: int, u: int)
    ensures Rearranged(s, s, l, u) && Placed(lt, s, l, u, l, u)
  {
  }

  lemma OneSorted(lt: Order, s: seq<Elem>, l0: int, u0: int, l: int, u: int)
    requires StrictWeak(lt) && Placed(lt, s, l0, u0, l, u) && l >= u
    ensures Sorted(lt, s, l0, u0)
  {
  }

  lemma SmallSorted(lt: Order, s: seq<Elem>, l0: int, u0: int, l: int, u: int)
    requires StrictWeak(lt) && 0 <= l < u < |s| && u - l <= 2 && Placed(lt, s, l0, u0, l, u)
    requires Le(lt, s[l], s[u]) && Le(lt, s[l], s[(l + u) / 2]) && Le(lt, s[(l + u) / 2], s[u])
    ensures Sorted(lt, s, l0, u0)
  {
    LeOrder(lt);
  }

  /** sort */
  method SortTable(a: array<Elem>, lt: Order)
    requires StrictWeak(lt)
    modifies a
    ensures multiset(a[..]) == multiset(old(a[..])) && Sorted(lt, a[..], 0, a.Length - 1)
    ensures forall i, j :: 0 <= i < j < a.Length ==> !lt(a[j], a[i])
  {
    ghost var d := AuxSort(a, lt, 0, a.Length - 1);
    forall i, j | 0 <= i < j < a.Length ensures !lt(a[j], a[i]) { assert Le(lt, a[..][i], a[..][j]); }
  }
}
