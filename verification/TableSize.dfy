/** How rehash sizes the array part of a table. */
module TableSize {
  import opened Powers

  const MAXBITS := 26

  lemma {:induction false} Pow2Mono(m: nat, n: nat)
    requires m <= n
    ensures Pow2(m) <= Pow2(n)
    decreases n
  {
    if m < n { Pow2Mono(m, n - 1); }
  }

  lemma {:induction false} Pow2Add(m: nat, n: nat)
    ensures Pow2(m + n) == Pow2(m) * Pow2(n)
    decreases n
  {
    if n > 0 { Pow2Add(m, n - 1); }
  }

  /** The table log_2 of luaO_log2: the number of bits of a byte. */
  function ByteBits(x: nat): (l: nat)
    requires x < 256
    ensures x == 0 ==> l == 0
    ensures x > 0 ==> l > 0 && Pow2(l - 1) <= x < Pow2(l)
  {
    assert Pow2(1) == 2 && Pow2(2) == 4 && Pow2(3) == 8 && Pow2(4) == 16;
    assert Pow2(5) == 32 && Pow2(6) == 64 && Pow2(7) == 128 && Pow2(8) == 256;
    if x < 1 then 0 else if x < 2 then 1 else if x < 4 then 2 else if x < 8 then 3
    else if x < 16 then 4 else if x < 32 then 5 else if x < 64 then 6 else if x < 128 then 7 else 8
  }

  /** luaO_log2 */
  method Log2(x0: nat) returns (l: int)
    ensures x0 == 0 ==> l == -1
    ensures x0 > 0 ==> l >= 0 && Pow2(l) <= x0 < Pow2(l + 1)
  {
    hide Pow2;
    Pow2Small();
    var x := x0;
    l := -1;
    ghost var p: nat := 1;
    while x >= 256
      invariant l >= -1 && p == Pow2(l + 1) && (if x0 > 0 then x > 0 else x == 0 && l == -1)
      invariant x * p <= x0 < (x + 1) * p
      decreases x
    {
      Pow2Add(l + 1, 8);
      ShiftBound(x, p, x0);
      l := l + 8;
      x := x / 256;
      p := p * 256;
    }
    var b := ByteBits(x);
    if x0 > 0 {
      Pow2Add(l + 1, b - 1);
      Pow2Add(l + 1, b);
      LogBound(x, p, Pow2(b - 1), Pow2(b), x0);
    }
    l := l + b;
  }

  lemma Pow2Small()
    ensures Pow2(0) == 1 && Pow2(1) == 2 && Pow2(8) == 256
  {
    assert Pow2(4) == 16;
  }

  lemma Pow2Max()
    ensures Pow2(MAXBITS) == 0x400_0000
  {
    hide Pow2;
    Pow2Small();
    Pow2Succ(1);
    Pow2Add(8, 8);
    Pow2Add(16, 8);
    Pow2Add(24, 2);
  }

  lemma Pow2Succ(i: nat)
    ensures Pow2(i + 1) == 2 * Pow2(i) && Low(i + 1) == Pow2(i)
  {
  }

  lemma ShiftBound(x: nat, p: nat, x0: nat)
    requires x * p <= x0 < (x + 1) * p
    ensures (x / 256) * (p * 256) <= x0 < (x / 256 + 1) * (p * 256)
  {
    var q := x / 256;
    assert q * 256 <= x && x + 1 <= (q + 1) * 256;
    MulMono(q * 256, x, p);
    MulMono(x + 1, (q + 1) * 256, p);
    assert (q * 256) * p == q * (p * 256);
    assert ((q + 1) * 256) * p == (q + 1) * (p * 256);
  }

  lemma MulMono(a: nat, b: nat, c: nat)
    requires a <= b
    ensures a * c <= b * c
  {
  }

  lemma LogBound(x: nat, p: nat, lo: nat, hi: nat, x0: nat)
    requires x * p <= x0 < (x + 1) * p && lo <= x && x + 1 <= hi
    ensures p * lo <= x0 < p * hi
  {
    MulMono(lo, x, p);
    MulMono(x + 1, hi, p);
  }

  /** ceillog2 */
  method CeilLog2(x: nat) returns (l: nat)
    requires x > 0
    ensures Low(l) < x <= Pow2(l)
  {
    var m := Log2(x - 1);
    l := m + 1;
  }

  /** Slice l of the keys is (Low(l), 2^l]. */
  function Low(l: nat): nat {
    if l == 0 then 0 else Pow2(l - 1)
  }

  ghost function Upto(S: set<int>, n: int): set<int> {
    set k | k in S && 1 <= k <= n
  }

  ghost function Slice(S: set<int>, l: nat): set<int> {
    set k | k in S && Low(l) < k <= Pow2(l)
  }

  lemma {:induction false} UptoBound(S: set<int>, n: nat)
    ensures |Upto(S, n)| <= n
    decreases n
  {
    if n > 0 {
      UptoBound(S, n - 1);
      assert Upto(S, n) == if n in S then Upto(S, n - 1) + {n} else Upto(S, n - 1);
    } else {
      assert Upto(S, 0) == {};
    }
  }

  lemma UptoSlice(S: set<int>, l: nat)
    ensures |Upto(S, Pow2(l))| == |Upto(S, Low(l))| + |Slice(S, l)|
  {
    assert Upto(S, Pow2(l)) == Upto(S, Low(l)) + Slice(S, l);
  }

  lemma SubsetCard(A: set<int>, B: set<int>)
    requires A <= B
    ensures |A| <= |B|
  {
    assert B == A + (B - A);
  }

  /** nums[l] is the number of keys in slice l. */
  ghost predicate Tallies(nums: seq<nat>, S: set<int>) {
    && |nums| == MAXBITS + 1
    && (forall k :: k in S ==> 1 <= k <= Pow2(MAXBITS))
    && forall l :: 0 <= l <= MAXBITS ==> nums[l] == |Slice(S, l)|
  }

  lemma {:induction false} SameSlice(k: int, l: nat, m: nat)
    requires Low(l) < k <= Pow2(l) && Low(m) < k <= Pow2(m)
    ensures l == m
  {
    if l < m { Pow2Mono(l, m - 1); }
    if m < l { Pow2Mono(m, l - 1); }
  }

  /** S' is S with one more key. */
  ghost predicate Grows(S: set<int>, S': set<int>, k: int) {
    k !in S && S' == S + {k}
  }

  /** Counting one more key. */
  lemma TallyOne(nums: seq<nat>, S: set<int>, S': set<int>, k: int, l: nat)
    requires Tallies(nums, S) && Grows(S, S', k) && 1 <= k <= Pow2(MAXBITS) && l <= MAXBITS && Low(l) < k <= Pow2(l)
    ensures |nums| == MAXBITS + 1 && Tallies(nums[l := nums[l] + 1], S')
  {
    hide Pow2, Low;
    assert S' == S + {k};
    forall m | 0 <= m <= MAXBITS ensures nums[l := nums[l] + 1][m] == |Slice(S + {k}, m)| {
      if m == l {
        assert Slice(S + {k}, m) == Slice(S, m) + {k};
      } else {
        if Low(m) < k <= Pow2(m) { SameSlice(k, l, m); }
        assert Slice(S + {k}, m) == Slice(S, m);
      }
    }
  }

  predicate MoreThanHalf(count: nat, n: nat) {
    2 * count > n
  }

  /** n is the largest power of two such that more than half of the keys
      1..n are in use, or 0 if there is none. */
  ghost predicate BestSize(S: set<int>, n: nat) {
    && (n == 0 || exists e: nat :: e <= MAXBITS && n == Pow2(e))
    && (n > 0 ==> MoreThanHalf(|Upto(S, n)|, n))
    && forall e: nat :: Pow2(e) > n ==> !MoreThanHalf(|Upto(S, Pow2(e))|, Pow2(e))
  }

  lemma TooBig(S: set<int>, i: nat, e: nat)
    requires |S| <= Pow2(i) / 2 && i <= e
    ensures !MoreThanHalf(|Upto(S, Pow2(e))|, Pow2(e))
  {
    Pow2Mono(i, e);
    SubsetCard(Upto(S, Pow2(e)), S);
  }

  /** computesizes */
  method ComputeSizes(nums: seq<nat>, narray: nat, ghost S: set<int>) returns (n: nat, na: nat)
    requires Tallies(nums, S) && narray == |S|
    ensures BestSize(S, n) && na == |Upto(S, n)|
  {
    hide Pow2;
    Pow2Small();
    var i, twotoi, a := 0, 1, 0;
    n, na := 0, 0;
    assert Upto(S, Pow2(MAXBITS)) == S;
    UptoBound(S, Pow2(MAXBITS));
    assert Upto(S, 0) == {};
    while twotoi / 2 < narray
      invariant twotoi == Pow2(i) && a == |Upto(S, Low(i))| && na == |Upto(S, n)|
      invariant n == 0 || exists e: nat :: e < i && e <= MAXBITS && n == Pow2(e)
      invariant n > 0 ==> MoreThanHalf(|Upto(S, n)|, n)
      invariant forall e: nat :: e < i && Pow2(e) > n ==> !MoreThanHalf(|Upto(S, Pow2(e))|, Pow2(e))
      decreases MAXBITS + 1 - i
    {
      assert i <= MAXBITS by {
        if i > MAXBITS { Pow2Mono(MAXBITS + 1, i); Pow2Succ(MAXBITS); }
      }
      Pow2Succ(i);
      if i > 0 { Pow2Succ(i - 1); }
      UptoSlice(S, i);
      UptoBound(S, Low(i));
      if nums[i] > 0 {
        a := a + nums[i];
        if a > twotoi / 2 {
          n := twotoi;
          na := a;
        }
      }
      assert a == |Upto(S, Pow2(i))|;
      assert a > twotoi / 2 ==> n == twotoi;
      forall e: nat | e <= i && Pow2(e) > n ensures !MoreThanHalf(|Upto(S, Pow2(e))|, Pow2(e)) {
        Pow2Mono(e, i);
      }
      if a == narray {
        UptoBound(S, Pow2(i));
        forall e: nat | Pow2(e) > n ensures !MoreThanHalf(|Upto(S, Pow2(e))|, Pow2(e)) {
          if e > i { TooBig(S, i + 1, e); }
        }
        return;
      }
      i, twotoi := i + 1, twotoi * 2;
    }
    forall e: nat | Pow2(e) > n ensures !MoreThanHalf(|Upto(S, Pow2(e))|, Pow2(e)) {
      if e >= i { TooBig(S, i, e); }
    }
  }
}
