/** The backtracking matcher with its mutable captures. */
module Matcher {
  import opened Options
  import opened Pattern
  import opened PatternMeaning

  datatype Result = Fail | At(e: nat) | Error

  // ---------------------------------------------------------------------
  // Well-formed patterns

  /** Which captures are unfinished. */
  ghost function Shape(caps: Captures): (r: seq<bool>)
    ensures |r| == |caps| && forall i :: 0 <= i < |caps| ==> (r[i] <==> caps[i].len == UNFINISHED)
  {
    seq(|caps|, i requires 0 <= i < |caps| => caps[i].len == UNFINISHED)
  }

  ghost function LastTrue(shape: seq<bool>): (l: int)
    ensures -1 <= l < |shape| && (l >= 0 ==> shape[l]) && forall i :: l < i < |shape| ==> !shape[i]
  {
    if shape == [] then -1 else if shape[|shape| - 1] then |shape| - 1 else LastTrue(shape[..|shape| - 1])
  }

  /** Parentheses match, there are not too many, and %1 to %9 refer to
      finished captures. */
  ghost predicate Proper(items: seq<Item>, shape: seq<bool>)
    decreases |items|
  {
    if items == [] then true
    else
      var rest := items[1..];
      match items[0]
      case Open => |shape| < MAXCAPTURES && Proper(rest, shape + [true])
      case PosCapture => |shape| < MAXCAPTURES && Proper(rest, shape + [false])
      case Close => var l := LastTrue(shape); l >= 0 && Proper(rest, shape[l := false])
      case Back(l) => 0 <= l < |shape| && !shape[l] && Proper(rest, shape)
      case _ => Proper(rest, shape)
  }

  lemma ToCloseShape(caps: Captures)
    ensures LastTrue(Shape(caps)) == ToClose(caps)
  {
  }

  lemma SetNone(p: string, ec: nat, cls: ClassTest, c: char)
    requires ec < |p|
    ensures forall j: nat :: j >= ec ==> !SomeHas(cls, SetItems(p, j, ec), c)
  {
  }

  lemma BracketHas(p: string, i: nat, ec: nat, cls: ClassTest, c: char)
    requires i < ec < |p|
    ensures Has(cls, BracketSet(p, i, ec), c) ==
            if p[i + 1] == '^' then !SomeHas(cls, SetItems(p, i + 2, ec), c)
            else SomeHas(cls, SetItems(p, i + 1, ec), c)
  {
    hide SomeHas, SetItems;
  }

  /** The first member of a set. */
  lemma SetFirst(p: string, j: nat, ec: nat, cls: ClassTest, c: char)
    requires j < ec < |p|
    ensures SomeHas(cls, SetItems(p, j, ec), c) ==
            if p[j] == ESC then cls(c, p[j + 1]) || SomeHas(cls, SetItems(p, j + 2, ec), c)
            else if p[j + 1] == '-' && j + 2 < ec then p[j] <= c <= p[j + 2] || SomeHas(cls, SetItems(p, j + 3, ec), c)
            else p[j] == c || SomeHas(cls, SetItems(p, j + 1, ec), c)
  {
    hide SomeHas;
    if p[j] == ESC {
      SomeHasFirst(cls, InClass(p[j + 1]), SetItems(p, j + 2, ec), c);
    } else if p[j + 1] == '-' && j + 2 < ec {
      SomeHasFirst(cls, Range(p[j], p[j + 2]), SetItems(p, j + 3, ec), c);
    } else {
      SomeHasFirst(cls, One(p[j]), SetItems(p, j + 1, ec), c);
    }
  }

  /** The captures lie before position s. */
  ghost predicate CapsBefore(caps: Captures, s: nat) {
    forall i :: 0 <= i < |caps| ==>
      && 0 <= caps[i].start <= s && (caps[i].len == UNFINISHED || caps[i].len == POSITION || caps[i].len >= 0)
      && caps[i].start + caps[i].len <= s
  }

  lemma WeakerBefore(caps: Captures, s: nat, t: nat)
    requires CapsBefore(caps, s) && s <= t
    ensures CapsBefore(caps, t)
  {
  }

  lemma SetIsLong(p: string, i: nat)
    requires i < |p| && p[i] == '[' && ClassEnd(p, i).Some?
    ensures i + 1 < ClassEnd(p, i).value - 1 < |p|
  {
  }

  /** The pattern from p on is well formed, given the captures so far. */
  ghost predicate GoodFrom(pat: string, p: nat, caps: Captures) {
    Parse(pat, p).Some? && Proper(Parse(pat, p).value, Shape(caps))
  }

  /** All matches of the pattern from p on. */
  ghost function Ways(env: Env, pat: string, p: nat, s: nat, caps: Captures): seq<Outcome>
    requires GoodFrom(pat, p, caps) && s <= |env.src|
  {
    All(env, Parse(pat, p).value, s, caps)
  }

  /** The matches after a greedy repetition that ends between s and t. */
  ghost function WaysDown(env: Env, pat: string, p: nat, s: nat, t: nat, caps: Captures): seq<Outcome>
    requires GoodFrom(pat, p, caps) && s <= t <= |env.src|
  {
    AllDown(env, Parse(pat, p).value, s, t, caps)
  }

  lemma WaysDownStep(env: Env, pat: string, p: nat, s: nat, t: nat, caps: Captures)
    requires GoodFrom(pat, p, caps) && s <= t <= |env.src|
    ensures WaysDown(env, pat, p, s, t, caps) ==
            Ways(env, pat, p, t, caps) + (if t > s then WaysDown(env, pat, p, s, t - 1, caps) else [])
  {
  }

  /** The matches after a lazy repetition that starts at s. */
  ghost function WaysUp(env: Env, pat: string, p: nat, s: nat, cs: CharSet, caps: Captures): seq<Outcome>
    requires GoodFrom(pat, p, caps) && s <= |env.src|
  {
    AllUp(env, Parse(pat, p).value, s, cs, caps)
  }

  lemma WaysUpStep(env: Env, pat: string, p: nat, s: nat, cs: CharSet, caps: Captures)
    requires GoodFrom(pat, p, caps) && s <= |env.src|
    ensures WaysUp(env, pat, p, s, cs, caps) ==
            Ways(env, pat, p, s, caps) + (if HasAt(env, s, cs) then WaysUp(env, pat, p, s + 1, cs, caps) else [])
  {
  }

  /** A well-formed pattern starts with an item, and its rest parses. */
  lemma GoodItem(pat: string, p: nat, caps: Captures) returns (item: Item, j: nat, rest: seq<Item>)
    requires p < |pat| && GoodFrom(pat, p, caps)
    ensures ItemAt(pat, p) == Some((item, j)) && p < j <= |pat| && Parse(pat, j) == Some(rest)
    ensures Parse(pat, p) == Some([item] + rest) && ([item] + rest)[0] == item && ([item] + rest)[1..] == rest
    ensures Proper([item] + rest, Shape(caps))
  {
    item, j := ItemAt(pat, p).value.0, ItemAt(pat, p).value.1;
    rest := Parse(pat, j).value;
    assert ([item] + rest)[1..] == rest;
  }

  lemma WaysEnd(env: Env, pat: string, p: nat, s: nat, caps: Captures)
    requires p >= |pat| && s <= |env.src|
    ensures GoodFrom(pat, p, caps) && Ways(env, pat, p, s, caps) == [Outcome(s, caps)]
  {
  }

  lemma WaysOpen(env: Env, pat: string, p: nat, s: nat, caps: Captures, what: int, j: nat)
    requires p < |pat| && GoodFrom(pat, p, caps) && s <= |env.src| && pat[p] == '('
    requires if CharAt(pat, p + 1) == ')' then what == POSITION && j == p + 2 else what == UNFINISHED && j == p + 1
    ensures |caps| < MAXCAPTURES && GoodFrom(pat, j, caps + [Capture(s, what)])
    ensures Ways(env, pat, p, s, caps) == Ways(env, pat, j, s, caps + [Capture(s, what)])
  {
    var item, j', rest := GoodItem(pat, p, caps);
    hide Parse;
    assert Shape(caps + [Capture(s, what)]) == Shape(caps) + [what == UNFINISHED];
  }

  lemma WaysClose(env: Env, pat: string, p: nat, s: nat, caps: Captures)
    requires p < |pat| && GoodFrom(pat, p, caps) && s <= |env.src| && pat[p] == ')' && CapsBefore(caps, s)
    ensures var l := ToClose(caps);
            l >= 0 && var caps' := caps[l := Capture(caps[l].start, s - caps[l].start)];
                      GoodFrom(pat, p + 1, caps') && Ways(env, pat, p, s, caps) == Ways(env, pat, p + 1, s, caps')
  {
    var item, j', rest := GoodItem(pat, p, caps);
    hide Parse;
    ToCloseShape(caps);
    var l := ToClose(caps);
    assert l >= 0;
    assert Shape(caps[l := Capture(caps[l].start, s - caps[l].start)]) == Shape(caps)[l := false];
  }

  lemma WaysDollar(env: Env, pat: string, p: nat, s: nat, caps: Captures)
    requires p < |pat| && GoodFrom(pat, p, caps) && s <= |env.src| && pat[p] == '$' && p + 1 == |pat|
    ensures Ways(env, pat, p, s, caps) == if s == |env.src| then [Outcome(s, caps)] else []
  {
    var item, j', rest := GoodItem(pat, p, caps);
    assert item == AtEnd && rest == [];
    if s == |env.src| { assert All(env, rest, s, caps) == [Outcome(s, caps)]; }
  }

  lemma WaysBalanced(env: Env, pat: string, p: nat, s: nat, caps: Captures)
    requires p + 1 < |pat| && GoodFrom(pat, p, caps) && s <= |env.src| && pat[p] == ESC && pat[p + 1] == 'b'
    ensures p + 3 < |pat| && GoodFrom(pat, p + 4, caps)
    ensures match BalanceEnd(env.src, s, pat[p + 2], pat[p + 3])
            case None => Ways(env, pat, p, s, caps) == []
            case Some(e) => s < e <= |env.src| ==> Ways(env, pat, p, s, caps) == Ways(env, pat, p + 4, e, caps)
  {
    var item, j', rest := GoodItem(pat, p, caps);
  }

  lemma WaysFrontier(env: Env, pat: string, p: nat, s: nat, caps: Captures)
    requires p + 1 < |pat| && GoodFrom(pat, p, caps) && s <= |env.src| && pat[p] == ESC && pat[p + 1] == 'f'
    ensures p + 2 < |pat| && pat[p + 2] == '[' && ClassEnd(pat, p + 2).Some?
    ensures var ep := ClassEnd(pat, p + 2).value;
            && GoodFrom(pat, ep, caps)
            && Ways(env, pat, p, s, caps) ==
               if FrontierAt(env.cls, env.src, s, BracketSet(pat, p + 2, ep - 1)) then Ways(env, pat, ep, s, caps)
                   else []
  {
    var item, j', rest := GoodItem(pat, p, caps);
    hide Parse, FrontierAt, BracketSet, ClassEnd;
  }

  lemma WaysBack(env: Env, pat: string, p: nat, s: nat, caps: Captures)
    requires p + 1 < |pat| && GoodFrom(pat, p, caps) && s <= |env.src| && pat[p] == ESC && IsDigit(pat[p + 1])
    ensures GoodFrom(pat, p + 2, caps)
    ensures var l := pat[p + 1] as int - '1' as int;
            && CanRefer(caps, l)
            && Ways(env, pat, p, s, caps) ==
               if RefersAt(env.src, s, caps, l) then Ways(env, pat, p + 2, s + caps[l].len, caps) else []
  {
    var item, j', rest := GoodItem(pat, p, caps);
  }

  predicate IsDefault(pat: string, p: nat)
    requires p < |pat|
  {
    && pat[p] != '(' && pat[p] != ')' && !(pat[p] == '$' && p + 1 == |pat|)
    && !(pat[p] == ESC && (CharAt(pat, p + 1) == 'b' || CharAt(pat, p + 1) == 'f' || IsDigit(CharAt(pat, p + 1))))
  }

  /** The suffix of a single item and the position after it. */
  function Suffix(pat: string, ep: nat): (Rep, nat) {
    if ep >= |pat| then (Once, ep)
    else if pat[ep] == '?' then (Optional, ep + 1)
    else if pat[ep] == '*' then (Star, ep + 1)
    else if pat[ep] == '+' then (Plus, ep + 1)
    else if pat[ep] == '-' then (Lazy, ep + 1)
    else (Once, ep)
  }

  lemma WaysSingle(env: Env, pat: string, p: nat, s: nat, caps: Captures)
    requires p < |pat| && GoodFrom(pat, p, caps) && s <= |env.src| && IsDefault(pat, p)
    ensures ClassEnd(pat, p).Some?
    ensures var ep := ClassEnd(pat, p).value;
            var (rep, j) := Suffix(pat, ep);
            var cs := SetAt(pat, p, ep);
            && GoodFrom(pat, j, caps)
            && Ways(env, pat, p, s, caps) ==
               match rep
               case Once => if HasAt(env, s, cs) then Ways(env, pat, j, s + 1, caps) else []
               case Optional =>
                 (if HasAt(env, s, cs) then Ways(env, pat, j, s + 1, caps) else []) + Ways(env, pat, j, s, caps)
               case Star => WaysDown(env, pat, j, s, RunEnd(env, s, cs), caps)
               case Plus => if HasAt(env, s, cs) then WaysDown(env, pat, j, s + 1, RunEnd(env, s + 1, cs), caps) else []
               case Lazy => WaysUp(env, pat, j, s, cs, caps)
  {
    var item, j', rest := GoodItem(pat, p, caps);
    hide Parse, SetAt, ClassEnd, AllDown, AllUp;
  }

  class MatchState {
    const src: string
    const pat: string
    const cls: ClassTest
    var level: nat
    var capture: seq<Capture>

    constructor (src: string, pat: string, cls: ClassTest)
      ensures this.src == src && this.pat == pat && this.cls == cls && Valid(0) && level == 0
    {
      this.src, this.pat, this.cls := src, pat, cls;
      level := 0;
      capture := seq(MAXCAPTURES, _ => Capture(0, 0));
    }

    /** The captures so far lie in the subject, before position s. */
    ghost predicate Valid(s: nat)
      reads this
    {
      |capture| == MAXCAPTURES && level <= MAXCAPTURES && s <= |src| && CapsBefore(capture[..level], s)
    }

    ghost function Caps(): Captures
      reads this
      requires level <= |capture|
    {
      capture[..level]
    }

    ghost function E(): Env {
      Env(src, cls)
    }

    ghost predicate Good(p: nat, caps: Captures) {
      GoodFrom(pat, p, caps)
    }

    /** The result is the first of the possible matches. */
    ghost predicate First(r: Result, A: seq<Outcome>)
      reads this
      requires level <= |capture|
    {
      if A == [] then r == Fail else r == At(A[0].e) && Caps() == A[0].caps
    }

    // -------------------------------------------------------------------
    // Single characters

    /** classend; None is the error. */
    method ClassEndOf(i: nat) returns (e: Option<nat>)
      requires i < |pat|
      ensures e == ClassEnd(pat, i)
    {
      if pat[i] == ESC {
        return if i + 1 >= |pat| then None else Some(i + 2);
      }
      if pat[i] == '[' {
        var j := i + 1;
        if CharAt(pat, j) == '^' { j := j + 1; }
        while true
          invariant ClassEnd(pat, i) == BracketEnd(pat, j)
          decreases |pat| - j
        {
          if j >= |pat| { return None; }
          var esc := pat[j] == ESC;
          j := j + 1;
          if esc && j < |pat| { j := j + 1; }
          if j < |pat| && pat[j] == ']' { return Some(j + 1); }
        }
      }
      return Some(i + 1);
    }

    /** matchbracketclass */
    method MatchBracketClass(c: char, i: nat, ec: nat) returns (b: bool)
      requires i < ec < |pat|
      ensures b == Has(cls, BracketSet(pat, i, ec), c)
    {
      hide SomeHas, SetItems, Has, BracketSet;
      BracketHas(pat, i, ec, cls, c);
      SetNone(pat, ec, cls, c);
      var sig, j := true, i + 1;
      if pat[j] == '^' {
        sig, j := false, j + 1;
      }
      ghost var all := SomeHas(cls, SetItems(pat, j, ec), c);
      while j < ec
        invariant all == SomeHas(cls, SetItems(pat, j, ec), c)
        decreases ec - j
      {
        SetFirst(pat, j, ec, cls, c);
        var hit;
        if pat[j] == ESC {
          j := j + 1;
          hit := cls(c, pat[j]);
        } else if pat[j + 1] == '-' && j + 2 < ec {
          j := j + 2;
          hit := pat[j - 2] <= c <= pat[j];
        } else {
          hit := pat[j] == c;
        }
        if hit { return sig; }
        j := j + 1;
      }
      return !sig;
    }

    /** singlematch, together with the test for the end of the subject. */
    method SingleMatch(s: nat, i: nat, ep: nat) returns (b: bool)
      requires s <= |src| && i < ep <= |pat| && ClassEnd(pat, i) == Some(ep)
      ensures b == HasAt(E(), s, SetAt(pat, i, ep))
    {
      if s >= |src| { return false; }
      var c := src[s];
      if pat[i] == '.' { return true; }
      if pat[i] == ESC { return cls(c, pat[i + 1]); }
      if pat[i] == '[' { b := MatchBracketClass(c, i, ep - 1); return; }
      return pat[i] == c;
    }

    /** matchbalance after its check of the pattern. */
    method MatchBalance(s0: nat, x: char, y: char) returns (r: Option<nat>)
      requires s0 <= |src| && x != '\0'
      ensures r == BalanceEnd(src, s0, x, y)
      ensures r.Some? ==> s0 < r.value <= |src|
    {
      if CharAt(src, s0) != x { return None; }
      var s, cont := s0 + 1, 1;
      while s < |src|
        invariant s0 < s <= |src| && cont > 0 && BalanceEnd(src, s0, x, y) == BalanceFrom(src, s, cont, x, y)
      {
        if src[s] == y {
          cont := cont - 1;
          if cont == 0 { return Some(s + 1); }
        } else if src[s] == x {
          cont := cont + 1;
        }
        s := s + 1;
      }
      return None;
    }
  
    // -------------------------------------------------------------------
    // Matching

    /** start_capture */
    method StartCapture(s: nat, p: nat, what: int) returns (r: Result)
      requires Valid(s) && p <= |pat| && (what == UNFINISHED || what == POSITION) && CString(pat)
      modifies this
      ensures |capture| == MAXCAPTURES && level <= MAXCAPTURES
      ensures r.At? ==> s <= r.e <= |src| && Valid(r.e)
      ensures r == Fail ==> Caps() == old(Caps())
      ensures old(level) < MAXCAPTURES && Good(p, old(Caps()) + [Capture(s, what)]) ==>
                First(r, Ways(E(), pat, p, s, old(Caps()) + [Capture(s, what)]))
      decreases |pat| - p, 1, 0
    {
      if level >= MAXCAPTURES { return Error; }
      ghost var caps := Caps();
      capture := capture[level := Capture(s, what)];
      level := level + 1;
      assert Caps() == caps + [Capture(s, what)];
      r := Match(s, p);
      if r == Fail {
        assert caps == (caps + [Capture(s, what)])[..level - 1];
        level := level - 1;
      }
    }

    /** end_capture */
    method EndCapture(s: nat, p: nat) returns (r: Result)
      requires Valid(s) && p <= |pat| && CString(pat)
      modifies this
      ensures |capture| == MAXCAPTURES && level <= MAXCAPTURES
      ensures r.At? ==> s <= r.e <= |src| && Valid(r.e)
      ensures r == Fail ==> Caps() == old(Caps())
      ensures var caps := old(Caps());
              var l := ToClose(caps);
              l >= 0 && Good(p, caps[l := Capture(caps[l].start, s - caps[l].start)]) ==>
                First(r, Ways(E(), pat, p, s, caps[l := Capture(caps[l].start, s - caps[l].start)]))
      decreases |pat| - p, 1, 0
    {
      ghost var caps := Caps();
      var l: int := level - 1;
      while l >= 0 && capture[l].len != UNFINISHED
        invariant -1 <= l < level && forall i :: l < i < level ==> capture[i].len != UNFINISHED
      {
        l := l - 1;
      }
      if l < 0 { return Error; }
      assert l == ToClose(caps);
      capture := capture[l := Capture(capture[l].start, s - capture[l].start)];
      assert Caps() == caps[l := Capture(caps[l].start, s - caps[l].start)];
      r := Match(s, p);
      if r == Fail {
        capture := capture[l := Capture(capture[l].start, UNFINISHED)];
        assert caps[l] == Capture(caps[l].start, UNFINISHED);
        assert Caps() == caps;
      }
    }

    /** max_expand */
    method MaxExpand(s: nat, i: nat, ep: nat) returns (r: Result)
      requires Valid(s) && i < ep < |pat| && ClassEnd(pat, i) == Some(ep) && CString(pat)
      modifies this
      ensures |capture| == MAXCAPTURES && level <= MAXCAPTURES
      ensures r.At? ==> s <= r.e <= |src| && Valid(r.e)
      ensures r == Fail ==> Caps() == old(Caps())
      ensures Good(ep + 1, old(Caps())) ==>
                First(r, WaysDown(E(), pat, ep + 1, s, RunEnd(E(), s, SetAt(pat, i, ep)), old(Caps())))
      decreases |pat| - ep, 0, 0
    {
      hide GoodFrom, Ways, WaysDown, WaysUp, SetAt, CapsBefore;
      ghost var caps, cs := Caps(), SetAt(pat, i, ep);
      var t := s;
      var m := SingleMatch(t, i, ep);
      while m
        invariant level == old(level) && capture == old(capture) && s <= t <= |src| && m == HasAt(E(), t, cs)
        invariant RunEnd(E(), s, cs) == RunEnd(E(), t, cs)
        decreases |src| - t
      {
        t := t + 1;
        m := SingleMatch(t, i, ep);
      }
      var k: int := t;
      while k >= s
        invariant s - 1 <= k <= t && Valid(s) && Caps() == caps
        invariant Good(ep + 1, caps) ==>
                    WaysDown(E(), pat, ep + 1, s, t, caps) == if k < s then []
                        else WaysDown(E(), pat, ep + 1, s, k, caps)
      {
        WeakerBefore(caps, s, k);
        if Good(ep + 1, caps) { WaysDownStep(E(), pat, ep + 1, s, k, caps); }
        r := Match(k, ep + 1);
        if r != Fail { return; }
        k := k - 1;
      }
      return Fail;
    }

    /** min_expand */
    method MinExpand(s0: nat, i: nat, ep: nat) returns (r: Result)
      requires Valid(s0) && i < ep < |pat| && ClassEnd(pat, i) == Some(ep) && CString(pat)
      modifies this
      ensures |capture| == MAXCAPTURES && level <= MAXCAPTURES
      ensures r.At? ==> s0 <= r.e <= |src| && Valid(r.e)
      ensures r == Fail ==> Caps() == old(Caps())
      ensures Good(ep + 1, old(Caps())) ==> First(r, WaysUp(E(), pat, ep + 1, s0, SetAt(pat, i, ep), old(Caps())))
      decreases |pat| - ep, 0, 0
    {
      hide GoodFrom, Ways, WaysDown, WaysUp, SetAt, CapsBefore;
      ghost var caps, cs := Caps(), SetAt(pat, i, ep);
      var s := s0;
      while true
        invariant s0 <= s <= |src| && Valid(s0) && Caps() == caps
        invariant Good(ep + 1, caps) ==> WaysUp(E(), pat, ep + 1, s0, cs, caps) == WaysUp(E(), pat, ep + 1, s, cs, caps)
        decreases |src| - s
      {
        WeakerBefore(caps, s0, s);
        if Good(ep + 1, caps) { WaysUpStep(E(), pat, ep + 1, s, cs, caps); }
        r := Match(s, ep + 1);
        if r != Fail { return; }
        var m := SingleMatch(s, i, ep);
        if !m { return Fail; }
        s := s + 1;
      }
    }

    /** match_capture: the position after a repetition of capture l. */
    method MatchCapture(s: nat, l: int) returns (r: Result)
      requires Valid(s)
      ensures !CanRefer(Caps(), l) ==> r == Error
      ensures CanRefer(Caps(), l) ==> r == if RefersAt(src, s, Caps(), l) then At(s + Caps()[l].len) else Fail
      ensures r.At? ==> s <= r.e <= |src|
    {
      if l < 0 || l >= level || capture[l].len == UNFINISHED { return Error; }
      var start, len := capture[l].start, capture[l].len;
      assert Caps()[l] == capture[l];
      if len == POSITION { return Fail; }
      if |src| - s >= len && src[start..start + len] == src[s..s + len] { return At(s + len); }
      return Fail;
    }

    /** The cases of match for %b, %f and %0 to %9. */
    method MatchSpecial(s: nat, p: nat) returns (r: Result)
      requires Valid(s) && p + 1 < |pat| && CString(pat) && pat[p] == ESC
                 && (pat[p + 1] == 'b' || pat[p + 1] == 'f' || IsDigit(pat[p + 1]))
      modifies this
      ensures |capture| == MAXCAPTURES && level <= MAXCAPTURES
      ensures r.At? ==> s <= r.e <= |src| && Valid(r.e)
      ensures r == Fail ==> Caps() == old(Caps())
      ensures Good(p, old(Caps())) ==> First(r, Ways(E(), pat, p, s, old(Caps())))
      decreases |pat| - p, 0, 0
    {
      hide GoodFrom, Ways, CapsBefore, RefersAt, BalanceEnd, ClassEnd, BracketSet, Has;
      ghost var caps := Caps();
      if pat[p + 1] == 'b' {
        if Good(p, caps) { WaysBalanced(E(), pat, p, s, caps); }
        if p + 3 >= |pat| { return Error; }
        var e := MatchBalance(s, pat[p + 2], pat[p + 3]);
        if e.None? { return Fail; }
        WeakerBefore(caps, s, e.value);
        r := Match(e.value, p + 4);
      } else if pat[p + 1] == 'f' {
        if Good(p, caps) { WaysFrontier(E(), pat, p, s, caps); }
        if p + 2 >= |pat| || pat[p + 2] != '[' { return Error; }
        var ep := ClassEndOf(p + 2);
        if ep.None? { return Error; }
        SetIsLong(pat, p + 2);
        var before := MatchBracketClass(if s == 0 then '\0' else src[s - 1], p + 2, ep.value - 1);
        var after := MatchBracketClass(CharAt(src, s), p + 2, ep.value - 1);
        if before || !after { return Fail; }
        r := Match(s, ep.value);
      } else {
        if Good(p, caps) { WaysBack(E(), pat, p, s, caps); }
        var m := MatchCapture(s, pat[p + 1] as int - '1' as int);
        if m == Error { return Error; }
        if m == Fail { return Fail; }
        WeakerBefore(caps, s, m.e);
        r := Match(m.e, p + 2);
      }
    }

    /** The default case of match: a single character and its suffix. */
    method MatchDefault(s: nat, p: nat) returns (r: Result)
      requires Valid(s) && p < |pat| && CString(pat) && IsDefault(pat, p)
      modifies this
      ensures |capture| == MAXCAPTURES && level <= MAXCAPTURES
      ensures r.At? ==> s <= r.e <= |src| && Valid(r.e)
      ensures r == Fail ==> Caps() == old(Caps())
      ensures Good(p, old(Caps())) ==> First(r, Ways(E(), pat, p, s, old(Caps())))
      decreases |pat| - p, 0, 0
    {
      hide GoodFrom, Ways, WaysDown, WaysUp, CapsBefore, ClassEnd, SetAt, IsDefault, SomeHas, Has, RunEnd;
      ghost var caps := Caps();
      if Good(p, caps) { WaysSingle(E(), pat, p, s, caps); }
      var e := ClassEndOf(p);
      if e.None? { return Error; }
      var ep := e.value;
      var m := SingleMatch(s, p, ep);
      if m { WeakerBefore(caps, s, s + 1); }
      if ep < |pat| && pat[ep] == '?' {
        if m {
          r := Match(s + 1, ep + 1);
          if r != Fail { return; }
        }
        r := Match(s, ep + 1);
      } else if ep < |pat| && pat[ep] == '*' {
        r := MaxExpand(s, p, ep);
      } else if ep < |pat| && pat[ep] == '+' {
        if m { r := MaxExpand(s + 1, p, ep); } else { r := Fail; }
      } else if ep < |pat| && pat[ep] == '-' {
        r := MinExpand(s, p, ep);
      } else {
        if !m { return Fail; }
        r := Match(s + 1, ep);
      }
    }

    /** match; `goto init` is written as the call that it abbreviates. */
    method Match(s: nat, p: nat) returns (r: Result)
      requires Valid(s) && p <= |pat| && CString(pat)
      modifies this
      ensures |capture| == MAXCAPTURES && level <= MAXCAPTURES
      ensures r.At? ==> s <= r.e <= |src| && Valid(r.e)
      ensures r == Fail ==> Caps() == old(Caps())
      ensures Good(p, old(Caps())) ==> First(r, Ways(E(), pat, p, s, old(Caps())))
      decreases |pat| - p, 0, 1
    {
      hide GoodFrom, Ways, CapsBefore, ToClose;
      ghost var caps := Caps();
      if p == |pat| {
        WaysEnd(E(), pat, p, s, caps);
        return At(s);
      }
      if pat[p] == '(' {
        if CharAt(pat, p + 1) == ')' {
          if Good(p, caps) { WaysOpen(E(), pat, p, s, caps, POSITION, p + 2); }
          r := StartCapture(s, p + 2, POSITION);
        } else {
          if Good(p, caps) { WaysOpen(E(), pat, p, s, caps, UNFINISHED, p + 1); }
          r := StartCapture(s, p + 1, UNFINISHED);
        }
      } else if pat[p] == ')' {
        if Good(p, caps) { WaysClose(E(), pat, p, s, caps); }
        r := EndCapture(s, p + 1);
      } else if pat[p] == '$' && p + 1 == |pat| {
        if Good(p, caps) { WaysDollar(E(), pat, p, s, caps); }
        return if s == |src| then At(s) else Fail;
      } else if IsDefault(pat, p) {
        r := MatchDefault(s, p);
      } else {
        r := MatchSpecial(s, p);
      }
    }
  }
}
