/** Two meanings of a pattern: the relation "matches", and the list of all
    matches in the order in which greedy and lazy choices try them. */
module PatternMeaning {
  import opened Options
  import opened Pattern

  datatype Outcome = Outcome(e: nat, caps: Captures)

  /** What a matcher works with: the subject and the character classes. */
  datatype Env = Env(src: string, cls: ClassTest)

  /** The character at s exists and is in the set. */
  predicate HasAt(env: Env, s: nat, cs: CharSet) {
    s < |env.src| && Has(env.cls, cs, env.src[s])
  }

  /** The characters from s to t are in the set. */
  ghost predicate Repeats(env: Env, s: nat, t: nat, cs: CharSet) {
    forall j :: s <= j < t ==> HasAt(env, j, cs)
  }

  // ---------------------------------------------------------------------
  // The relation

  /** The items match src[s..o.e] and turn captures caps into o.caps. */
  ghost predicate Matches(env: Env, items: seq<Item>, s: nat, caps: Captures, o: Outcome)
    requires s <= |env.src|
    decreases |items|
  {
    if items == [] then o == Outcome(s, caps)
    else
      var rest := items[1..];
      match items[0]
      case Open => Matches(env, rest, s, caps + [Capture(s, UNFINISHED)], o)
      case PosCapture => Matches(env, rest, s, caps + [Capture(s, POSITION)], o)
      case Close =>
        var l := ToClose(caps);
        l >= 0 && Matches(env, rest, s, caps[l := Capture(caps[l].start, s - caps[l].start)], o)
      case Balanced(x, y) =>
        exists e :: BalancedTo(env.src, s, e, x, y) && Matches(env, rest, e, caps, o)
      case Frontier(cs) => FrontierAt(env.cls, env.src, s, cs) && Matches(env, rest, s, caps, o)
      case Back(l) => RefersAt(env.src, s, caps, l) && Matches(env, rest, s + caps[l].len, caps, o)
      case AtEnd => s == |env.src| && Matches(env, rest, s, caps, o)
      case Single(cs, Once) => HasAt(env, s, cs) && Matches(env, rest, s + 1, caps, o)
      case Single(cs, Optional) =>
        (HasAt(env, s, cs) && Matches(env, rest, s + 1, caps, o)) || Matches(env, rest, s, caps, o)
      case Single(cs, Plus) =>
        exists t :: s < t <= |env.src| && Repeats(env, s, t, cs) && Matches(env, rest, t, caps, o)
      case Single(cs, _) =>
        exists t :: s <= t <= |env.src| && Repeats(env, s, t, cs) && Matches(env, rest, t, caps, o)
  }

  // ---------------------------------------------------------------------
  // All matches in order

  /** The end of the longest run of characters in the set. */
  function RunEnd(env: Env, s: nat, cs: CharSet): (t: nat)
    requires s <= |env.src|
    ensures s <= t <= |env.src| && Repeats(env, s, t, cs) && !HasAt(env, t, cs)
    decreases |env.src| - s
  {
    if HasAt(env, s, cs) then RunEnd(env, s + 1, cs) else s
  }

  /** matchbalance after its first character. */
  function BalanceFrom(src: string, j: nat, depth: nat, x: char, y: char): Option<nat>
    requires depth > 0
    decreases |src| - j
  {
    if j >= |src| then None
    else if src[j] == y then (if depth == 1 then Some(j + 1) else BalanceFrom(src, j + 1, depth - 1, x, y))
    else if src[j] == x then BalanceFrom(src, j + 1, depth + 1, x, y)
    else BalanceFrom(src, j + 1, depth, x, y)
  }

  function BalanceEnd(src: string, s: nat, x: char, y: char): Option<nat> {
    if s < |src| && src[s] == x then BalanceFrom(src, s + 1, 1, x, y) else None
  }

  function All(env: Env, items: seq<Item>, s: nat, caps: Captures): seq<Outcome>
    requires s <= |env.src|
    decreases |items|, 0, 0
  {
    if items == [] then [Outcome(s, caps)]
    else
      var rest := items[1..];
      match items[0]
      case Open => All(env, rest, s, caps + [Capture(s, UNFINISHED)])
      case PosCapture => All(env, rest, s, caps + [Capture(s, POSITION)])
      case Close =>
        var l := ToClose(caps);
        if l < 0 then [] else All(env, rest, s, caps[l := Capture(caps[l].start, s - caps[l].start)])
      case Balanced(x, y) =>
        (match BalanceEnd(env.src, s, x, y)
         case None => []
         case Some(e) => if s < e <= |env.src| then All(env, rest, e, caps) else [])
      case Frontier(cs) => if FrontierAt(env.cls, env.src, s, cs) then All(env, rest, s, caps) else []
      case Back(l) => if RefersAt(env.src, s, caps, l) then All(env, rest, s + caps[l].len, caps) else []
      case AtEnd => if s == |env.src| then All(env, rest, s, caps) else []
      case Single(cs, rep) =>
        match rep
        case Once => if HasAt(env, s, cs) then All(env, rest, s + 1, caps) else []
        case Optional => (if HasAt(env, s, cs) then All(env, rest, s + 1, caps) else []) + All(env, rest, s, caps)
        case Star => AllDown(env, rest, s, RunEnd(env, s, cs), caps)
        case Plus => if HasAt(env, s, cs) then AllDown(env, rest, s + 1, RunEnd(env, s + 1, cs), caps) else []
        case Lazy => AllUp(env, rest, s, cs, caps)
  }

  /** First the longest repetition. */
  function AllDown(env: Env, rest: seq<Item>, s: nat, t: nat, caps: Captures): seq<Outcome>
    requires s <= t <= |env.src|
    decreases |rest|, 1, t
  {
    All(env, rest, t, caps) + (if t > s then AllDown(env, rest, s, t - 1, caps) else [])
  }

  /** First the shortest repetition. */
  function AllUp(env: Env, rest: seq<Item>, s: nat, cs: CharSet, caps: Captures): seq<Outcome>
    requires s <= |env.src|
    decreases |rest|, 1, |env.src| - s
  {
    All(env, rest, s, caps) + (if HasAt(env, s, cs) then AllUp(env, rest, s + 1, cs, caps) else [])
  }

  // ---------------------------------------------------------------------
  // The two meanings agree

  lemma {:induction false} BalanceFromIs(src: string, s: nat, j: nat, depth: nat, x: char, y: char, e: nat)
    requires s < j <= |src| && src[s] == x && depth > 0 && Depth(src, s, j, x, y) == depth
    requires forall i :: s < i <= j ==> Depth(src, s, i, x, y) > 0
    ensures BalanceFrom(src, j, depth, x, y) == Some(e) <==> BalancedTo(src, s, e, x, y)
    decreases |src| - j
  {
    if j < |src| {
      assert Depth(src, s, j + 1, x, y) == depth + (if src[j] == y then -1 else if src[j] == x then 1 else 0);
      if src[j] == y && depth == 1 {
        assert Depth(src, s, j + 1, x, y) == 0;
      } else if src[j] == y {
        BalanceFromIs(src, s, j + 1, depth - 1, x, y, e);
      } else if src[j] == x {
        BalanceFromIs(src, s, j + 1, depth + 1, x, y, e);
      } else {
        BalanceFromIs(src, s, j + 1, depth, x, y, e);
      }
    }
  }

  /** matchbalance finds exactly the first balanced end. */
  lemma BalanceEndIs(src: string, s: nat, x: char, y: char, e: nat)
    ensures BalanceEnd(src, s, x, y) == Some(e) <==> BalancedTo(src, s, e, x, y)
  {
    if s < |src| && src[s] == x {
      assert Depth(src, s, s + 1, x, y) == 1;
      BalanceFromIs(src, s, s + 1, 1, x, y, e);
    }
  }

  /** The rest matches from some position between s and t. */
  ghost predicate MatchesWithin(env: Env, rest: seq<Item>, s: nat, t: nat, caps: Captures, o: Outcome)
    requires t <= |env.src|
  {
    exists i :: s <= i <= t && Matches(env, rest, i, caps, o)
  }

  lemma {:induction false} AllDownIs(env: Env, rest: seq<Item>, s: nat, t: nat, caps: Captures, o: Outcome)
    requires s <= t <= |env.src|
    requires forall i :: s <= i <= t ==> (o in All(env, rest, i, caps) <==> Matches(env, rest, i, caps, o))
    ensures o in AllDown(env, rest, s, t, caps) <==> MatchesWithin(env, rest, s, t, caps, o)
    decreases t
  {
    hide All, Matches;
    if t > s {
      AllDownIs(env, rest, s, t - 1, caps, o);
      assert MatchesWithin(env, rest, s, t, caps, o) <==>
             MatchesWithin(env, rest, s, t - 1, caps, o) || Matches(env, rest, t, caps, o);
    }
  }

  lemma {:induction false} AllUpIs(env: Env, rest: seq<Item>, s: nat, cs: CharSet, caps: Captures, o: Outcome)
    requires s <= |env.src|
    requires forall i :: s <= i <= |env.src| ==> (o in All(env, rest, i, caps) <==> Matches(env, rest, i, caps, o))
    ensures o in AllUp(env, rest, s, cs, caps) <==> MatchesWithin(env, rest, s, RunEnd(env, s, cs), caps, o)
    decreases |env.src| - s
  {
    hide All, Matches;
    if HasAt(env, s, cs) {
      AllUpIs(env, rest, s + 1, cs, caps, o);
      var t := RunEnd(env, s, cs);
      assert MatchesWithin(env, rest, s, t, caps, o) <==>
             MatchesWithin(env, rest, s + 1, t, caps, o) || Matches(env, rest, s, caps, o);
    }
  }

  /** A repetition ends inside the longest run. */
  lemma RunIs(env: Env, s: nat, t: nat, cs: CharSet)
    requires s <= t <= |env.src|
    ensures Repeats(env, s, t, cs) <==> t <= RunEnd(env, s, cs)
  {
    var r := RunEnd(env, s, cs);
    if t > r { assert !HasAt(env, r, cs); }
  }

  /** The list holds exactly the matches. */
  lemma {:induction false} AllIs(env: Env, items: seq<Item>, s: nat, caps: Captures, o: Outcome)
    requires s <= |env.src|
    ensures o in All(env, items, s, caps) <==> Matches(env, items, s, caps, o)
    decreases |items|
  {
    if items != [] {
      var rest := items[1..];
      forall i: nat, c: Captures | i <= |env.src| ensures o in All(env, rest, i, c) <==> Matches(env, rest, i, c, o) {
        AllIs(env, rest, i, c, o);
      }
      match items[0] {
        case Balanced(x, y) =>
          forall e: nat ensures BalanceEnd(env.src, s, x, y) == Some(e) <==> BalancedTo(env.src, s, e, x, y) {
            BalanceEndIs(env.src, s, x, y, e);
          }
        case Single(cs, rep) =>
          SingleIs(env, cs, rep, rest, s, caps, o);
        case _ =>
      }
    }
  }

  lemma SingleIs(env: Env, cs: CharSet, rep: Rep, rest: seq<Item>, s: nat, caps: Captures, o: Outcome)
    requires s <= |env.src|
    requires forall i: nat :: i <= |env.src| ==> (o in All(env, rest, i, caps) <==> Matches(env, rest, i, caps, o))
    ensures o in All(env, [Single(cs, rep)] + rest, s, caps) <==> Matches(env, [Single(cs, rep)] + rest, s, caps, o)
  {
    assert ([Single(cs, rep)] + rest)[1..] == rest;
    match rep {
      case Star =>
        AllDownIs(env, rest, s, RunEnd(env, s, cs), caps, o);
        WithinRun(env, rest, s, s, cs, caps, o);
      case Plus =>
        if HasAt(env, s, cs) { AllDownIs(env, rest, s + 1, RunEnd(env, s + 1, cs), caps, o); }
        WithinRun(env, rest, s, s + 1, cs, caps, o);
      case Lazy =>
        AllUpIs(env, rest, s, cs, caps, o);
        WithinRun(env, rest, s, s, cs, caps, o);
      case Once =>
      case Optional =>
    }
  }

  /** Repetitions are positions within the longest run. */
  lemma WithinRun(env: Env, rest: seq<Item>, s: nat, from: nat, cs: CharSet, caps: Captures, o: Outcome)
    requires s <= from && s <= |env.src|
    ensures MatchesWithin(env, rest, from, RunEnd(env, s, cs), caps, o)
       <==> exists t :: from <= t <= |env.src| && Repeats(env, s, t, cs) && Matches(env, rest, t, caps, o)
  {
    hide Matches, Repeats;
    var r := RunEnd(env, s, cs);
    if i :| from <= i <= r && Matches(env, rest, i, caps, o) { RunIs(env, s, i, cs); }
    if t :| from <= t <= |env.src| && Repeats(env, s, t, cs) && Matches(env, rest, t, caps, o) { RunIs(env, s, t, cs); }
  }
}
