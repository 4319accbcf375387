/** string.find and string.match: the leftmost start from which the pattern
    matches. */
module Find {
  import opened Options
  import opened Pattern
  import opened PatternMeaning
  import opened Matcher

  datatype CaptureValue = Position(n: nat) | Text(t: string)

  datatype Found = NotFound | Found(s: nat, e: nat, values: seq<CaptureValue>) | Malformed | Unfinished

  /** The whole pattern, without its anchor, is well formed. */
  ghost predicate WellFormed(pat: string, p: nat) {
    GoodFrom(pat, p, [])
  }

  predicate Anchored(pat: string) {
    |pat| > 0 && pat[0] == '^'
  }

  // ---------------------------------------------------------------------
  // Unfinished captures

  /** Which captures the items leave unfinished. */
  ghost function EndShape(items: seq<Item>, shape: seq<bool>): seq<bool>
    requires Proper(items, shape)
    decreases |items|
  {
    if items == [] then shape
    else
      var rest := items[1..];
      match items[0]
      case Open => EndShape(rest, shape + [true])
      case PosCapture => EndShape(rest, shape + [false])
      case Close => EndShape(rest, shape[LastTrue(shape) := false])
      case _ => EndShape(rest, shape)
  }

  /** Every parenthesis of the pattern is closed. */
  ghost predicate AllClosed(pat: string, p: nat)
    requires WellFormed(pat, p)
  {
    true !in EndShape(Parse(pat, p).value, [])
  }

  predicate Finished(caps: Captures) {
    forall c :: c in caps ==> c.len != UNFINISHED
  }

  lemma ShapeNext(caps: Captures, c: Capture)
    ensures Shape(caps + [c]) == Shape(caps) + [c.len == UNFINISHED]
    ensures Shape([]) == []
  {
  }

  /** Every match leaves the same captures unfinished. */
  lemma {:induction false} ShapeEnds(env: Env, items: seq<Item>, s: nat, caps: Captures, o: Outcome)
    requires s <= |env.src| && Matches(env, items, s, caps, o) && Proper(items, Shape(caps)) && CapsBefore(caps, s)
    ensures Shape(o.caps) == EndShape(items, Shape(caps))
    decreases |items|
  {
    hide HasAt, Repeats, FrontierAt;
    if items != [] {
      var rest := items[1..];
      match items[0]
      case Open =>
        ShapeNext(caps, Capture(s, UNFINISHED));
        ShapeEnds(env, rest, s, caps + [Capture(s, UNFINISHED)], o);
      case PosCapture =>
        ShapeNext(caps, Capture(s, POSITION));
        ShapeEnds(env, rest, s, caps + [Capture(s, POSITION)], o);
      case Close =>
        ToCloseShape(caps);
        var l := ToClose(caps);
        var caps' := caps[l := Capture(caps[l].start, s - caps[l].start)];
        assert Shape(caps') == Shape(caps)[l := false];
        ShapeEnds(env, rest, s, caps', o);
      case Back(l) => ShapeEnds(env, rest, s + caps[l].len, caps, o);
      case Balanced(x, y) =>
        var e :| BalancedTo(env.src, s, e, x, y) && Matches(env, rest, e, caps, o);
        ShapeEnds(env, rest, e, caps, o);
      case Single(cs, rep) =>
        var t := SingleEnd(env, items, s, caps, o);
        ShapeEnds(env, rest, t, caps, o);
      case _ => ShapeEnds(env, rest, s, caps, o);
    }
  }

  lemma SingleEnd(env: Env, items: seq<Item>, s: nat, caps: Captures, o: Outcome) returns (t: nat)
    requires s <= |env.src| && items != [] && items[0].Single? && Matches(env, items, s, caps, o)
    ensures s <= t <= |env.src| && Matches(env, items[1..], t, caps, o)
  {
    var rest, cs := items[1..], items[0].charset;
    match items[0].rep
    case Once => t := s + 1;
    case Optional => if Matches(env, rest, s, caps, o) { t := s; } else { t := s + 1; }
    case Plus => t :| s < t <= |env.src| && Repeats(env, s, t, cs) && Matches(env, rest, t, caps, o);
    case _ => t :| s <= t <= |env.src| && Repeats(env, s, t, cs) && Matches(env, rest, t, caps, o);
  }

  // ---------------------------------------------------------------------
  // push_captures

  /** A capture as Lua sees it: a position, counted from 1, or a text. */
  function CaptureOf(src: string, c: Capture): CaptureValue
    requires CapsBefore([c], |src|) && c.len != UNFINISHED
  {
    assert c == [c][0];
    if c.len == POSITION then Position(c.start + 1) else Text(src[c.start..c.start + c.len])
  }

  /** push_onecapture for a capture that exists; None is the error. */
  method PushOneCapture(src: string, c: Capture) returns (v: Option<CaptureValue>)
    requires CapsBefore([c], |src|)
    ensures v == if c.len == UNFINISHED then None else Some(CaptureOf(src, c))
  {
    if c.len == UNFINISHED { return None; }
    return Some(CaptureOf(src, c));
  }

  /** What is pushed: all captures, or the whole match if there are none and
      it is asked for. */
  ghost predicate Pushed(src: string, caps: Captures, find: bool, s: nat, e: nat, values: seq<CaptureValue>)
    requires CapsBefore(caps, |src|) && s <= e <= |src|
  {
    if caps == [] then values == if find then [] else [Text(src[s..e])]
    else
      && Finished(caps) && |values| == |caps|
      && forall i :: 0 <= i < |caps| ==> CapsBefore([caps[i]], |src|) && values[i] == CaptureOf(src, caps[i])
  }

  /** push_captures; None is the error "unfinished capture". */
  method PushCaptures(src: string, caps: Captures, find: bool, s: nat, e: nat)
    returns (values: Option<seq<CaptureValue>>)
    requires CapsBefore(caps, |src|) && s <= e <= |src|
    ensures values.Some? <==> Finished(caps)
    ensures values.Some? ==> Pushed(src, caps, find, s, e, values.value)
  {
    if caps == [] && !find { return Some([Text(src[s..e])]); }
    var pushed: seq<CaptureValue> := [];
    var i := 0;
    while i < |caps|
      invariant i <= |caps| == |caps| && |pushed| == i && Finished(caps[..i])
      invariant forall j :: 0 <= j < i ==> CapsBefore([caps[j]], |src|) && pushed[j] == CaptureOf(src, caps[j])
    {
      var v := PushOneCapture(src, caps[i]);
      if v.None? {
        assert caps[i] in caps;
        return None;
      }
      assert caps[..i + 1] == caps[..i] + [caps[i]];
      pushed := pushed + [v.value];
      i := i + 1;
    }
    assert caps[..i] == caps;
    return Some(pushed);
  }

  // ---------------------------------------------------------------------
  // The search

  /** str_find_aux on a pattern with special characters. For a well-formed
      pattern the first match from the leftmost start is reported, with its
      captures, unless the pattern leaves one unfinished: that is an error as
      soon as there is a match. */
  method FindAux(src: string, pat: string, cls: ClassTest, init: nat, find: bool) returns (r: Found)
    requires CString(pat) && init <= |src|
    ensures var env, p := Env(src, cls), if Anchored(pat) then 1 else 0;
            WellFormed(pat, p) ==>
              && r != Malformed
              && (r == NotFound <==> NoMatch(env, pat, p, init, if Anchored(pat) then init else |src|))
              && (r == Unfinished ==> !AllClosed(pat, p))
              && (r.Found? ==>
                    && AllClosed(pat, p) && init <= r.s <= r.e <= |src| && (Anchored(pat) ==> r.s == init)
                    && NoneBefore(env, pat, p, init, r.s)
                    && var A := Ways(env, pat, p, r.s, []);
                       && A != [] && r.e == A[0].e && Matches(env, Parse(pat, p).value, r.s, [], A[0])
                       && CapsBefore(A[0].caps, |src|) && Pushed(src, A[0].caps, find, r.s, r.e, r.values))
  {
    hide Matches, Parse, GoodFrom, Ways, Pushed, AllClosed;
    var anchor := Anchored(pat);
    var p := if anchor then 1 else 0;
    var ms := new MatchState(src, pat, cls);
    ghost var env := Env(src, cls);
    var s1 := init;
    while true
      invariant fresh(ms) && ms.src == src && ms.pat == pat && ms.cls == cls && |ms.capture| == MAXCAPTURES
      invariant init <= s1 <= (if anchor then init else |src|)
      invariant WellFormed(pat, p) ==> NoneBefore(env, pat, p, init, s1)
      decreases |src| - s1
    {
      ms.level := 0;
      assert ms.Caps() == [];
      var m := ms.Match(s1, p);
      if m == Error { return Malformed; }
      if WellFormed(pat, p) { WaysAre(env, pat, p, s1); }
      if m.At? {
        if WellFormed(pat, p) { FoundFinished(env, pat, p, s1); }
        var values := PushCaptures(src, ms.capture[..ms.level], find, s1, m.e);
        return if values.None? then Unfinished else Found(s1, m.e, values.value);
      }
      if s1 >= |src| || anchor { return NotFound; }
      s1 := s1 + 1;
    }
  }

  /** The first match leaves no capture unfinished if no match does. */
  lemma FoundFinished(env: Env, pat: string, p: nat, s: nat)
    requires WellFormed(pat, p) && s <= |env.src| && Ways(env, pat, p, s, []) != []
    ensures Finished(Ways(env, pat, p, s, [])[0].caps) <==> AllClosed(pat, p)
  {
    WaysAre(env, pat, p, s);
    var o := Ways(env, pat, p, s, [])[0];
    hide Matches;
    ShapeNext([], Capture(0, 0));
    ShapeEnds(env, Parse(pat, p).value, s, [], o);
    var shape := Shape(o.caps);
    if !Finished(o.caps) {
      var i :| 0 <= i < |o.caps| && o.caps[i].len == UNFINISHED;
      assert shape[i];
    }
  }

  /** `(a` is well formed for match, but a match leaves its capture open. */
  lemma OpenCapture()
    ensures WellFormed("(a", 0) && !AllClosed("(a", 0)
  {
    assert ItemAt("(a", 0) == Some((Open, 1));
    assert ItemAt("(a", 1) == Some((Single(Exact('a'), Once), 2));
    var items := [Open, Single(Exact('a'), Once)];
    assert items[1..] == [items[1]] + [] && items == [Open] + items[1..];
    hide ItemAt;
    assert Parse("(a", 2) == Some([]);
    assert Parse("(a", 1) == Some(items[1..]);
    assert Parse("(a", 0) == Some(items);
    assert items[1..][1..] == [];
    ShapeNext([], Capture(0, 0));
    assert Proper(items[1..], [true]);
    assert EndShape(items, []) == [true];
  }

  ghost predicate NoMatch(env: Env, pat: string, p: nat, init: nat, last: nat)
    requires WellFormed(pat, p) && last <= |env.src|
  {
    forall s, o :: init <= s <= last ==> !Matches(env, Parse(pat, p).value, s, [], o)
  }

  ghost predicate NoneBefore(env: Env, pat: string, p: nat, init: nat, s1: nat)
    requires WellFormed(pat, p) && s1 <= |env.src|
  {
    forall s, o :: init <= s < s1 ==> !Matches(env, Parse(pat, p).value, s, [], o)
  }

  /** The list of ways is the set of matches. */
  lemma WaysAre(env: Env, pat: string, p: nat, s: nat)
    requires WellFormed(pat, p) && s <= |env.src|
    ensures var A := Ways(env, pat, p, s, []);
            && (A == [] ==> forall o :: !Matches(env, Parse(pat, p).value, s, [], o))
            && (A != [] ==> Matches(env, Parse(pat, p).value, s, [], A[0]))
  {
    hide Matches;
    var A := Ways(env, pat, p, s, []);
    forall o ensures o in A <==> Matches(env, Parse(pat, p).value, s, [], o) {
      AllIs(env, Parse(pat, p).value, s, [], o);
    }
    if A != [] { assert A[0] in A; }
  }
}
