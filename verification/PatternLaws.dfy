/** What patterns match, in terms of the subject alone. */
module PatternLaws {
  import opened Options
  import opened Pattern
  import opened PatternMeaning
  import opened PatternText
  import opened Matcher
  import opened Find

  // ---------------------------------------------------------------------
  // Single characters

  /** The set holds the character c. */
  predicate Holds(env: Env, cs: CharSet, c: char) {
    Has(env.cls, cs, c)
  }

  /** `.` takes every character, `%x` those of its class, `[lo-hi]` those from
      lo to hi, `[^lo-hi]` all others, and a character itself. */
  lemma SetsHold(env: Env, lo: char, hi: char, cl: char, d: char, c: char)
    ensures Holds(env, Any, c) && (Holds(env, Class(cl), c) <==> env.cls(c, cl))
    ensures Holds(env, Exact(d), c) <==> c == d
    ensures Holds(env, Bracket(false, [Range(lo, hi)]), c) <==> lo <= c <= hi
    ensures Holds(env, Bracket(true, [Range(lo, hi)]), c) <==> c < lo || hi < c
    ensures Holds(env, Bracket(false, [InClass(cl), One(d)]), c) <==> env.cls(c, cl) || c == d
  {
    SomeHasFirst(env.cls, Range(lo, hi), [], c);
    SomeHasFirst(env.cls, InClass(cl), [One(d)], c);
    SomeHasFirst(env.cls, One(d), [], c);
    assert [Range(lo, hi)] + [] == [Range(lo, hi)] && [One(d)] + [] == [One(d)];
    assert [InClass(cl)] + [One(d)] == [InClass(cl), One(d)];
    assert !SomeHas(env.cls, [], c);
  }

  // ---------------------------------------------------------------------
  // Plain text

  /** A character that is no pattern item but itself. */
  predicate IsPlain(c: char) {
    SetOK(Exact(c)) && !IsSuffix(c) && c != '\0' && c != '^'
  }

  function Literally(s: string): seq<Item> {
    if s == "" then [] else [Single(Exact(s[0]), Once)] + Literally(s[1..])
  }

  lemma {:induction false} LiterallyText(s: string)
    requires forall c :: c in s ==> IsPlain(c)
    ensures Printable(Literally(s)) && Written(Literally(s)) == s && (Literally(s) == [] <==> s == "")
    ensures s != "" ==> Literally(s)[0] == Single(Exact(s[0]), Once)
  {
    if s != "" {
      LiterallyText(s[1..]);
      assert s[0] in s && (s[1..] != "" ==> s[1..][0] in s);
      assert Literally(s)[1..] == Literally(s[1..]);
      assert s == [s[0]] + s[1..];
    }
  }

  /** Plain text matches where it stands, and takes no capture. */
  lemma {:induction false} LiteralMatches(env: Env, lit: string, s: nat, caps: Captures, o: Outcome)
    requires s <= |env.src|
    ensures Matches(env, Literally(lit), s, caps, o) <==>
            s + |lit| <= |env.src| && env.src[s..s + |lit|] == lit && o == Outcome(s + |lit|, caps)
    decreases |lit|
  {
    if lit != "" {
      assert Literally(lit)[1..] == Literally(lit[1..]);
      if s < |env.src| && env.src[s] == lit[0] {
        LiteralMatches(env, lit[1..], s + 1, caps, o);
        if s + |lit| <= |env.src| {
          assert env.src[s..s + |lit|] == [env.src[s]] + env.src[s + 1..s + |lit|];
        }
      } else if s + |lit| <= |env.src| {
        assert env.src[s..s + |lit|][0] == env.src[s];
      }
    }
  }

  // ---------------------------------------------------------------------
  // The order of the choices

  /** A match of the items after one repetition of the set up to t. */
  predicate RestMatches(env: Env, rest: seq<Item>, t: nat, caps: Captures)
    requires t <= |env.src|
  {
    All(env, rest, t, caps) != []
  }

  /** The first match of a greedy item repeats it as often as the rest of the
      pattern allows. */
  lemma GreedyIsLongest(env: Env, cs: CharSet, rest: seq<Item>, s: nat, caps: Captures) returns (t: nat)
    requires s <= |env.src| && All(env, [Single(cs, Star)] + rest, s, caps) != []
    ensures s <= t <= |env.src| && Repeats(env, s, t, cs) && RestMatches(env, rest, t, caps)
    ensures All(env, [Single(cs, Star)] + rest, s, caps)[0] == All(env, rest, t, caps)[0]
    ensures forall u :: t < u <= |env.src| && Repeats(env, s, u, cs) ==> !RestMatches(env, rest, u, caps)
  {
    assert ([Single(cs, Star)] + rest)[1..] == rest;
    var e := RunEnd(env, s, cs);
    t := DownFirst(env, rest, s, e, caps);
    forall u | t < u <= |env.src| && Repeats(env, s, u, cs) ensures !RestMatches(env, rest, u, caps) {
      RunIsLongest(env, cs, s, u);
    }
  }

  lemma RunIsLongest(env: Env, cs: CharSet, s: nat, u: nat)
    requires s <= u <= |env.src| && Repeats(env, s, u, cs)
    ensures u <= RunEnd(env, s, cs)
  {
  }

  lemma {:induction false} DownFirst(env: Env, rest: seq<Item>, s: nat, e: nat, caps: Captures) returns (t: nat)
    requires s <= e <= |env.src| && AllDown(env, rest, s, e, caps) != []
    ensures s <= t <= e && RestMatches(env, rest, t, caps)
    ensures AllDown(env, rest, s, e, caps)[0] == All(env, rest, t, caps)[0]
    ensures forall u :: t < u <= e ==> !RestMatches(env, rest, u, caps)
    decreases e
  {
    if RestMatches(env, rest, e, caps) { t := e; } else { t := DownFirst(env, rest, s, e - 1, caps); }
  }

  /** The first match of a lazy item repeats it as seldom as possible. */
  lemma LazyIsShortest(env: Env, cs: CharSet, rest: seq<Item>, s: nat, caps: Captures) returns (t: nat)
    requires s <= |env.src| && All(env, [Single(cs, Lazy)] + rest, s, caps) != []
    ensures s <= t <= |env.src| && Repeats(env, s, t, cs) && RestMatches(env, rest, t, caps)
    ensures All(env, [Single(cs, Lazy)] + rest, s, caps)[0] == All(env, rest, t, caps)[0]
    ensures forall u :: s <= u < t ==> !RestMatches(env, rest, u, caps)
  {
    assert ([Single(cs, Lazy)] + rest)[1..] == rest;
    t := UpFirst(env, rest, s, cs, caps);
  }

  lemma {:induction false} UpFirst(env: Env, rest: seq<Item>, s: nat, cs: CharSet, caps: Captures) returns (t: nat)
    requires s <= |env.src| && AllUp(env, rest, s, cs, caps) != []
    ensures s <= t <= |env.src| && Repeats(env, s, t, cs) && RestMatches(env, rest, t, caps)
    ensures AllUp(env, rest, s, cs, caps)[0] == All(env, rest, t, caps)[0]
    ensures forall u :: s <= u < t ==> !RestMatches(env, rest, u, caps)
    decreases |env.src| - s
  {
    if RestMatches(env, rest, s, caps) { t := s; } else { t := UpFirst(env, rest, s + 1, cs, caps); }
  }

  /** `+` is one occurrence and then `*`; `?` tries one occurrence, then none. */
  lemma PlusAndOptional(env: Env, cs: CharSet, rest: seq<Item>, s: nat, caps: Captures)
    requires s <= |env.src|
    ensures All(env, [Single(cs, Plus)] + rest, s, caps) ==
            All(env, [Single(cs, Once), Single(cs, Star)] + rest, s, caps)
    ensures All(env, [Single(cs, Optional)] + rest, s, caps) ==
            All(env, [Single(cs, Once)] + rest, s, caps) + All(env, rest, s, caps)
  {
    assert ([Single(cs, Plus)] + rest)[1..] == rest && ([Single(cs, Optional)] + rest)[1..] == rest;
    assert ([Single(cs, Once)] + rest)[1..] == rest;
    assert ([Single(cs, Once), Single(cs, Star)] + rest)[1..] == [Single(cs, Star)] + rest;
    assert ([Single(cs, Star)] + rest)[1..] == rest;
  }

  // ---------------------------------------------------------------------
  // Balanced strings and frontiers

  function Count(src: string, s: nat, j: nat, c: char): nat
    requires s <= j <= |src|
    decreases j
  {
    if j == s then 0 else Count(src, s, j - 1, c) + (if src[j - 1] == c then 1 else 0)
  }

  lemma {:induction false} DepthCounts(src: string, s: nat, j: nat, x: char, y: char)
    requires s < j <= |src| && src[s] == x && x != y
    ensures Depth(src, s, j, x, y) == Count(src, s, j, x) - Count(src, s, j, y)
    decreases j
  {
    if j > s + 1 { DepthCounts(src, s, j - 1, x, y); } else { assert Count(src, s, s, x) == 0 == Count(src, s, s, y); }
  }

  /** Before e, there are more x than y from s on. */
  ghost predicate MoreBefore(src: string, s: nat, e: nat, x: char, y: char)
    requires e <= |src|
  {
    forall j :: s < j < e ==> Count(src, s, j, x) > Count(src, s, j, y)
  }

  /** `%bxy` takes the shortest text from s that begins with x, ends with y and
      has as many x as y. */
  lemma BalancedMeans(src: string, s: nat, e: nat, x: char, y: char)
    requires s < e <= |src| && src[s] == x && x != y
    ensures BalancedTo(src, s, e, x, y) <==> Count(src, s, e, x) == Count(src, s, e, y) && MoreBefore(src, s, e, x, y)
    ensures BalancedTo(src, s, e, x, y) ==> src[e - 1] == y
  {
    DepthCounts(src, s, e, x, y);
    if BalancedTo(src, s, e, x, y) {
      forall j | s < j < e ensures Count(src, s, j, x) > Count(src, s, j, y) { DepthCounts(src, s, j, x, y); }
      if e > s + 1 { assert Depth(src, s, e - 1, x, y) > 0; }
    }
    if MoreBefore(src, s, e, x, y) {
      forall j | s < j < e ensures Depth(src, s, j, x, y) > 0 { DepthCounts(src, s, j, x, y); }
    }
  }

  /** `%f[%x]` stands where the class begins; both ends of the subject count as
      a zero character. */
  lemma FrontierMeans(env: Env, s: nat, cl: char)
    requires s <= |env.src|
    ensures FrontierAt(env.cls, env.src, s, Bracket(false, [InClass(cl)])) <==>
            && !env.cls(if s == 0 then '\0' else env.src[s - 1], cl)
            && env.cls(if s == |env.src| then '\0' else env.src[s], cl)
  {
    var before, after := if s == 0 then '\0' else env.src[s - 1], if s == |env.src| then '\0' else env.src[s];
    assert [InClass(cl)] + [] == [InClass(cl)];
    SomeHasFirst(env.cls, InClass(cl), [], before);
    SomeHasFirst(env.cls, InClass(cl), [], after);
    assert !SomeHas(env.cls, [], before) && !SomeHas(env.cls, [], after);
  }

  // ---------------------------------------------------------------------
  // Captures

  /** `(.)%1` takes a character and the same character again. */
  lemma TwinMatches(env: Env, s: nat, o: Outcome)
    requires s <= |env.src|
    ensures Printable([Open, Single(Any, Once), Close, Back(0)])
    ensures Written([Open, Single(Any, Once), Close, Back(0)]) == "(.)%1"
    ensures Matches(env, [Open, Single(Any, Once), Close, Back(0)], s, [], o) <==>
            s + 2 <= |env.src| && env.src[s] == env.src[s + 1] && o == Outcome(s + 2, [Capture(s, 1)])
  {
    var items := [Open, Single(Any, Once), Close, Back(0)];
    assert items[1..] == [Single(Any, Once), Close, Back(0)] && items[1..][1..] == [Close, Back(0)];
    assert items[1..][1..][1..] == [Back(0)] && items[1..][1..][1..][1..] == [];
    assert [] + [Capture(s, UNFINISHED)] == [Capture(s, UNFINISHED)];
    if s + 2 <= |env.src| {
      assert env.src[s..s + 1] == [env.src[s]] && env.src[s + 1..s + 2] == [env.src[s + 1]];
    }
  }

  /** Parentheses close from the inside out: in `((.).)` the second capture is
      inside the first; `()` is the place where it stands. */
  lemma NestedMatches(env: Env, s: nat, o: Outcome)
    requires s <= |env.src|
    ensures var items := [Open, Open, Single(Any, Once), Close, Single(Any, Once), Close, PosCapture];
            && Printable(items) && Written(items) == "((.).)()"
            && (Matches(env, items, s, [], o) <==>
                  s + 2 <= |env.src| && o == Outcome(s + 2, [Capture(s, 2), Capture(s, 1), Capture(s + 2, POSITION)]))
  {
    hide Matches, Printable, Written;
    NestedText();
    var i0 := [Open, Open, Single(Any, Once), Close, Single(Any, Once), Close, PosCapture];
    var i1 := [Open, Single(Any, Once), Close, Single(Any, Once), Close, PosCapture];
    var i2 := [Single(Any, Once), Close, Single(Any, Once), Close, PosCapture];
    assert i0[1..] == i1 && i1[1..] == i2 && i2[1..] == [Close, Single(Any, Once), Close, PosCapture];
    var c1 := [Capture(s, UNFINISHED)];
    var c2 := [Capture(s, UNFINISHED), Capture(s, UNFINISHED)];
    assert [] + [Capture(s, UNFINISHED)] == c1 && c1 + [Capture(s, UNFINISHED)] == c2;
    OpenStep(env, i0, s, [], o);
    OpenStep(env, i1, s, c1, o);
    AnyStep(env, i2, s, c2, o);
    if s < |env.src| { InnerMatches(env, s, o); }
  }

  lemma OpenStep(env: Env, items: seq<Item>, s: nat, caps: Captures, o: Outcome)
    requires s <= |env.src| && items != [] && items[0] == Open
    ensures Matches(env, items, s, caps, o) <==> Matches(env, items[1..], s, caps + [Capture(s, UNFINISHED)], o)
  {
  }

  lemma AnyStep(env: Env, items: seq<Item>, s: nat, caps: Captures, o: Outcome)
    requires s <= |env.src| && items != [] && items[0] == Single(Any, Once)
    ensures Matches(env, items, s, caps, o) <==> s < |env.src| && Matches(env, items[1..], s + 1, caps, o)
  {
  }

  lemma CloseStep(env: Env, items: seq<Item>, s: nat, caps: Captures, l: nat, o: Outcome)
    requires s <= |env.src| && items != [] && items[0] == Close && l < |caps| && ToClose(caps) == l
    ensures Matches(env, items, s, caps, o) <==>
            Matches(env, items[1..], s, caps[l := Capture(caps[l].start, s - caps[l].start)], o)
  {
  }

  lemma NestedText()
    ensures var items := [Open, Open, Single(Any, Once), Close, Single(Any, Once), Close, PosCapture];
            Printable(items) && Written(items) == "((.).)()"
  {
    var i0 := [Open, Open, Single(Any, Once), Close, Single(Any, Once), Close, PosCapture];
    var i1 := [Open, Single(Any, Once), Close, Single(Any, Once), Close, PosCapture];
    var i2 := [Single(Any, Once), Close, Single(Any, Once), Close, PosCapture];
    var i3 := [Close, Single(Any, Once), Close, PosCapture];
    var i4 := [Single(Any, Once), Close, PosCapture];
    var i5 := [Close, PosCapture];
    assert i5[1..] == [PosCapture] && i4[1..] == i5 && i3[1..] == i4 && i2[1..] == i3 && i1[1..] == i2 && i0[1..] == i1;
    assert [PosCapture][1..] == [];
    assert Written([PosCapture]) == "()" && Printable([PosCapture]);
    assert Written(i5) == ")()" && Printable(i5);
    assert Written(i4) == ".)()" && Printable(i4);
    assert Written(i3) == ").)()" && Printable(i3);
    assert Written(i2) == ".).)()" && Printable(i2);
    assert Written(i1) == "(.).)()" && Printable(i1);
  }

  /** After the inner character of `((.).)()`. */
  lemma InnerMatches(env: Env, s: nat, o: Outcome)
    requires s < |env.src|
    ensures Matches(env, [Close, Single(Any, Once), Close, PosCapture], s + 1,
                    [Capture(s, UNFINISHED), Capture(s, UNFINISHED)], o) <==>
            s + 2 <= |env.src| && o == Outcome(s + 2, [Capture(s, 2), Capture(s, 1), Capture(s + 2, POSITION)])
  {
    hide Matches;
    var i3 := [Close, Single(Any, Once), Close, PosCapture];
    var i4 := [Single(Any, Once), Close, PosCapture];
    assert i3[1..] == i4 && i4[1..] == [Close, PosCapture];
    var c2 := [Capture(s, UNFINISHED), Capture(s, UNFINISHED)];
    var c3 := [Capture(s, UNFINISHED), Capture(s, 1)];
    assert ToClose(c2) == 1 && c2[1 := Capture(s, 1)] == c3;
    CloseStep(env, i3, s + 1, c2, 1, o);
    AnyStep(env, i4, s + 1, c3, o);
    if s + 1 < |env.src| { OuterMatches(env, s, o); }
  }

  lemma OuterMatches(env: Env, s: nat, o: Outcome)
    requires s + 2 <= |env.src|
    ensures Matches(env, [Close, PosCapture], s + 2, [Capture(s, UNFINISHED), Capture(s, 1)], o) <==>
            o == Outcome(s + 2, [Capture(s, 2), Capture(s, 1), Capture(s + 2, POSITION)])
  {
    assert [Close, PosCapture][1..] == [PosCapture] && [PosCapture][1..] == [];
    var c3 := [Capture(s, UNFINISHED), Capture(s, 1)];
    var c4 := [Capture(s, 2), Capture(s, 1)];
    assert c3[..1] == [Capture(s, UNFINISHED)] && ToClose(c3) == 0 && c3[0 := Capture(s, 2)] == c4;
    assert c4 + [Capture(s + 2, POSITION)] == [Capture(s, 2), Capture(s, 1), Capture(s + 2, POSITION)];
  }

  // ---------------------------------------------------------------------
  // Searches

  /** The text lit stands at s. */
  predicate StandsAt(src: string, s: nat, lit: string) {
    s + |lit| <= |src| && src[s..s + |lit|] == lit
  }

  lemma {:induction false} LiterallyProper(lit: string)
    ensures Proper(Literally(lit), []) && EndShape(Literally(lit), []) == []
  {
    if lit != "" {
      LiterallyProper(lit[1..]);
      assert Literally(lit)[1..] == Literally(lit[1..]);
    }
  }

  lemma LiterallyWellFormed(anchor: string, lit: string)
    requires forall c :: c in lit ==> IsPlain(c)
    ensures var pat, p := anchor + lit, |anchor|;
            Parse(pat, p) == Some(Literally(lit)) && WellFormed(pat, p) && AllClosed(pat, p)
  {
    LiterallyText(lit);
    TextParses(anchor, Literally(lit));
    LiterallyProper(lit);
    assert Shape([]) == [];
  }

  /** A search for plain text finds its first place from init on; after `^` it
      looks at init only. */
  method FindPlain(src: string, lit: string, cls: ClassTest, init: nat, anchored: bool) returns (r: Found)
    requires init <= |src| && forall c :: c in lit ==> IsPlain(c)
    ensures r.Found? || r == NotFound
    ensures r == NotFound ==> forall s :: init <= s && (anchored ==> s == init) ==> !StandsAt(src, s, lit)
    ensures r.Found? ==>
              && init <= r.s && (anchored ==> r.s == init) && r.e == r.s + |lit| && StandsAt(src, r.s, lit)
              && r.values == [] && forall s :: init <= s < r.s ==> !StandsAt(src, s, lit)
  {
    hide Parse, WellFormed, AllClosed, Matches, Ways, IsPlain;
    var anchor := if anchored then "^" else "";
    var pat := anchor + lit;
    LiterallyWellFormed(anchor, lit);
    PlainChars(lit);
    assert Anchored(pat) == anchored;
    assert CString(pat);
    r := FindAux(src, pat, cls, init, true);
    ghost var env := Env(src, cls);
    forall s: nat, o | s <= |src| ensures Matches(env, Literally(lit), s, [], o) <==>
        StandsAt(src, s, lit) && o == Outcome(s + |lit|, []) {
      LiteralMatches(env, lit, s, [], o);
    }
    assert forall s: nat :: s <= |src| && StandsAt(src, s, lit) ==>
        Matches(env, Literally(lit), s, [], Outcome(s + |lit|, []));
  }

  lemma PlainChars(lit: string)
    requires forall c :: c in lit ==> IsPlain(c)
    ensures forall i :: 0 <= i < |lit| ==> lit[i] != '^' && lit[i] != '\0'
  {
    forall i | 0 <= i < |lit| ensures lit[i] != '^' && lit[i] != '\0' { assert lit[i] in lit; }
  }

  lemma TwinWellFormed()
    ensures Parse("(.)%1", 0) == Some([Open, Single(Any, Once), Close, Back(0)])
    ensures WellFormed("(.)%1", 0) && AllClosed("(.)%1", 0)
  {
    hide Parse, Matches;
    var items := [Open, Single(Any, Once), Close, Back(0)];
    TwinMatches(Env("", (c, d) => false), 0, Outcome(0, []));
    TextParses("", items);
    assert "" + "(.)%1" == "(.)%1";
    hide Written, Printable;
    assert items[1..] == [Single(Any, Once), Close, Back(0)] && items[1..][1..] == [Close, Back(0)];
    assert [Close, Back(0)][1..] == [Back(0)] && [Back(0)][1..] == [];
    assert Shape([]) == [] && [] + [true] == [true];
    assert [true][..0] == [] && LastTrue([true]) == 0 && [true][0 := false] == [false];
    assert Proper([Back(0)], [false]) && EndShape([Back(0)], [false]) == [false];
    assert Proper([Close, Back(0)], [true]) && EndShape([Close, Back(0)], [true]) == [false];
    assert Proper(items[1..], [true]) && EndShape(items[1..], [true]) == [false];
  }

  /** `(.)%1` finds the first character that stands twice in a row. */
  method FindTwin(src: string, cls: ClassTest) returns (r: Found)
    ensures r == NotFound <==> forall s :: 0 <= s < |src| - 1 ==> src[s] != src[s + 1]
    ensures r.Found? || r == NotFound
    ensures r.Found? ==>
              && r.s + 1 < |src| && src[r.s] == src[r.s + 1] && r.e == r.s + 2
              && r.values == [CaptureValue.Text([src[r.s]])]
              && forall s :: 0 <= s < r.s ==> src[s] != src[s + 1]
  {
    hide Parse, WellFormed, AllClosed, Matches, Ways;
    TwinWellFormed();
    r := FindAux(src, "(.)%1", cls, 0, true);
    ghost var env, items := Env(src, cls), [Open, Single(Any, Once), Close, Back(0)];
    forall s: nat, o | s <= |src| ensures Matches(env, items, s, [], o) <==>
        s + 2 <= |src| && src[s] == src[s + 1] && o == Outcome(s + 2, [Capture(s, 1)]) {
      TwinMatches(env, s, o);
    }
    assert forall s: nat :: s + 2 <= |src| && src[s] == src[s + 1] ==>
        Matches(env, items, s, [], Outcome(s + 2, [Capture(s, 1)]));
    if r.Found? { assert src[r.s..r.s + 1] == [src[r.s]]; }
  }

  /** A capture without text is the number of the character before which it
      stands; the others are what stands there. */
  lemma CaptureMeans(before: string, text: string, after: string)
    ensures CaptureOf(before + text + after, Capture(|before|, POSITION)) == Position(|before| + 1)
    ensures CaptureOf(before + text + after, Capture(|before|, |text|)) == CaptureValue.Text(text)
  {
    assert (before + text + after)[|before|..|before| + |text|] == text;
  }
}
