/** Lua patterns: their syntax, and what they match.

    The meaning follows section 5.4.1 of the Lua 5.1 Reference Manual. */
module Pattern {
  import opened Options

  const ESC := '%'
  const MAXCAPTURES := 32
  const UNFINISHED := -1
  const POSITION := -2

  /** match_class: whether a character is in the class named by a letter. */
  type ClassTest = (char, char) -> bool

  datatype SetItem = InClass(cl: char) | Range(lo: char, hi: char) | One(c: char)

  /** The characters a single pattern item can match. */
  datatype CharSet = Any | Class(cl: char) | Bracket(negated: bool, items: seq<SetItem>) | Exact(c: char)

  datatype Rep = Once | Optional | Star | Plus | Lazy

  datatype Item =
    | Open | PosCapture | Close
    | Balanced(x: char, y: char)
    | Frontier(charset: CharSet)
    | Back(index: int)
    | AtEnd
    | Single(charset: CharSet, rep: Rep)

  // ---------------------------------------------------------------------
  // Syntax

  /** A C string: reading at its end gives a zero. */
  function CharAt(p: string, i: nat): char {
    if i < |p| then p[i] else '\0'
  }

  /** Patterns are C strings, so they hold no zero. */
  predicate CString(p: string) {
    forall i :: 0 <= i < |p| ==> p[i] != '\0'
  }

  /** The loop of classend that looks for the closing bracket. */
  function BracketEnd(p: string, j: nat): (e: Option<nat>)
    ensures e.Some? ==> j + 1 < e.value <= |p| && p[e.value - 1] == ']'
    decreases |p| - j
  {
    if j >= |p| then None
    else
      var k := if p[j] == ESC && j + 1 < |p| then j + 2 else j + 1;
      if CharAt(p, k) == ']' && k < |p| then Some(k + 1) else BracketEnd(p, k)
  }

  /** classend */
  function ClassEnd(p: string, i: nat): (e: Option<nat>)
    requires i < |p|
    ensures e.Some? ==> i < e.value <= |p|
  {
    if p[i] == ESC then (if i + 1 >= |p| then None else Some(i + 2))
    else if p[i] == '[' then BracketEnd(p, if CharAt(p, i + 1) == '^' then i + 2 else i + 1)
    else Some(i + 1)
  }

  /** The members of a set between positions j and ec. */
  function SetItems(p: string, j: nat, ec: nat): seq<SetItem>
    requires ec < |p|
    decreases ec - j
  {
    if j >= ec then []
    else if p[j] == ESC then [InClass(p[j + 1])] + SetItems(p, j + 2, ec)
    else if p[j + 1] == '-' && j + 2 < ec then [Range(p[j], p[j + 2])] + SetItems(p, j + 3, ec)
    else [One(p[j])] + SetItems(p, j + 1, ec)
  }

  function BracketSet(p: string, i: nat, ec: nat): CharSet
    requires ec < |p|
  {
    if CharAt(p, i + 1) == '^' then Bracket(true, SetItems(p, i + 2, ec)) else Bracket(false, SetItems(p, i + 1, ec))
  }

  /** The set written at position i, which ends at ep. */
  function SetAt(p: string, i: nat, ep: nat): CharSet
    requires i < ep <= |p|
  {
    if p[i] == '.' then Any
    else if p[i] == ESC then Class(CharAt(p, i + 1))
    else if p[i] == '[' then BracketSet(p, i, ep - 1)
    else Exact(p[i])
  }

  predicate IsDigit(c: char) {
    '0' <= c <= '9'
  }

  /** The item at position i and the position after it. */
  function ItemAt(p: string, i: nat): (r: Option<(Item, nat)>)
    requires i < |p|
    ensures r.Some? ==> i < r.value.1 <= |p|
  {
    if p[i] == '(' then (if CharAt(p, i + 1) == ')' then Some((PosCapture, i + 2)) else Some((Open, i + 1)))
    else if p[i] == ')' then Some((Close, i + 1))
    else if p[i] == ESC && CharAt(p, i + 1) == 'b' then
      (if i + 3 < |p| then Some((Balanced(p[i + 2], p[i + 3]), i + 4)) else None)
    else if p[i] == ESC && CharAt(p, i + 1) == 'f' then
      (if i + 2 < |p| && p[i + 2] == '[' && ClassEnd(p, i + 2).Some?
       then var ep := ClassEnd(p, i + 2).value; Some((Frontier(BracketSet(p, i + 2, ep - 1)), ep))
       else None)
    else if p[i] == ESC && IsDigit(CharAt(p, i + 1)) then Some((Back(CharAt(p, i + 1) as int - '1' as int), i + 2))
    else if p[i] == '$' && i + 1 == |p| then Some((AtEnd, i + 1))
    else
      match ClassEnd(p, i)
      case None => None
      case Some(ep) =>
        var s := SetAt(p, i, ep);
        var c := CharAt(p, ep);
        if ep < |p| && c == '?' then Some((Single(s, Optional), ep + 1))
        else if ep < |p| && c == '*' then Some((Single(s, Star), ep + 1))
        else if ep < |p| && c == '+' then Some((Single(s, Plus), ep + 1))
        else if ep < |p| && c == '-' then Some((Single(s, Lazy), ep + 1))
        else Some((Single(s, Once), ep))
  }

  /** The items of a pattern from position i on; None if it is malformed. */
  function Parse(p: string, i: nat): Option<seq<Item>>
    decreases |p| - i
  {
    if i >= |p| then Some([])
    else
      match ItemAt(p, i)
      case None => None
      case Some((item, j)) =>
        match Parse(p, j)
        case None => None
        case Some(rest) => Some([item] + rest)
  }

  // ---------------------------------------------------------------------
  // Sets of characters

  predicate ItemHas(cls: ClassTest, item: SetItem, c: char) {
    match item
    case InClass(cl) => cls(c, cl)
    case Range(lo, hi) => lo <= c <= hi
    case One(d) => d == c
  }

  predicate Has(cls: ClassTest, s: CharSet, c: char) {
    match s
    case Any => true
    case Class(cl) => cls(c, cl)
    case Bracket(negated, items) => negated != SomeHas(cls, items, c)
    case Exact(d) => d == c
  }

  predicate SomeHas(cls: ClassTest, items: seq<SetItem>, c: char) {
    exists item :: item in items && ItemHas(cls, item, c)
  }

  lemma SomeHasFirst(cls: ClassTest, item: SetItem, rest: seq<SetItem>, c: char)
    ensures SomeHas(cls, [item] + rest, c) <==> ItemHas(cls, item, c) || SomeHas(cls, rest, c)
  {
    assert ([item] + rest)[0] == item;
  }

  // ---------------------------------------------------------------------
  // Captures

  datatype Capture = Capture(start: int, len: int)

  type Captures = seq<Capture>

  /** capture_to_close: the last unfinished capture, or -1. */
  function ToClose(caps: Captures): (l: int)
    ensures -1 <= l < |caps|
    ensures l >= 0 ==> caps[l].len == UNFINISHED
    ensures forall i :: l < i < |caps| ==> caps[i].len != UNFINISHED
  {
    if caps == [] then -1
    else if caps[|caps| - 1].len == UNFINISHED then |caps| - 1
    else ToClose(caps[..|caps| - 1])
  }

  predicate CanRefer(caps: Captures, l: int) {
    0 <= l < |caps| && caps[l].len != UNFINISHED
  }

  // ---------------------------------------------------------------------
  // Balanced strings

  /** How deep the nesting is just before position j; the string starts at s. */
  function Depth(src: string, s: nat, j: nat, x: char, y: char): int
    requires s < j <= |src|
    decreases j
  {
    if j == s + 1 then 1
    else Depth(src, s, j - 1, x, y) + (if src[j - 1] == y then -1 else if src[j - 1] == x then 1 else 0)
  }

  /** src[s..e] starts with x and e is the first place where it is balanced. */
  ghost predicate BalancedTo(src: string, s: nat, e: nat, x: char, y: char) {
    && s < e <= |src| && src[s] == x && Depth(src, s, e, x, y) == 0
    && forall j :: s < j < e ==> Depth(src, s, j, x, y) > 0
  }

  predicate FrontierAt(cls: ClassTest, src: string, s: nat, cs: CharSet)
    requires s <= |src|
  {
    !Has(cls, cs, if s == 0 then '\0' else src[s - 1]) && Has(cls, cs, CharAt(src, s))
  }

  /** Capture l occurs at s; a position capture never does. */
  predicate RefersAt(src: string, s: nat, caps: Captures, l: int) {
    && CanRefer(caps, l) && 0 <= caps[l].start && 0 <= caps[l].len && caps[l].start + caps[l].len <= |src|
    && s + caps[l].len <= |src| && src[s..s + caps[l].len] == src[caps[l].start..caps[l].start + caps[l].len]
  }
}
