/** The text of patterns: every list of items that can be written down is what
    its text is read as. */
module PatternText {
  import opened Options
  import opened Pattern

  // ---------------------------------------------------------------------
  // Writing

  function SetItemText(item: SetItem): string {
    match item
    case InClass(cl) => ['%', cl]
    case Range(lo, hi) => [lo, '-', hi]
    case One(c) => [c]
  }

  function SetItemsText(items: seq<SetItem>): string {
    if items == [] then [] else SetItemText(items[0]) + SetItemsText(items[1..])
  }

  function SetText(cs: CharSet): string {
    match cs
    case Any => "."
    case Class(cl) => ['%', cl]
    case Bracket(negated, items) => (if negated then "[^" else "[") + SetItemsText(items) + "]"
    case Exact(c) => [c]
  }

  function RepText(rep: Rep): string {
    match rep
    case Once => ""
    case Optional => "?"
    case Star => "*"
    case Plus => "+"
    case Lazy => "-"
  }

  const DIGITS := "0123456789"

  function ItemText(item: Item): string {
    match item
    case Open => "("
    case PosCapture => "()"
    case Close => ")"
    case Balanced(x, y) => ['%', 'b', x, y]
    case Frontier(cs) => "%f" + SetText(cs)
    case Back(k) => ['%', if -1 <= k <= 8 then DIGITS[k + 1] else '0']
    case AtEnd => "$"
    case Single(cs, rep) => SetText(cs) + RepText(rep)
  }

  function Written(items: seq<Item>): string {
    if items == [] then "" else ItemText(items[0]) + Written(items[1..])
  }

  // ---------------------------------------------------------------------
  // What can be written

  predicate SetItemOK(item: SetItem) {
    match item
    case InClass(_) => true
    case Range(lo, hi) => lo != '%' && lo != ']' && lo != '^' && lo != '-' && hi != '%' && hi != ']'
    case One(c) => c != '%' && c != ']' && c != '^' && c != '-'
  }

  predicate IsSuffix(c: char) {
    c == '?' || c == '*' || c == '+' || c == '-'
  }

  predicate SetOK(cs: CharSet) {
    match cs
    case Any => true
    case Class(cl) => cl != 'b' && cl != 'f' && forall k :: 0 <= k < |DIGITS| ==> cl != DIGITS[k]
    case Bracket(_, items) => items != [] && forall item :: item in items ==> SetItemOK(item)
    case Exact(c) => c != '(' && c != ')' && c != '.' && c != '%' && c != '[' && c != '$'
  }

  predicate ItemOK(item: Item) {
    match item
    case Frontier(cs) => cs.Bracket? && SetOK(cs)
    case Back(k) => -1 <= k <= 8
    case Single(cs, _) => SetOK(cs)
    case _ => true
  }

  /** The text of the item is not read together with what follows it. */
  predicate FollowOK(item: Item, rest: seq<Item>) {
    match item
    case Open => rest == [] || rest[0] != Close
    case AtEnd => rest == []
    case Single(_, Once) =>
      rest == [] || !(rest[0].Single? && rest[0].charset.Exact? && IsSuffix(rest[0].charset.c))
    case _ => true
  }

  predicate Printable(items: seq<Item>) {
    items == [] || (ItemOK(items[0]) && FollowOK(items[0], items[1..]) && Printable(items[1..]))
  }

  // ---------------------------------------------------------------------
  // Reading sets

  /** The text s stands in p at position i. */
  predicate At(p: string, i: nat, s: string) {
    i + |s| <= |p| && p[i..i + |s|] == s
  }

  lemma AtParts(p: string, i: nat, a: string, b: string)
    requires At(p, i, a + b)
    ensures At(p, i, a) && At(p, i + |a|, b)
  {
    var s := p[i..i + |a + b|];
    assert p[i..i + |a|] == s[..|a|] && p[i + |a|..i + |a| + |b|] == s[|a|..];
  }

  lemma AtChars(p: string, i: nat, s: string)
    requires At(p, i, s)
    ensures i + |s| <= |p| && forall k :: 0 <= k < |s| ==> p[i + k] == s[k]
  {
    forall k | 0 <= k < |s| ensures p[i + k] == s[k] { assert p[i..i + |s|][k] == s[k]; }
  }

  /** The members of a set, one at a time. */
  lemma SetItemStep(p: string, j: nat, ec: nat, item: SetItem)
    requires SetItemOK(item) && j + |SetItemText(item)| <= ec < |p|
    requires forall k :: 0 <= k < |SetItemText(item)| ==> p[j + k] == SetItemText(item)[k]
    requires item.One? ==> j + 1 == ec || p[j + 1] != '-'
    ensures p[j] != ']' && SetItems(p, j, ec) == [item] + SetItems(p, j + |SetItemText(item)|, ec)
    ensures item.One? || item.Range? ==> p[j] != '-' && p[j] != '^'
    ensures var k := j + |SetItemText(item)|;
            BracketEnd(p, j) == if p[k] == ']' then Some(k + 1) else BracketEnd(p, k)
  {
    hide SetItems, BracketEnd;
    var s := SetItemText(item);
    assert p[j + 0] == s[0];
    match item
    case InClass(cl) =>
      assert p[j + 1] == s[1];
      ClassStep(p, j, ec);
    case Range(lo, hi) => RangeStep(p, j, ec, lo, hi, s);
    case One(c) => OneStep(p, j, ec);
  }

  lemma ClassStep(p: string, j: nat, ec: nat)
    requires j + 2 <= ec < |p| && p[j] == ESC
    ensures SetItems(p, j, ec) == [InClass(p[j + 1])] + SetItems(p, j + 2, ec)
    ensures BracketEnd(p, j) == if p[j + 2] == ']' then Some(j + 3) else BracketEnd(p, j + 2)
  {
    SkippedTwo(p, j);
    hide BracketEnd;
  }

  lemma SkippedTwo(p: string, j: nat)
    requires j + 2 < |p| && p[j] == ESC
    ensures BracketEnd(p, j) == if p[j + 2] == ']' then Some(j + 3) else BracketEnd(p, j + 2)
  {
    hide SetItems;
  }

  lemma OneStep(p: string, j: nat, ec: nat)
    requires j + 1 <= ec < |p| && p[j] != ESC && (j + 1 == ec || p[j + 1] != '-')
    ensures SetItems(p, j, ec) == [One(p[j])] + SetItems(p, j + 1, ec)
    ensures BracketEnd(p, j) == if p[j + 1] == ']' then Some(j + 2) else BracketEnd(p, j + 1)
  {
    Skipped(p, j);
    hide BracketEnd;
  }

  lemma RangeStep(p: string, j: nat, ec: nat, lo: char, hi: char, s: string)
    requires SetItemOK(Range(lo, hi)) && j + 3 <= ec < |p| && s == [lo, '-', hi]
    requires forall k :: 0 <= k < |s| ==> p[j + k] == s[k]
    ensures p[j] == lo && SetItems(p, j, ec) == [Range(lo, hi)] + SetItems(p, j + 3, ec)
    ensures BracketEnd(p, j) == if p[j + 3] == ']' then Some(j + 4) else BracketEnd(p, j + 3)
  {
    assert p[j + 0] == s[0] && p[j + 1] == s[1] && p[j + 2] == s[2];
    Skipped(p, j);
    Skipped(p, j + 1);
    Skipped(p, j + 2);
  }

  lemma Skipped(p: string, j: nat)
    requires j + 1 < |p| && p[j] != ESC
    ensures BracketEnd(p, j) == if p[j + 1] == ']' then Some(j + 2) else BracketEnd(p, j + 1)
  {
  }

  lemma SetItemFirst(item: SetItem)
    requires SetItemOK(item)
    ensures SetItemText(item)[0] != ']' && SetItemText(item)[0] != '-' && SetItemText(item)[0] != '^'
  {
  }

  /** The members are read, and classend finds the closing bracket. */
  lemma {:induction false} SetItemsRead(p: string, j: nat, ec: nat, items: seq<SetItem>)
    requires At(p, j, SetItemsText(items)) && ec == j + |SetItemsText(items)| && ec < |p| && p[ec] == ']'
    requires forall item :: item in items ==> SetItemOK(item)
    ensures SetItems(p, j, ec) == items
    ensures items != [] ==> BracketEnd(p, j) == Some(ec + 1) && p[j] != '^'
    decreases |items|
  {
    hide SetItemOK, BracketEnd, SetItems, SetItemText;
    if items == [] {
      NoItems(p, ec);
    } else {
      var item, rest := items[0], items[1..];
      var k := j + |SetItemText(item)|;
      AtParts(p, j, SetItemText(item), SetItemsText(rest));
      AtChars(p, j, SetItemText(item));
      SetItemsRead(p, k, ec, rest);
      if rest != [] {
        AtParts(p, k, SetItemText(rest[0]), SetItemsText(rest[1..]));
        AtChars(p, k, SetItemText(rest[0]));
        SetItemFirst(rest[0]);
        OneChar(rest[0]);
      }
      SetItemFirst(item);
      OneChar(item);
      SetItemStep(p, j, ec, item);
      assert items == [item] + rest;
    }
  }

  lemma OneChar(item: SetItem)
    ensures |SetItemText(item)| > 0 && (item.One? ==> |SetItemText(item)| == 1)
  {
  }

  lemma NoItems(p: string, ec: nat)
    requires ec < |p|
    ensures SetItems(p, ec, ec) == []
  {
  }

  /** A set is read up to its end. */
  lemma SetReads(p: string, i: nat, cs: CharSet)
    requires SetOK(cs) && At(p, i, SetText(cs))
    ensures i < |p| && |SetText(cs)| > 0 && i + |SetText(cs)| <= |p|
    ensures ClassEnd(p, i) == Some(i + |SetText(cs)|) && SetAt(p, i, i + |SetText(cs)|) == cs
    ensures cs.Bracket? ==> p[i] == '[' && BracketSet(p, i, i + |SetText(cs)| - 1) == cs
  {
    hide SetItems, BracketEnd, SetItemOK, SetItemsText, At;
    match cs
    case Bracket(negated, items) => BracketReads(p, i, negated, items);
    case Class(cl) =>
      AtChars(p, i, ['%', cl]);
      assert p[i] == ['%', cl][0] && p[i + 1] == ['%', cl][1];
    case _ =>
      AtChars(p, i, SetText(cs));
      assert p[i] == SetText(cs)[0];
  }

  lemma BracketReads(p: string, i: nat, negated: bool, items: seq<SetItem>)
    requires SetOK(Bracket(negated, items)) && At(p, i, SetText(Bracket(negated, items)))
    ensures var n := |SetText(Bracket(negated, items))|;
            && i + n <= |p| && n > 2 && p[i] == '[' && ClassEnd(p, i) == Some(i + n)
            && BracketSet(p, i, i + n - 1) == Bracket(negated, items)
  {
    hide SetItems, BracketEnd, SetItemOK, ClassEnd, BracketSet, At, SetItemsText;
    SomeText(items);
    BracketParts(p, i, if negated then "[^" else "[", negated, items);
  }

  lemma BracketParts(p: string, i: nat, a: string, negated: bool, items: seq<SetItem>)
    requires At(p, i, a + SetItemsText(items) + "]") && items != [] && forall item :: item in items ==> SetItemOK(item)
    requires if negated then a == "[^" else a == "["
    ensures var ec := i + |a| + |SetItemsText(items)|;
            && ec < |p| && p[i] == '[' && ClassEnd(p, i) == Some(ec + 1)
            && BracketSet(p, i, ec) == Bracket(negated, items)
  {
    hide SetItems, BracketEnd, SetItemOK, ClassEnd, BracketSet, At, SetItemsText;
    var ec := i + |a| + |SetItemsText(items)|;
    AtParts(p, i, a + SetItemsText(items), "]");
    AtParts(p, i, a, SetItemsText(items));
    AtChars(p, ec, "]");
    AtChars(p, i, a);
    assert p[ec + 0] == "]"[0] && p[i + 0] == a[0] && (negated ==> p[i + 1] == a[1]);
    SetItemsRead(p, i + |a|, ec, items);
    BracketIs(p, i, ec, negated, items);
  }

  lemma SomeText(items: seq<SetItem>)
    requires items != []
    ensures |SetItemsText(items)| > 0
  {
  }

  lemma BracketIs(p: string, i: nat, ec: nat, negated: bool, items: seq<SetItem>)
    requires i < ec < |p| && p[i] == '[' && (CharAt(p, i + 1) == '^' <==> negated)
    requires var j := if negated then i + 2 else i + 1;
             BracketEnd(p, j) == Some(ec + 1) && SetItems(p, j, ec) == items
    ensures ClassEnd(p, i) == Some(ec + 1) && BracketSet(p, i, ec) == Bracket(negated, items)
  {
    hide SetItems, BracketEnd;
  }

  // ---------------------------------------------------------------------
  // Reading items

  /** What follows the text of the item does not belong to it. */
  predicate Ends(p: string, j: nat, item: Item) {
    match item
    case Open => CharAt(p, j) != ')'
    case AtEnd => j == |p|
    case Single(_, Once) => !IsSuffix(CharAt(p, j))
    case _ => true
  }

  /** The item at i is read, whatever comes before and after it. */
  lemma ItemReads(p: string, i: nat, item: Item)
    requires ItemOK(item) && At(p, i, ItemText(item)) && Ends(p, i + |ItemText(item)|, item)
    ensures i < |p| && ItemAt(p, i) == Some((item, i + |ItemText(item)|))
  {
    hide SetItems, BracketEnd, SetItemsText, At, ClassEnd, SetAt, BracketSet;
    match item
    case Frontier(cs) => FrontierReads(p, i, cs);
    case Single(cs, rep) => SingleReads(p, i, cs, rep);
    case Back(k) =>
      AtChars(p, i, ItemText(item));
      assert p[i] == ItemText(item)[0] && p[i + 1] == ItemText(item)[1];
    case Balanced(x, y) =>
      AtChars(p, i, ItemText(item));
      assert p[i] == ItemText(item)[0] && p[i + 1] == ItemText(item)[1] && p[i + 2] == ItemText(item)[2];
      assert p[i + 3] == ItemText(item)[3];
    case PosCapture =>
      AtChars(p, i, "()");
      assert p[i] == "()"[0] && p[i + 1] == "()"[1];
    case _ =>
      AtChars(p, i, ItemText(item));
      assert p[i] == ItemText(item)[0];
  }

  lemma FrontierReads(p: string, i: nat, cs: CharSet)
    requires cs.Bracket? && SetOK(cs) && At(p, i, "%f" + SetText(cs))
    ensures i + 2 <= |p| && ItemAt(p, i) == Some((Frontier(cs), i + 2 + |SetText(cs)|))
  {
    hide SetItems, BracketEnd, SetItemsText, At, ClassEnd, SetAt, BracketSet, SetItemOK, SetText;
    AtParts(p, i, "%f", SetText(cs));
    AtChars(p, i, "%f");
    assert p[i] == "%f"[0] && p[i + 1] == "%f"[1];
    SetReads(p, i + 2, cs);
  }

  lemma SingleReads(p: string, i: nat, cs: CharSet, rep: Rep)
    requires SetOK(cs) && At(p, i, ItemText(Single(cs, rep)))
    requires Ends(p, i + |ItemText(Single(cs, rep))|, Single(cs, rep))
    ensures i < |p| && ItemAt(p, i) == Some((Single(cs, rep), i + |ItemText(Single(cs, rep))|))
  {
    hide At, ItemAt, ClassEnd, SetAt, BracketSet, SetOK, SetText;
    var n := |SetText(cs)|;
    AtParts(p, i, SetText(cs), RepText(rep));
    SetReads(p, i, cs);
    AtChars(p, i, SetText(cs));
    AtChars(p, i + n, RepText(rep));
    assert p[i + 0] == SetText(cs)[0] && (n > 1 ==> p[i + 1] == SetText(cs)[1]);
    if !rep.Once? { assert p[i + n + 0] == RepText(rep)[0]; }
    SetFirst(cs);
    SingleAt(p, i, i + n, cs, rep);
  }

  /** How the text of a set begins. */
  lemma SetFirst(cs: CharSet)
    requires SetOK(cs)
    ensures |SetText(cs)| > 0 && var c := SetText(cs)[0]; c != '(' && c != ')' && c != '$'
    ensures SetText(cs)[0] == ESC ==>
              |SetText(cs)| > 1 && var cl := SetText(cs)[1]; cl != 'b' && cl != 'f' && !IsDigit(cl)
  {
    if cs.Class? { DigitIs(cs.cl); }
  }

  lemma SingleAt(p: string, i: nat, ep: nat, cs: CharSet, rep: Rep)
    requires i < ep <= |p| && ClassEnd(p, i) == Some(ep) && SetAt(p, i, ep) == cs
    requires p[i] != '(' && p[i] != ')' && p[i] != '$'
    requires p[i] == ESC ==> i + 1 < |p| && p[i + 1] != 'b' && p[i + 1] != 'f' && !IsDigit(p[i + 1])
    requires if rep.Once? then !IsSuffix(CharAt(p, ep)) else ep < |p| && RepText(rep) == [p[ep]]
    ensures ItemAt(p, i) == Some((Single(cs, rep), ep + |RepText(rep)|))
  {
    hide ClassEnd, SetAt, BracketSet;
    if !rep.Once? { assert RepText(rep)[0] == p[ep]; }
  }

  lemma DigitIs(c: char)
    ensures IsDigit(c) <==> exists k :: 0 <= k < |DIGITS| && c == DIGITS[k]
  {
    if '0' <= c <= '9' { assert DIGITS[c as int - '0' as int] == c; }
  }

  /** Parsing inverts writing. */
  lemma {:induction false} TextParses(before: string, items: seq<Item>)
    requires Printable(items)
    ensures Parse(before + Written(items), |before|) == Some(items)
    decreases |items|
  {
    hide ItemAt, ItemText, ItemOK, FollowOK;
    var p, i := before + Written(items), |before|;
    if items != [] {
      var item, rest := items[0], items[1..];
      var before' := before + ItemText(item);
      assert p == before' + Written(rest);
      TextParses(before', rest);
      assert At(p, i, ItemText(item)) by { assert before' == before + ItemText(item); }
      assert CharAt(p, |before'|) == CharAt(Written(rest), 0);
      FollowEnds(p, before', item, rest);
      ItemReads(p, i, item);
      assert items == [item] + rest;
    }
  }

  lemma FollowEnds(p: string, before: string, item: Item, rest: seq<Item>)
    requires Printable(rest) && FollowOK(item, rest) && p == before + Written(rest)
    requires CharAt(p, |before|) == CharAt(Written(rest), 0)
    ensures Ends(p, |before|, item)
  {
    FirstChar(rest);
  }

  /** What the text of printable items can begin with. */
  lemma FirstChar(items: seq<Item>)
    requires Printable(items)
    ensures var c := CharAt(Written(items), 0);
            (c == ')' ==> items != [] && items[0] == Close)
            && (IsSuffix(c) ==> items != [] && items[0].Single? && items[0].charset.Exact? && items[0].charset.c == c)
  {
  }

  // ---------------------------------------------------------------------
  // Texts that no list of items is written as

  /** `]` is a member where it comes first, `-` where it comes last, `^` where
      it does not come first, and `%` takes the meaning of what follows. */
  lemma OddSets()
    ensures SetItems("[]]", 1, 2) == [One(']')] && ClassEnd("[]]", 0) == Some(3)
    ensures SetItems("[a-]", 1, 3) == [One('a'), One('-')] && ClassEnd("[a-]", 0) == Some(4)
    ensures BracketSet("[^^]", 0, 3) == Bracket(true, [One('^')])
    ensures SetItems("[%]]", 1, 3) == [InClass(']')] && ClassEnd("[%]]", 0) == Some(4)
  {
    assert SetItems("[]]", 2, 2) == [];
    assert SetItems("[a-]", 3, 3) == [] && SetItems("[a-]", 2, 3) == [One('-')];
    assert SetItems("[^^]", 3, 3) == [] && SetItems("[^^]", 2, 3) == [One('^')];
    assert SetItems("[%]]", 3, 3) == [];
  }

  /** `$` is an anchor at the end only; the other special characters stand for
      themselves after `%`; a suffix without an item is a character. */
  lemma OddItems()
    ensures ItemAt("$a", 0) == Some((Single(Exact('$'), Once), 1)) && ItemAt("a$", 1) == Some((AtEnd, 2))
    ensures ItemAt("%$", 0) == Some((Single(Class('$'), Once), 2))
    ensures ItemAt("*", 0) == Some((Single(Exact('*'), Once), 1))
    ensures ItemAt("a**", 0) == Some((Single(Exact('a'), Star), 2))
    ensures ItemAt("a**", 2) == Some((Single(Exact('*'), Once), 3))
  {
  }

  /** What match reports as malformed: a pattern that ends in `%`, an open set,
      `%b` without two characters and `%f` without a set. */
  lemma Malformed()
    ensures ItemAt("%", 0) == None && ItemAt("[a", 0) == None && ItemAt("[%]", 0) == None && ItemAt("[]", 0) == None
    ensures ItemAt("%bx", 0) == None && ItemAt("%fa", 0) == None
  {
    assert BracketEnd("[a", 2) == None && BracketEnd("[%]", 3) == None && BracketEnd("[]", 2) == None;
  }
}
