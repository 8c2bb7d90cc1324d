/** The page snapshot formatter: a walk that prints highlighted elements with the text they own, a second
    walk that collects that text, and an upward search that keeps the two from printing a text twice. */
module Snapshot {
  import opened Machine
  import opened Strings

  datatype Node = Node(isText: bool, text: string, tag: string, children: seq<string>,
                       highlight: Option<int>, isNew: bool)

  type Tree = map<string, Node>

  /** A printed line, before rendering; `texts` are the text nodes collected for a highlighted element. */
  datatype Line =
    | ElementLine(depth: nat, id: string, index: int, isNew: bool, texts: seq<string>)
    | TextLine(depth: nat, id: string)

  predicate IsParent(t: Tree, p: string, c: string) {
    p in t && c in t[p].children
  }

  /** Evidence that a flat map is tree-shaped: heights that fall from parent to child. */
  datatype Shape = Shape(height: map<string, nat>, bound: nat)

  ghost predicate TreeShaped(t: Tree, shape: Shape) {
    && (forall p | p in t :: p in shape.height && shape.height[p] <= shape.bound)
    && (forall p, c | IsParent(t, p, c) && c in t :: shape.height[c] < shape.height[p])
    && (forall p, q, c | IsParent(t, p, c) && IsParent(t, q, c) && c in t :: p == q)
    && (forall p, i, j | p in t && 0 <= i < j < |t[p].children| && t[p].children[i] in t ::
          t[p].children[i] != t[p].children[j])
  }

  predicate Blank(s: string) {
    TrimSpace(s) == ""
  }

  ghost function Height(t: Tree, shape: Shape, id: string): nat
    requires TreeShaped(t, shape)
  {
    if id in t then shape.height[id] + 1 else 0
  }

  /** The text nodes collected below `id` on behalf of the element `top`. */
  ghost function Collected(t: Tree, shape: Shape, top: string, id: string): seq<string>
    requires TreeShaped(t, shape)
    decreases Height(t, shape, id), 0
  {
    if id !in t then []
    else if t[id].isText then (if Blank(t[id].text) then [] else [id])
    else CollectedFrom(t, shape, top, id, 0)
  }

  ghost function CollectedFrom(t: Tree, shape: Shape, top: string, id: string, i: nat): seq<string>
    requires TreeShaped(t, shape) && id in t && i <= |t[id].children|
    decreases Height(t, shape, id) - 1, 1, |t[id].children| - i
  {
    if i == |t[id].children| then []
    else
      var c := t[id].children[i];
      assert c in t ==> IsParent(t, id, c);
      (if c in t && (t[c].isText || t[c].highlight.None? || c == top) then Collected(t, shape, top, c) else [])
      + CollectedFrom(t, shape, top, id, i + 1)
  }

  /** Whether a proper ancestor is highlighted, found by walking up. */
  ghost predicate Covered(t: Tree, shape: Shape, id: string)
    requires TreeShaped(t, shape)
    decreases shape.bound + 1 - Height(t, shape, id)
  {
    id in t && exists p | IsParent(t, p, id) :: t[p].highlight.Some? || Covered(t, shape, p)
  }

  ghost function Printed(t: Tree, shape: Shape, id: string, depth: nat): seq<Line>
    requires TreeShaped(t, shape)
    decreases Height(t, shape, id), 0
  {
    if id !in t then []
    else if !t[id].isText then
      match t[id].highlight
      case Some(index) =>
        [ElementLine(depth, id, index, t[id].isNew, Collected(t, shape, id, id))]
        + PrintedFrom(t, shape, id, 0, depth + 1)
      case None => PrintedFrom(t, shape, id, 0, depth)
    else if !Covered(t, shape, id) && !Blank(t[id].text) then [TextLine(depth, id)]
    else []
  }

  ghost function PrintedFrom(t: Tree, shape: Shape, id: string, i: nat, depth: nat): seq<Line>
    requires TreeShaped(t, shape) && id in t && i <= |t[id].children|
    decreases Height(t, shape, id) - 1, 1, |t[id].children| - i
  {
    if i == |t[id].children| then []
    else
      assert t[id].children[i] in t ==> IsParent(t, id, t[id].children[i]);
      Printed(t, shape, t[id].children[i], depth) + PrintedFrom(t, shape, id, i + 1, depth)
  }

  // ---- The reference: what there is to print, and where it belongs ----

  /** `x` can be reached from `a` through children of elements. */
  ghost predicate Reaches(t: Tree, shape: Shape, a: string, x: string)
    requires TreeShaped(t, shape)
    decreases shape.bound + 1 - Height(t, shape, x)
  {
    x in t && (x == a || exists p | IsParent(t, p, x) :: !t[p].isText && Reaches(t, shape, a, p))
  }

  /** A text node that must be printed. */
  predicate IsPrintable(t: Tree, x: string) {
    x in t && t[x].isText && !Blank(t[x].text)
  }

  ghost function ParentOf(t: Tree, x: string): Option<string> {
    if p :| IsParent(t, p, x) then Some(p) else None
  }

  /** The number of highlighted proper ancestors. */
  ghost function HighlightsAbove(t: Tree, shape: Shape, x: string): nat
    requires TreeShaped(t, shape)
    decreases shape.bound + 1 - Height(t, shape, x)
  {
    if x !in t then 0
    else
      match ParentOf(t, x)
      case None => 0
      case Some(p) => (if t[p].highlight.Some? then 1 else 0) + HighlightsAbove(t, shape, p)
  }

  /** The nearest highlighted proper ancestor. */
  ghost function Owner(t: Tree, shape: Shape, x: string): Option<string>
    requires TreeShaped(t, shape)
    decreases shape.bound + 1 - Height(t, shape, x)
  {
    if x !in t then None
    else
      match ParentOf(t, x)
      case None => None
      case Some(p) => if t[p].highlight.Some? then Some(p) else Owner(t, shape, p)
  }

  /** All printable text nodes at or below `id`, in document order. */
  ghost function AllTexts(t: Tree, shape: Shape, id: string): seq<string>
    requires TreeShaped(t, shape)
    decreases Height(t, shape, id), 0
  {
    if id !in t then []
    else if t[id].isText then (if Blank(t[id].text) then [] else [id])
    else AllTextsFrom(t, shape, id, 0)
  }

  ghost function AllTextsFrom(t: Tree, shape: Shape, id: string, i: nat): seq<string>
    requires TreeShaped(t, shape) && id in t && i <= |t[id].children|
    decreases Height(t, shape, id) - 1, 1, |t[id].children| - i
  {
    if i == |t[id].children| then []
    else
      assert t[id].children[i] in t ==> IsParent(t, id, t[id].children[i]);
      AllTexts(t, shape, t[id].children[i]) + AllTextsFrom(t, shape, id, i + 1)
  }

  /** The text nodes that a list of lines carries. */
  function Carried(lines: seq<Line>): seq<string> {
    if lines == [] then []
    else (if lines[0].ElementLine? then lines[0].texts else [lines[0].id]) + Carried(lines[1..])
  }

  // ---- Facts about parents ----

  lemma ParentIsUnique(t: Tree, shape: Shape, p: string, c: string)
    requires TreeShaped(t, shape) && IsParent(t, p, c) && c in t
    ensures ParentOf(t, c) == Some(p)
    ensures Covered(t, shape, c) <==> t[p].highlight.Some? || Covered(t, shape, p)
    ensures HighlightsAbove(t, shape, c) == (if t[p].highlight.Some? then 1 else 0) + HighlightsAbove(t, shape, p)
    ensures Owner(t, shape, c) == if t[p].highlight.Some? then Some(p) else Owner(t, shape, p)
    ensures forall a | a != c :: Reaches(t, shape, a, c) <==> !t[p].isText && Reaches(t, shape, a, p)
  {
  }

  lemma {:induction false} CoveredIffOwned(t: Tree, shape: Shape, x: string)
    requires TreeShaped(t, shape)
    ensures Covered(t, shape, x) <==> Owner(t, shape, x).Some?
    ensures Covered(t, shape, x) <==> HighlightsAbove(t, shape, x) > 0
    decreases shape.bound + 1 - Height(t, shape, x)
  {
    if x in t && exists p :: IsParent(t, p, x) {
      var p :| IsParent(t, p, x);
      ParentIsUnique(t, shape, p, x);
      CoveredIffOwned(t, shape, p);
    }
  }

  // ---- Conservation: every text is carried once ----

  lemma {:induction false} CarriedConcat(a: seq<Line>, b: seq<Line>)
    ensures Carried(a + b) == Carried(a) + Carried(b)
  {
    if a == [] {
      assert a + b == b;
    } else {
      assert (a + b)[1..] == a[1..] + b;
      CarriedConcat(a[1..], b);
    }
  }

  predicate IsHighlighted(n: Node) {
    !n.isText && n.highlight.Some?
  }

  /** The texts at or below `id` that are left to the highlighted element `top` above it. */
  ghost function LeftTo(t: Tree, shape: Shape, top: string, id: string): seq<string>
    requires TreeShaped(t, shape)
  {
    if id in t && Covered(t, shape, id) && !IsHighlighted(t[id]) then Collected(t, shape, top, id) else []
  }

  /** The share of the texts from child `i` on that is left to `top`. */
  ghost function LeftToFrom(t: Tree, shape: Shape, top: string, id: string, i: nat): seq<string>
    requires TreeShaped(t, shape) && id in t && i <= |t[id].children|
  {
    if t[id].highlight.Some? || Covered(t, shape, id) then CollectedFrom(t, shape, top, id, i) else []
  }

  lemma LeftToSplits(t: Tree, shape: Shape, top: string, id: string, i: nat)
    requires TreeShaped(t, shape) && id in t && !t[id].isText && i < |t[id].children|
    requires Height(t, shape, id) <= Height(t, shape, top)
    ensures LeftToFrom(t, shape, top, id, i)
            == LeftTo(t, shape, top, t[id].children[i]) + LeftToFrom(t, shape, top, id, i + 1)
  {
    var c := t[id].children[i];
    if c in t {
      assert IsParent(t, id, c);
      ParentIsUnique(t, shape, id, c);
    }
  }

  lemma AddUp(p: seq<string>, l: seq<string>, a: seq<string>, p': seq<string>, l': seq<string>, a': seq<string>)
    requires multiset(p) + multiset(l) == multiset(a) && multiset(p') + multiset(l') == multiset(a')
    ensures multiset(p + p') + multiset(l + l') == multiset(a + a')
  {
  }

  lemma {:induction false} Conserved(t: Tree, shape: Shape, top: string, id: string, depth: nat)
    requires TreeShaped(t, shape) && Height(t, shape, id) <= Height(t, shape, top)
    ensures multiset(Carried(Printed(t, shape, id, depth))) + multiset(LeftTo(t, shape, top, id))
            == multiset(AllTexts(t, shape, id))
    decreases Height(t, shape, id), 0
  {
    hide Carried, PrintedFrom, Printed, AllTexts, AllTextsFrom, CollectedFrom, Collected, Covered, LeftTo, LeftToFrom;
    if id !in t || t[id].isText {
      LeafConserved(t, shape, top, id, depth);
    } else if t[id].highlight.Some? {
      ConservedFrom(t, shape, id, id, 0, depth + 1);
      HighlightedCarries(t, shape, id, depth);
      HighlightedUnfolds(t, shape, top, id);
    } else {
      ConservedFrom(t, shape, top, id, 0, depth);
      PlainUnfolds(t, shape, top, id, depth);
    }
  }

  lemma LeafConserved(t: Tree, shape: Shape, top: string, id: string, depth: nat)
    requires TreeShaped(t, shape) && (id !in t || t[id].isText)
    ensures multiset(Carried(Printed(t, shape, id, depth))) + multiset(LeftTo(t, shape, top, id))
            == multiset(AllTexts(t, shape, id))
  {
    hide PrintedFrom, AllTextsFrom, CollectedFrom, Covered;
  }

  lemma HighlightedUnfolds(t: Tree, shape: Shape, top: string, id: string)
    requires TreeShaped(t, shape) && id in t && IsHighlighted(t[id])
    ensures LeftTo(t, shape, top, id) == [] && AllTexts(t, shape, id) == AllTextsFrom(t, shape, id, 0)
  {
    hide AllTextsFrom, Covered, Collected;
  }

  lemma PlainUnfolds(t: Tree, shape: Shape, top: string, id: string, depth: nat)
    requires TreeShaped(t, shape) && id in t && !t[id].isText && t[id].highlight.None?
    ensures LeftTo(t, shape, top, id) == LeftToFrom(t, shape, top, id, 0)
    ensures AllTexts(t, shape, id) == AllTextsFrom(t, shape, id, 0)
    ensures Printed(t, shape, id, depth) == PrintedFrom(t, shape, id, 0, depth)
  {
    hide AllTextsFrom, PrintedFrom, CollectedFrom, Covered;
  }

  lemma HighlightedCarries(t: Tree, shape: Shape, id: string, depth: nat)
    requires TreeShaped(t, shape) && id in t && IsHighlighted(t[id])
    ensures Carried(Printed(t, shape, id, depth))
            == LeftToFrom(t, shape, id, id, 0) + Carried(PrintedFrom(t, shape, id, 0, depth + 1))
  {
    var line := ElementLine(depth, id, t[id].highlight.value, t[id].isNew, Collected(t, shape, id, id));
    assert Printed(t, shape, id, depth) == [line] + PrintedFrom(t, shape, id, 0, depth + 1);
    assert line.texts == LeftToFrom(t, shape, id, id, 0);
    hide Printed, PrintedFrom, Collected, CollectedFrom, LeftToFrom, Covered;
    CarriedConcat([line], PrintedFrom(t, shape, id, 0, depth + 1));
    assert [line][1..] == [] && Carried([]) == [];
    assert Carried([line]) == line.texts + Carried([line][1..]);
  }

  lemma {:induction false} ConservedFrom(t: Tree, shape: Shape, top: string, id: string, i: nat, depth: nat)
    requires TreeShaped(t, shape) && id in t && !t[id].isText && i <= |t[id].children|
    requires Height(t, shape, id) <= Height(t, shape, top)
    ensures multiset(Carried(PrintedFrom(t, shape, id, i, depth))) + multiset(LeftToFrom(t, shape, top, id, i))
            == multiset(AllTextsFrom(t, shape, id, i))
    decreases Height(t, shape, id) - 1, 1, |t[id].children| - i
  {
    if i < |t[id].children| {
      var c := t[id].children[i];
      assert c in t ==> IsParent(t, id, c);
      Conserved(t, shape, top, c, depth);
      ConservedFrom(t, shape, top, id, i + 1, depth);
      CarriedConcat(Printed(t, shape, c, depth), PrintedFrom(t, shape, id, i + 1, depth));
      LeftToSplits(t, shape, top, id, i);
      hide LeftTo, LeftToFrom, Printed, AllTexts, Carried;
      AddUp(Carried(Printed(t, shape, c, depth)), LeftTo(t, shape, top, c), AllTexts(t, shape, c),
            Carried(PrintedFrom(t, shape, id, i + 1, depth)), LeftToFrom(t, shape, top, id, i + 1),
            AllTextsFrom(t, shape, id, i + 1));
    }
  }

  // ---- The reference lists each reachable printable text exactly once ----

  lemma {:induction false} ReachedIsNotHigher(t: Tree, shape: Shape, a: string, x: string)
    requires TreeShaped(t, shape) && Reaches(t, shape, a, x)
    ensures a in t && Height(t, shape, x) <= Height(t, shape, a)
    decreases shape.bound + 1 - Height(t, shape, x)
  {
    if x != a {
      var p :| IsParent(t, p, x) && !t[p].isText && Reaches(t, shape, a, p);
      ReachedIsNotHigher(t, shape, a, p);
    }
  }

  lemma {:induction false} ReachesTrans(t: Tree, shape: Shape, a: string, b: string, x: string)
    requires TreeShaped(t, shape) && Reaches(t, shape, a, b) && Reaches(t, shape, b, x)
    ensures Reaches(t, shape, a, x)
    decreases shape.bound + 1 - Height(t, shape, x)
  {
    if x != b {
      var p :| IsParent(t, p, x) && !t[p].isText && Reaches(t, shape, b, p);
      ReachesTrans(t, shape, a, b, p);
    }
  }

  lemma {:induction false} SiblingsAreDisjoint(t: Tree, shape: Shape, p: string, c: string, d: string, x: string)
    requires TreeShaped(t, shape) && IsParent(t, p, c) && IsParent(t, p, d) && c != d
    requires Reaches(t, shape, c, x) && c in t && d in t
    ensures !Reaches(t, shape, d, x)
    decreases shape.bound + 1 - Height(t, shape, x)
  {
    if x == c || x == d {
      ParentIsUnique(t, shape, p, x);
      var other := if x == c then d else c;
      if Reaches(t, shape, other, x) {
        ReachedIsNotHigher(t, shape, other, p);
      }
    } else {
      var q :| IsParent(t, q, x) && !t[q].isText && Reaches(t, shape, c, q);
      ParentIsUnique(t, shape, q, x);
      SiblingsAreDisjoint(t, shape, p, c, d, q);
    }
  }

  lemma {:induction false} AllTextsAreReached(t: Tree, shape: Shape, id: string, x: string)
    requires TreeShaped(t, shape) && x in AllTexts(t, shape, id)
    ensures IsPrintable(t, x) && Reaches(t, shape, id, x)
    decreases Height(t, shape, id), 0
  {
    if !t[id].isText {
      var c := AllTextsFromAreReached(t, shape, id, 0, x);
      ParentIsUnique(t, shape, id, c);
      ReachesTrans(t, shape, id, c, x);
    }
  }

  lemma {:induction false} AllTextsFromAreReached(t: Tree, shape: Shape, id: string, i: nat, x: string)
    returns (c: string)
    requires TreeShaped(t, shape) && id in t && i <= |t[id].children| && x in AllTextsFrom(t, shape, id, i)
    ensures c in t && c in t[id].children[i..] && IsParent(t, id, c)
    ensures IsPrintable(t, x) && Reaches(t, shape, c, x)
    decreases Height(t, shape, id) - 1, 1, |t[id].children| - i
  {
    c := t[id].children[i];
    if x in AllTexts(t, shape, c) {
      AllTextsAreReached(t, shape, c, x);
    } else {
      c := AllTextsFromAreReached(t, shape, id, i + 1, x);
    }
  }

  lemma {:induction false} ChildTextsAreIncluded(t: Tree, shape: Shape, id: string, i: nat, k: nat, x: string)
    requires TreeShaped(t, shape) && id in t && i <= k < |t[id].children|
    requires x in AllTexts(t, shape, t[id].children[k])
    ensures x in AllTextsFrom(t, shape, id, i)
    decreases k - i
  {
    if i < k {
      ChildTextsAreIncluded(t, shape, id, i + 1, k, x);
    }
  }

  lemma {:induction false} ReachedTextsAreIncluded(t: Tree, shape: Shape, a: string, b: string, x: string)
    requires TreeShaped(t, shape) && Reaches(t, shape, a, b) && x in AllTexts(t, shape, b)
    ensures x in AllTexts(t, shape, a)
    decreases shape.bound + 1 - Height(t, shape, b)
  {
    if a != b {
      var p :| IsParent(t, p, b) && !t[p].isText && Reaches(t, shape, a, p);
      var k :| 0 <= k < |t[p].children| && t[p].children[k] == b;
      ChildTextsAreIncluded(t, shape, p, 0, k, x);
      ReachedTextsAreIncluded(t, shape, a, p, x);
    }
  }

  lemma {:induction false} ListedOnce(t: Tree, shape: Shape, id: string, x: string)
    requires TreeShaped(t, shape)
    ensures multiset(AllTexts(t, shape, id))[x] <= 1
    decreases Height(t, shape, id), 0
  {
    if id in t && !t[id].isText {
      ListedOnceFrom(t, shape, id, 0, x);
    }
  }

  lemma {:induction false} ListedOnceFrom(t: Tree, shape: Shape, id: string, i: nat, x: string)
    requires TreeShaped(t, shape) && id in t && i <= |t[id].children|
    ensures multiset(AllTextsFrom(t, shape, id, i))[x] <= 1
    decreases Height(t, shape, id) - 1, 1, |t[id].children| - i
  {
    if i < |t[id].children| {
      var c := t[id].children[i];
      if c in t {
        assert IsParent(t, id, c);
      }
      ListedOnce(t, shape, c, x);
      ListedOnceFrom(t, shape, id, i + 1, x);
      if x in AllTexts(t, shape, c) && x in AllTextsFrom(t, shape, id, i + 1) {
        AllTextsAreReached(t, shape, c, x);
        ReachedIsNotHigher(t, shape, c, x);
        var d := AllTextsFromAreReached(t, shape, id, i + 1, x);
        var k :| i + 1 <= k < |t[id].children| && t[id].children[k] == d;
        SiblingsAreDisjoint(t, shape, id, c, d, x);
      }
    }
  }

  lemma ListedExactlyOnce(t: Tree, shape: Shape, root: string, x: string)
    requires TreeShaped(t, shape)
    ensures multiset(AllTexts(t, shape, root))[x]
            == if IsPrintable(t, x) && Reaches(t, shape, root, x) then 1 else 0
  {
    ListedOnce(t, shape, root, x);
    if x in AllTexts(t, shape, root) {
      AllTextsAreReached(t, shape, root, x);
    } else if IsPrintable(t, x) && Reaches(t, shape, root, x) {
      ReachedTextsAreIncluded(t, shape, root, x, x);
    }
  }

  /** Text conservation: the printed lines carry every reachable non-blank text node exactly once, and
      nothing else. */
  lemma TextIsConserved(t: Tree, shape: Shape, root: string, x: string)
    requires TreeShaped(t, shape) && ParentOf(t, root) == None
    ensures multiset(Carried(Printed(t, shape, root, 0)))[x]
            == if IsPrintable(t, x) && Reaches(t, shape, root, x) then 1 else 0
  {
    Conserved(t, shape, root, root, 0);
    ListedExactlyOnce(t, shape, root, x);
    assert LeftTo(t, shape, root, root) == [];
  }

  // ---- Attribution: every line and every text is where it belongs ----

  /** A line at the depth of its highlighted ancestors, carrying texts that its element owns. */
  ghost predicate WellPlaced(t: Tree, shape: Shape, line: Line)
    requires TreeShaped(t, shape)
  {
    match line
    case ElementLine(depth, id, index, isNew, texts) =>
      && id in t && IsHighlighted(t[id]) && t[id].highlight == Some(index) && t[id].isNew == isNew
      && depth == HighlightsAbove(t, shape, id)
      && forall x | x in texts :: IsPrintable(t, x) && Owner(t, shape, x) == Some(id)
    case TextLine(depth, id) =>
      IsPrintable(t, id) && depth == HighlightsAbove(t, shape, id) && Owner(t, shape, id) == None
  }

  lemma {:induction false} CollectedIsOwned(t: Tree, shape: Shape, top: string, id: string, x: string)
    requires TreeShaped(t, shape) && top in t && IsHighlighted(t[top]) && x in Collected(t, shape, top, id)
    requires id == top || (Owner(t, shape, id) == Some(top) && !IsHighlighted(t[id]))
    ensures IsPrintable(t, x) && Owner(t, shape, x) == Some(top)
    decreases Height(t, shape, id), 0
  {
    if !t[id].isText {
      CollectedFromIsOwned(t, shape, top, id, 0, x);
    }
  }

  lemma {:induction false} CollectedFromIsOwned(t: Tree, shape: Shape, top: string, id: string, i: nat, x: string)
    requires TreeShaped(t, shape) && top in t && IsHighlighted(t[top])
    requires id in t && !t[id].isText && i <= |t[id].children| && x in CollectedFrom(t, shape, top, id, i)
    requires id == top || (Owner(t, shape, id) == Some(top) && !IsHighlighted(t[id]))
    ensures IsPrintable(t, x) && Owner(t, shape, x) == Some(top)
    decreases Height(t, shape, id) - 1, 1, |t[id].children| - i
  {
    var c := t[id].children[i];
    if x in CollectedFrom(t, shape, top, id, i + 1) {
      CollectedFromIsOwned(t, shape, top, id, i + 1, x);
    } else {
      assert IsParent(t, id, c);
      ParentIsUnique(t, shape, id, c);
      CollectedIsOwned(t, shape, top, c, x);
    }
  }

  lemma {:induction false} LinesArePlaced(t: Tree, shape: Shape, id: string, depth: nat, line: Line)
    requires TreeShaped(t, shape) && line in Printed(t, shape, id, depth) && depth == HighlightsAbove(t, shape, id)
    ensures WellPlaced(t, shape, line)
    decreases Height(t, shape, id), 0
  {
    CoveredIffOwned(t, shape, id);
    if !t[id].isText {
      if t[id].highlight.Some? && line == Printed(t, shape, id, depth)[0] {
        forall x | x in line.texts
          ensures IsPrintable(t, x) && Owner(t, shape, x) == Some(id)
        {
          CollectedIsOwned(t, shape, id, id, x);
        }
      } else {
        LinesFromArePlaced(t, shape, id, 0, if t[id].highlight.Some? then depth + 1 else depth, line);
      }
    }
  }

  lemma {:induction false} LinesFromArePlaced(t: Tree, shape: Shape, id: string, i: nat, depth: nat, line: Line)
    requires TreeShaped(t, shape) && id in t && i <= |t[id].children| && line in PrintedFrom(t, shape, id, i, depth)
    requires depth == HighlightsAbove(t, shape, id) + (if t[id].highlight.Some? then 1 else 0)
    ensures WellPlaced(t, shape, line)
    decreases Height(t, shape, id) - 1, 1, |t[id].children| - i
  {
    var c := t[id].children[i];
    if line in PrintedFrom(t, shape, id, i + 1, depth) {
      LinesFromArePlaced(t, shape, id, i + 1, depth, line);
    } else {
      assert IsParent(t, id, c);
      ParentIsUnique(t, shape, id, c);
      LinesArePlaced(t, shape, c, depth, line);
    }
  }

  lemma {:induction false} CarriedByALine(lines: seq<Line>, x: string)
    requires x in Carried(lines)
    ensures exists line | line in lines :: if line.ElementLine? then x in line.texts else x == line.id
  {
    var first := lines[0];
    if first.ElementLine? && x in first.texts {
    } else if first.TextLine? && x == first.id {
    } else {
      CarriedByALine(lines[1..], x);
    }
  }

  /** Every reachable non-blank text is printed where it belongs: in the line of its nearest highlighted
      ancestor, or on a line of its own when it has none; and every line stands at the depth of its
      highlighted ancestors. */
  lemma TextIsAttributed(t: Tree, shape: Shape, root: string, x: string)
    requires TreeShaped(t, shape) && ParentOf(t, root) == None
    requires IsPrintable(t, x) && Reaches(t, shape, root, x)
    ensures match Owner(t, shape, x)
            case None => TextLine(0, x) in Printed(t, shape, root, 0)
            case Some(h) => exists line | line in Printed(t, shape, root, 0) ::
                line.ElementLine? && line.id == h && line.depth == HighlightsAbove(t, shape, h) && x in line.texts
  {
    TextIsConserved(t, shape, root, x);
    var lines := Printed(t, shape, root, 0);
    CarriedByALine(lines, x);
    var line :| line in lines && if line.ElementLine? then x in line.texts else x == line.id;
    LinesArePlaced(t, shape, root, 0, line);
    CoveredIffOwned(t, shape, x);
  }

  // ---- Selectors: every highlighted element can be found by its index ----

  /** The selector map: the last line with an index wins. */
  function SelectorsOf(lines: seq<Line>): map<int, string> {
    if lines == [] then map[]
    else
      var last := lines[|lines| - 1];
      var before := SelectorsOf(lines[..|lines| - 1]);
      if last.ElementLine? then before[last.index := last.id] else before
  }

  lemma {:induction false} SelectorsAreLines(lines: seq<Line>, index: int)
    ensures index in SelectorsOf(lines) <==> exists line | line in lines :: line.ElementLine? && line.index == index
    ensures index in SelectorsOf(lines) ==>
              exists line | line in lines ::
                line.ElementLine? && line.index == index && line.id == SelectorsOf(lines)[index]
  {
    if lines != [] {
      var n := |lines| - 1;
      SelectorsAreLines(lines[..n], index);
      assert forall line :: line in lines <==> line in lines[..n] || line == lines[n];
    }
  }

  lemma {:induction false} ChildLinesAreIncluded(t: Tree, shape: Shape, id: string, i: nat, k: nat, depth: nat,
                                                 line: Line)
    requires TreeShaped(t, shape) && id in t && i <= k < |t[id].children|
    requires line in Printed(t, shape, t[id].children[k], depth)
    ensures line in PrintedFrom(t, shape, id, i, depth)
    decreases k - i
  {
    if i < k {
      ChildLinesAreIncluded(t, shape, id, i + 1, k, depth, line);
    }
  }

  lemma {:induction false} ReachedLinesAreIncluded(t: Tree, shape: Shape, a: string, b: string, line: Line)
    requires TreeShaped(t, shape) && Reaches(t, shape, a, b)
    requires line in Printed(t, shape, b, HighlightsAbove(t, shape, b))
    ensures line in Printed(t, shape, a, HighlightsAbove(t, shape, a))
    decreases shape.bound + 1 - Height(t, shape, b)
  {
    if a != b {
      var p :| IsParent(t, p, b) && !t[p].isText && Reaches(t, shape, a, p);
      ParentIsUnique(t, shape, p, b);
      var k :| 0 <= k < |t[p].children| && t[p].children[k] == b;
      ChildLinesAreIncluded(t, shape, p, 0, k, HighlightsAbove(t, shape, b), line);
      ReachedLinesAreIncluded(t, shape, a, p, line);
    }
  }

  /** Every line is about a node that the walk reaches. */
  lemma {:induction false} LinesAreReached(t: Tree, shape: Shape, id: string, depth: nat, line: Line)
    requires TreeShaped(t, shape) && line in Printed(t, shape, id, depth)
    ensures Reaches(t, shape, id, line.id)
    decreases Height(t, shape, id), 0
  {
    if !t[id].isText && !(t[id].highlight.Some? && line == Printed(t, shape, id, depth)[0]) {
      var c := LinesFromAreReached(t, shape, id, 0, if t[id].highlight.Some? then depth + 1 else depth, line);
      ParentIsUnique(t, shape, id, c);
      ReachesTrans(t, shape, id, c, line.id);
    }
  }

  lemma {:induction false} LinesFromAreReached(t: Tree, shape: Shape, id: string, i: nat, depth: nat, line: Line)
    returns (c: string)
    requires TreeShaped(t, shape) && id in t && i <= |t[id].children| && line in PrintedFrom(t, shape, id, i, depth)
    ensures c in t && IsParent(t, id, c) && Reaches(t, shape, c, line.id)
    decreases Height(t, shape, id) - 1, 1, |t[id].children| - i
  {
    c := t[id].children[i];
    if line in Printed(t, shape, c, depth) {
      LinesAreReached(t, shape, c, depth, line);
    } else {
      c := LinesFromAreReached(t, shape, id, i + 1, depth, line);
    }
  }

  predicate HasIndex(line: Line, index: int) {
    line.ElementLine? && line.index == index
  }

  /** Line `k` is the last one with the index. */
  predicate IsLastWith(lines: seq<Line>, k: int, index: int) {
    0 <= k < |lines| && HasIndex(lines[k], index) && forall j | k < j < |lines| :: !HasIndex(lines[j], index)
  }

  lemma {:induction false} SelectorIsLast(lines: seq<Line>, index: int) returns (k: nat)
    requires index in SelectorsOf(lines)
    ensures IsLastWith(lines, k, index) && SelectorsOf(lines)[index] == lines[k].id
  {
    var n := |lines| - 1;
    if HasIndex(lines[n], index) {
      k := n;
    } else {
      k := SelectorIsLast(lines[..n], index);
    }
  }

  lemma SelectorIsElement(t: Tree, shape: Shape, root: string, index: int)
    requires TreeShaped(t, shape) && ParentOf(t, root) == None
    requires index in SelectorsOf(Printed(t, shape, root, 0))
    ensures var lines := Printed(t, shape, root, 0);
            var id := SelectorsOf(lines)[index];
            && IsElementAt(t, shape, root, id) && t[id].highlight == Some(index)
            && exists k :: IsLastWith(lines, k, index) && lines[k].id == id
  {
    var lines := Printed(t, shape, root, 0);
    var k := SelectorIsLast(lines, index);
    LinesArePlaced(t, shape, root, 0, lines[k]);
    LinesAreReached(t, shape, root, 0, lines[k]);
  }

  /** The selectors' indices are exactly those of the reachable highlighted elements, and each leads to such an
      element with that index: the one printed last, if several share it. */
  lemma SelectorsResolve(t: Tree, shape: Shape, root: string)
    requires TreeShaped(t, shape) && ParentOf(t, root) == None
    ensures var lines := Printed(t, shape, root, 0);
            var sel := SelectorsOf(lines);
            && (forall h | IsElementAt(t, shape, root, h) :: t[h].highlight.value in sel)
            && (forall index | index in sel ::
                  && IsElementAt(t, shape, root, sel[index]) && t[sel[index]].highlight == Some(index)
                  && exists k :: IsLastWith(lines, k, index) && lines[k].id == sel[index])
  {
    var lines := Printed(t, shape, root, 0);
    var sel := SelectorsOf(lines);
    forall index | index in sel
      ensures IsElementAt(t, shape, root, sel[index]) && t[sel[index]].highlight == Some(index)
      ensures exists k :: IsLastWith(lines, k, index) && lines[k].id == sel[index]
    {
      SelectorIsElement(t, shape, root, index);
    }
    forall h | IsElementAt(t, shape, root, h)
      ensures t[h].highlight.value in sel
    {
      var line := Printed(t, shape, h, HighlightsAbove(t, shape, h))[0];
      ReachedLinesAreIncluded(t, shape, root, h, line);
      SelectorsAreLines(lines, t[h].highlight.value);
    }
  }

  /** So with distinct indices every reachable highlighted element is found by its own index. */
  lemma SelectorsAreExact(t: Tree, shape: Shape, root: string, h: string)
    requires TreeShaped(t, shape) && ParentOf(t, root) == None && IsElementAt(t, shape, root, h)
    requires forall g | IsElementAt(t, shape, root, g) && t[g].highlight == t[h].highlight :: g == h
    ensures var sel := SelectorsOf(Printed(t, shape, root, 0));
            t[h].highlight.value in sel && sel[t[h].highlight.value] == h
  {
    SelectorsResolve(t, shape, root);
    SelectorIsElement(t, shape, root, t[h].highlight.value);
  }

  /** A reachable highlighted element. */
  ghost predicate IsElementAt(t: Tree, shape: Shape, root: string, h: string)
    requires TreeShaped(t, shape)
  {
    h in t && IsHighlighted(t[h]) && Reaches(t, shape, root, h)
  }
}

/** The walks as the formatter runs them: they append to shared output while they descend. */
module SnapshotFormatter {
  import opened Strings
  import opened Snapshot

  /** A printed row: the line with its texts trimmed, before joining and length caps. */
  datatype Row =
    | ElementRow(depth: nat, index: int, isNew: bool, tag: string, parts: seq<string>)
    | TextRow(depth: nat, text: string)

  ghost function TrimmedTexts(t: Tree, ids: seq<string>): seq<string>
    requires forall id | id in ids :: id in t
  {
    seq(|ids|, i requires 0 <= i < |ids| => TrimSpace(t[ids[i]].text))
  }

  lemma Regroup<T>(a: seq<T>, b: seq<T>, c: seq<T>)
    ensures (a + b) + c == a + (b + c)
  {
  }

  class Collector {
    var parts: seq<string>
    ghost var ids: seq<string>

    constructor ()
      ensures parts == [] && ids == []
    {
      parts, ids := [], [];
    }

    ghost predicate Valid(t: Tree)
      reads this
    {
      (forall id | id in ids :: id in t) && parts == TrimmedTexts(t, ids)
    }

    method Add(t: Tree, id: string)
      requires Valid(t) && id in t
      modifies this
      ensures Valid(t) && ids == old(ids) + [id]
    {
      parts := parts + [TrimSpace(t[id].text)];
      ids := ids + [id];
    }

    method Walk(t: Tree, ghost shape: Shape, top: string, id: string)
      requires TreeShaped(t, shape) && Valid(t)
      modifies this
      ensures Valid(t) && ids == old(ids) + Collected(t, shape, top, id)
      decreases Height(t, shape, id)
    {
      hide Valid;
      if id !in t {
        return;
      }
      var n := t[id];
      if n.isText && TrimSpace(n.text) != "" {
        Add(t, id);
        return;
      }
      if !n.isText {
        var i := 0;
        while i < |n.children|
          invariant 0 <= i <= |n.children|
          invariant Valid(t)
          invariant ids + CollectedFrom(t, shape, top, id, i) == old(ids) + CollectedFrom(t, shape, top, id, 0)
        {
          var c := n.children[i];
          assert c in t ==> IsParent(t, id, c);
          if c in t && !(!t[c].isText && t[c].highlight.Some? && c != top) {
            ghost var before := ids;
            Walk(t, shape, top, c);
            Regroup(before, Collected(t, shape, top, c), CollectedFrom(t, shape, top, id, i + 1));
          }
          i := i + 1;
        }
      }
    }
  }

  method CollectText(t: Tree, ghost shape: Shape, id: string) returns (parts: seq<string>)
    requires TreeShaped(t, shape)
    ensures forall x | x in Collected(t, shape, id, id) :: x in t
    ensures parts == TrimmedTexts(t, Collected(t, shape, id, id))
  {
    var c := new Collector();
    c.Walk(t, shape, id, id);
    assert c.ids == Collected(t, shape, id, id);
    parts := c.parts;
  }

  /** The upward search: scan the whole map, in any order, for the parent, then go on from there. */
  method HasHighlightedAncestor(t: Tree, ghost shape: Shape, id: string) returns (b: bool)
    requires TreeShaped(t, shape) && id in t
    ensures b == Covered(t, shape, id)
    decreases shape.bound + 1 - Height(t, shape, id)
  {
    var left := t.Keys;
    while left != {}
      invariant left <= t.Keys
      invariant forall p | p in t && p !in left :: !IsParent(t, p, id)
      decreases left
    {
      var p :| p in left;
      var children := t[p].children;
      for j := 0 to |children|
        invariant id !in children[..j]
      {
        if children[j] == id {
          assert IsParent(t, p, id);
          ParentIsUnique(t, shape, p, id);
          if t[p].highlight.Some? {
            return true;
          }
          b := HasHighlightedAncestor(t, shape, p);
          return;
        }
      }
      assert children[..|children|] == children;
      left := left - {p};
    }
    return false;
  }

  ghost predicate Known(t: Tree, line: Line) {
    line.id in t && (line.ElementLine? ==> forall x | x in line.texts :: x in t)
  }

  ghost function RowOf(t: Tree, line: Line): Row
    requires Known(t, line)
  {
    match line
    case ElementLine(depth, id, index, isNew, texts) =>
      ElementRow(depth, index, isNew, t[id].tag, TrimmedTexts(t, texts))
    case TextLine(depth, id) => TextRow(depth, TrimSpace(t[id].text))
  }

  /** What a row shows of its line: the node's own depth, index, novelty, tag and text, and every collected text
      trimmed, in order. */
  lemma RowShows(t: Tree, line: Line)
    requires Known(t, line)
    ensures var row := RowOf(t, line);
            match line
            case ElementLine(depth, id, index, isNew, texts) =>
              && row.ElementRow? && row.depth == depth && row.index == index && row.isNew == isNew
              && row.tag == t[id].tag && |row.parts| == |texts|
              && forall k | 0 <= k < |texts| :: row.parts[k] == TrimSpace(t[texts[k]].text)
            case TextLine(depth, id) => row == TextRow(depth, TrimSpace(t[id].text))
  {
  }

  class Output {
    var rows: seq<Row>
    var selectors: map<int, string>
    ghost var lines: seq<Line>

    constructor ()
      ensures rows == [] && selectors == map[] && lines == []
    {
      rows, selectors, lines := [], map[], [];
    }

    /** The rows and the selectors are those of the lines printed so far. */
    ghost predicate Valid(t: Tree)
      reads this
    {
      && |rows| == |lines|
      && (forall k | 0 <= k < |lines| :: Known(t, lines[k]) && rows[k] == RowOf(t, lines[k]))
      && selectors == SelectorsOf(lines)
    }

    method AddElement(t: Tree, ghost shape: Shape, id: string, depth: nat)
      requires TreeShaped(t, shape) && Valid(t) && id in t && IsHighlighted(t[id])
      modifies this
      ensures Valid(t)
      ensures lines == old(lines)
                       + [ElementLine(depth, id, t[id].highlight.value, t[id].isNew, Collected(t, shape, id, id))]
    {
      var parts := CollectText(t, shape, id);
      var index := t[id].highlight.value;
      ghost var line := ElementLine(depth, id, index, t[id].isNew, Collected(t, shape, id, id));
      rows := rows + [ElementRow(depth, index, t[id].isNew, t[id].tag, parts)];
      selectors := selectors[index := id];
      assert (lines + [line])[..|lines|] == lines;
      lines := lines + [line];
    }

    method AddText(t: Tree, id: string, depth: nat)
      requires Valid(t) && id in t
      modifies this
      ensures Valid(t) && lines == old(lines) + [TextLine(depth, id)]
    {
      rows := rows + [TextRow(depth, TrimSpace(t[id].text))];
      assert (lines + [TextLine(depth, id)])[..|lines|] == lines;
      lines := lines + [TextLine(depth, id)];
    }

    method Walk(t: Tree, ghost shape: Shape, id: string, depth: nat)
      requires TreeShaped(t, shape) && Valid(t)
      modifies this
      ensures Valid(t) && lines == old(lines) + Printed(t, shape, id, depth)
      decreases Height(t, shape, id)
    {
      hide Valid;
      if id !in t {
        return;
      }
      var n := t[id];
      if !n.isText {
        var nextDepth := depth;
        if n.highlight.Some? {
          AddElement(t, shape, id, depth);
          nextDepth := depth + 1;
        }
        ghost var begun := lines;
        var i := 0;
        while i < |n.children|
          invariant 0 <= i <= |n.children|
          invariant Valid(t)
          invariant lines + PrintedFrom(t, shape, id, i, nextDepth) == begun + PrintedFrom(t, shape, id, 0, nextDepth)
        {
          assert n.children[i] in t ==> IsParent(t, id, n.children[i]);
          ghost var before := lines;
          Walk(t, shape, n.children[i], nextDepth);
          Regroup(before, Printed(t, shape, n.children[i], nextDepth), PrintedFrom(t, shape, id, i + 1, nextDepth));
          i := i + 1;
        }
        assert lines == begun + PrintedFrom(t, shape, id, 0, nextDepth);
        Regroup(old(lines), begun[|old(lines)|..], PrintedFrom(t, shape, id, 0, nextDepth));
      } else {
        var covered := HasHighlightedAncestor(t, shape, id);
        if !covered && TrimSpace(n.text) != "" {
          AddText(t, id, depth);
        }
      }
    }
  }

  ghost function AllLines(t: Tree, shape: Shape, root: string): seq<Line>
    requires TreeShaped(t, shape)
  {
    if root == "" then [] else Printed(t, shape, root, 0)
  }

  /** The whole formatter: its rows are the specified lines and its selectors are theirs. A missing root
      gives nothing. */
  method FormatTree(t: Tree, ghost shape: Shape, root: string)
    returns (rows: seq<Row>, selectors: map<int, string>)
    requires TreeShaped(t, shape)
    ensures var lines := AllLines(t, shape, root);
            |rows| == |lines| && forall k | 0 <= k < |lines| :: Known(t, lines[k]) && rows[k] == RowOf(t, lines[k])
    ensures selectors == SelectorsOf(AllLines(t, shape, root))
  {
    if root == "" {
      return [], map[];
    }
    var o := new Output();
    o.Walk(t, shape, root, 0);
    assert o.lines == Printed(t, shape, root, 0);
    return o.rows, o.selectors;
  }
}
