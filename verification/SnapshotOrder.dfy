/** Document order: the order of nodes by child positions, and that lines and collected texts follow it. */
module SnapshotOrder {
  import opened Snapshot

  /** `x` is at or below the child at position `i` of the element `p`. */
  ghost predicate Under(t: Tree, shape: Shape, p: string, i: int, x: string)
    requires TreeShaped(t, shape)
  {
    && p in t && !t[p].isText && 0 <= i < |t[p].children| && t[p].children[i] in t
    && Reaches(t, shape, t[p].children[i], x)
  }

  /** Document order: a node comes before its descendants, and everything below an earlier child before everything
      below a later child of the same element. */
  ghost predicate Before(t: Tree, shape: Shape, x: string, y: string)
    requires TreeShaped(t, shape)
  {
    || (x != y && Reaches(t, shape, x, y))
    || exists p, i, j :: i < j && Under(t, shape, p, i, x) && Under(t, shape, p, j, y)
  }

  // ---- The order is strict ----

  lemma {:induction false} StrictlyLower(t: Tree, shape: Shape, x: string, y: string)
    requires TreeShaped(t, shape) && x != y && Reaches(t, shape, x, y)
    ensures x in t && y in t && Height(t, shape, y) < Height(t, shape, x)
  {
    var p :| IsParent(t, p, y) && !t[p].isText && Reaches(t, shape, x, p);
    ReachedIsNotHigher(t, shape, x, p);
  }

  /** Two nodes above the same node lie on one path. */
  lemma {:induction false} Comparable(t: Tree, shape: Shape, a: string, b: string, x: string)
    requires TreeShaped(t, shape) && Reaches(t, shape, a, x) && Reaches(t, shape, b, x)
    ensures Reaches(t, shape, a, b) || Reaches(t, shape, b, a)
    decreases shape.bound + 1 - Height(t, shape, x)
  {
    if x != a && x != b {
      var p :| IsParent(t, p, x) && !t[p].isText && Reaches(t, shape, a, p);
      ParentIsUnique(t, shape, p, x);
      Comparable(t, shape, a, b, p);
    }
  }

  /** The way down from an element to a node below it starts at one of its children. */
  lemma {:induction false} Towards(t: Tree, shape: Shape, p: string, x: string) returns (i: nat)
    requires TreeShaped(t, shape) && p != x && Reaches(t, shape, p, x)
    ensures Under(t, shape, p, i, x)
    decreases shape.bound + 1 - Height(t, shape, x)
  {
    var q :| IsParent(t, q, x) && !t[q].isText && Reaches(t, shape, p, q);
    if q == p {
      i :| 0 <= i < |t[p].children| && t[p].children[i] == x;
    } else {
      i := Towards(t, shape, p, q);
      ParentIsUnique(t, shape, q, x);
      UnderGoesDown(t, shape, p, i, q, x);
    }
  }

  lemma UnderGoesDown(t: Tree, shape: Shape, p: string, i: int, q: string, x: string)
    requires TreeShaped(t, shape) && Under(t, shape, p, i, q) && Reaches(t, shape, q, x)
    ensures Under(t, shape, p, i, x)
  {
    ReachesTrans(t, shape, t[p].children[i], q, x);
  }

  /** A node lies below one child of an element only. */
  lemma OneChild(t: Tree, shape: Shape, p: string, i: int, j: int, x: string)
    requires TreeShaped(t, shape) && Under(t, shape, p, i, x) && Under(t, shape, p, j, x)
    ensures i == j
  {
    var c, d := t[p].children[i], t[p].children[j];
    if c != d {
      SiblingsAreDisjoint(t, shape, p, c, d, x);
    }
  }

  lemma UnderIsReached(t: Tree, shape: Shape, p: string, i: int, x: string)
    requires TreeShaped(t, shape) && Under(t, shape, p, i, x)
    ensures Reaches(t, shape, p, x)
  {
    var c := t[p].children[i];
    assert IsParent(t, p, c);
    assert Reaches(t, shape, p, p);
    assert Reaches(t, shape, p, c);
    ReachesTrans(t, shape, p, c, x);
  }

  /** Two branchings above the same two nodes are the same. */
  lemma SameBranching(t: Tree, shape: Shape, p: string, i: int, j: int, q: string, k: int, l: int, x: string, y: string)
    requires TreeShaped(t, shape) && i != j && k != l
    requires Under(t, shape, p, i, x) && Under(t, shape, p, j, y)
    requires Under(t, shape, q, l, x) && Under(t, shape, q, k, y)
    ensures p == q && i == l && j == k
  {
    hide Reaches;
    if p == q {
      OneChild(t, shape, p, i, l, x);
      OneChild(t, shape, p, j, k, y);
    } else {
      UnderIsReached(t, shape, p, i, x);
      UnderIsReached(t, shape, q, l, x);
      UnderIsReached(t, shape, p, j, y);
      UnderIsReached(t, shape, q, k, y);
      Comparable(t, shape, p, q, x);
      if Reaches(t, shape, p, q) {
        NotAbove(t, shape, p, i, j, q, x, y);
      } else {
        NotAbove(t, shape, q, l, k, p, x, y);
      }
    }
  }

  /** What branches at an element does not meet again further down. */
  lemma NotAbove(t: Tree, shape: Shape, p: string, i: int, j: int, q: string, x: string, y: string)
    requires TreeShaped(t, shape) && p != q && Reaches(t, shape, p, q)
    requires Reaches(t, shape, q, x) && Reaches(t, shape, q, y)
    requires Under(t, shape, p, i, x) && Under(t, shape, p, j, y)
    ensures i == j
  {
    hide Reaches;
    var m := Towards(t, shape, p, q);
    UnderGoesDown(t, shape, p, m, q, x);
    UnderGoesDown(t, shape, p, m, q, y);
    OneChild(t, shape, p, m, i, x);
    OneChild(t, shape, p, m, j, y);
  }

  /** No two nodes come before each other, so an arrangement in document order is the only one. */
  lemma BeforeIsAsymmetric(t: Tree, shape: Shape, x: string, y: string)
    requires TreeShaped(t, shape) && Before(t, shape, x, y)
    ensures !Before(t, shape, y, x)
  {
    hide Reaches;
    if Before(t, shape, y, x) {
      if x != y && Reaches(t, shape, x, y) {
        NotBeforeAncestor(t, shape, x, y);
      } else if x != y && Reaches(t, shape, y, x) {
        NotBeforeAncestor(t, shape, y, x);
      } else {
        var p, i, j :| i < j && Under(t, shape, p, i, x) && Under(t, shape, p, j, y);
        var q, k, l :| k < l && Under(t, shape, q, k, y) && Under(t, shape, q, l, x);
        SameBranching(t, shape, p, i, j, q, k, l, x, y);
      }
    }
  }

  lemma NotBeforeAncestor(t: Tree, shape: Shape, x: string, y: string)
    requires TreeShaped(t, shape) && x != y && Reaches(t, shape, x, y)
    ensures !Before(t, shape, y, x)
  {
    hide Reaches;
    StrictlyLower(t, shape, x, y);
    if Reaches(t, shape, y, x) {
      StrictlyLower(t, shape, y, x);
    }
    if p, i, j :| i < j && Under(t, shape, p, i, y) && Under(t, shape, p, j, x) {
      UnderGoesDown(t, shape, p, j, x, y);
      OneChild(t, shape, p, i, j, y);
    }
  }

  // ---- Lines in document order ----

  lemma {:induction false} LineIsUnder(t: Tree, shape: Shape, id: string, i: nat, depth: nat, line: Line)
    returns (k: nat)
    requires TreeShaped(t, shape) && id in t && !t[id].isText && i <= |t[id].children|
    requires line in PrintedFrom(t, shape, id, i, depth)
    ensures k >= i && Under(t, shape, id, k, line.id)
    decreases |t[id].children| - i
  {
    var c := t[id].children[i];
    if line in Printed(t, shape, c, depth) {
      LinesAreReached(t, shape, c, depth, line);
      k := i;
      if c !in t {
        assert false;
      }
    } else {
      k := LineIsUnder(t, shape, id, i + 1, depth, line);
    }
  }

  lemma {:induction false} LinesInOrder(t: Tree, shape: Shape, id: string, depth: nat, j: nat, k: nat)
    requires TreeShaped(t, shape) && j < k < |Printed(t, shape, id, depth)|
    ensures Before(t, shape, Printed(t, shape, id, depth)[j].id, Printed(t, shape, id, depth)[k].id)
    decreases Height(t, shape, id), 0
  {
    var lines := Printed(t, shape, id, depth);
    if t[id].highlight.Some? {
      var rest := PrintedFrom(t, shape, id, 0, depth + 1);
      assert lines == [lines[0]] + rest;
      if j == 0 {
        assert lines[k] == rest[k - 1];
        var c := LineIsUnder(t, shape, id, 0, depth + 1, lines[k]);
        UnderIsReached(t, shape, id, c, lines[k].id);
        ReachedIsNotHigher(t, shape, t[id].children[c], lines[k].id);
        assert IsParent(t, id, t[id].children[c]);
      } else {
        LinesFromInOrder(t, shape, id, 0, depth + 1, j - 1, k - 1);
        assert lines[j] == rest[j - 1] && lines[k] == rest[k - 1];
      }
    } else {
      LinesFromInOrder(t, shape, id, 0, depth, j, k);
    }
  }

  lemma {:induction false} LinesFromInOrder(t: Tree, shape: Shape, id: string, i: nat, depth: nat, j: nat, k: nat)
    requires TreeShaped(t, shape) && id in t && !t[id].isText && i <= |t[id].children|
    requires j < k < |PrintedFrom(t, shape, id, i, depth)|
    ensures var lines := PrintedFrom(t, shape, id, i, depth); Before(t, shape, lines[j].id, lines[k].id)
    decreases Height(t, shape, id) - 1, 1, |t[id].children| - i
  {
    var c := t[id].children[i];
    assert c in t ==> IsParent(t, id, c);
    var first, rest := Printed(t, shape, c, depth), PrintedFrom(t, shape, id, i + 1, depth);
    var lines := PrintedFrom(t, shape, id, i, depth);
    assert lines == first + rest;
    hide Printed, PrintedFrom;
    if k < |first| {
      LinesInOrder(t, shape, c, depth, j, k);
    } else if j >= |first| {
      LinesFromInOrder(t, shape, id, i + 1, depth, j - |first|, k - |first|);
    } else {
      assert lines[j] == first[j] && lines[k] == rest[k - |first|];
      LinesAreReached(t, shape, c, depth, first[j]);
      ReachedExists(t, shape, c, first[j].id);
      var l := LineIsUnder(t, shape, id, i + 1, depth, lines[k]);
      assert Under(t, shape, id, i, lines[j].id);
    }
  }

  lemma ReachedExists(t: Tree, shape: Shape, a: string, x: string)
    requires TreeShaped(t, shape) && Reaches(t, shape, a, x)
    ensures a in t
  {
    ReachedIsNotHigher(t, shape, a, x);
  }

  // ---- Texts of one element in document order ----

  lemma {:induction false} CollectedIsReached(t: Tree, shape: Shape, top: string, id: string, x: string)
    requires TreeShaped(t, shape) && x in Collected(t, shape, top, id)
    ensures id in t && Reaches(t, shape, id, x)
    decreases Height(t, shape, id), 0
  {
    if !t[id].isText {
      var k := CollectedIsUnder(t, shape, top, id, 0, x);
      UnderIsReached(t, shape, id, k, x);
    }
  }

  lemma {:induction false} CollectedIsUnder(t: Tree, shape: Shape, top: string, id: string, i: nat, x: string)
    returns (k: nat)
    requires TreeShaped(t, shape) && id in t && !t[id].isText && i <= |t[id].children|
    requires x in CollectedFrom(t, shape, top, id, i)
    ensures k >= i && Under(t, shape, id, k, x)
    decreases Height(t, shape, id) - 1, 1, |t[id].children| - i
  {
    var c := t[id].children[i];
    if x in CollectedFrom(t, shape, top, id, i + 1) {
      k := CollectedIsUnder(t, shape, top, id, i + 1, x);
    } else {
      assert IsParent(t, id, c);
      CollectedIsReached(t, shape, top, c, x);
      k := i;
    }
  }

  lemma {:induction false} TextsInOrder(t: Tree, shape: Shape, top: string, id: string, j: nat, k: nat)
    requires TreeShaped(t, shape) && j < k < |Collected(t, shape, top, id)|
    ensures Before(t, shape, Collected(t, shape, top, id)[j], Collected(t, shape, top, id)[k])
    decreases Height(t, shape, id), 0
  {
    TextsFromInOrder(t, shape, top, id, 0, j, k);
  }

  lemma {:induction false} TextsFromInOrder(t: Tree, shape: Shape, top: string, id: string, i: nat, j: nat, k: nat)
    requires TreeShaped(t, shape) && id in t && !t[id].isText && i <= |t[id].children|
    requires j < k < |CollectedFrom(t, shape, top, id, i)|
    ensures var texts := CollectedFrom(t, shape, top, id, i); Before(t, shape, texts[j], texts[k])
    decreases Height(t, shape, id) - 1, 1, |t[id].children| - i
  {
    hide Collected, CollectedFrom, Reaches, Before;
    var first := CollectedSplits(t, shape, top, id, i);
    var c := t[id].children[i];
    var rest, texts := CollectedFrom(t, shape, top, id, i + 1), CollectedFrom(t, shape, top, id, i);
    if k < |first| {
      TextsInOrder(t, shape, top, c, j, k);
    } else if j >= |first| {
      TextsFromInOrder(t, shape, top, id, i + 1, j - |first|, k - |first|);
    } else {
      assert texts[j] == first[j] && texts[k] == rest[k - |first|];
      CollectedIsReached(t, shape, top, c, texts[j]);
      var l := CollectedIsUnder(t, shape, top, id, i + 1, texts[k]);
      assert Under(t, shape, id, i, texts[j]);
      BranchesBefore(t, shape, id, i, l, texts[j], texts[k]);
    }
  }

  lemma BranchesBefore(t: Tree, shape: Shape, p: string, i: int, j: int, x: string, y: string)
    requires TreeShaped(t, shape) && i < j && Under(t, shape, p, i, x) && Under(t, shape, p, j, y)
    ensures Before(t, shape, x, y)
  {
  }

  /** What the child at `i` contributes to the collected texts, which may be nothing. */
  lemma CollectedSplits(t: Tree, shape: Shape, top: string, id: string, i: nat) returns (first: seq<string>)
    requires TreeShaped(t, shape) && id in t && !t[id].isText && i <= |t[id].children|
    requires CollectedFrom(t, shape, top, id, i) != []
    ensures i < |t[id].children|
    ensures CollectedFrom(t, shape, top, id, i) == first + CollectedFrom(t, shape, top, id, i + 1)
    ensures var c := t[id].children[i];
            first != [] ==> c in t && IsParent(t, id, c) && first == Collected(t, shape, top, c)
  {
    var c := t[id].children[i];
    assert c in t ==> IsParent(t, id, c);
    first := if c in t && (t[c].isText || t[c].highlight.None? || c == top) then Collected(t, shape, top, c) else [];
    hide Collected;
  }

  /** The lines of a page stand in document order, and so do the texts inside each element's line. */
  lemma PageInOrder(t: Tree, shape: Shape, root: string)
    requires TreeShaped(t, shape)
    ensures var lines := Printed(t, shape, root, 0);
            && (forall j, k | 0 <= j < k < |lines| :: Before(t, shape, lines[j].id, lines[k].id))
            && forall line, a, b | line in lines && line.ElementLine? && 0 <= a < b < |line.texts| ::
                 Before(t, shape, line.texts[a], line.texts[b])
  {
    var lines := Printed(t, shape, root, 0);
    forall j, k | 0 <= j < k < |lines|
      ensures Before(t, shape, lines[j].id, lines[k].id)
    {
      LinesInOrder(t, shape, root, 0, j, k);
    }
    forall line, a, b | line in lines && line.ElementLine? && 0 <= a < b < |line.texts|
      ensures Before(t, shape, line.texts[a], line.texts[b])
    {
      LineTexts(t, shape, root, 0, line);
      TextsInOrder(t, shape, line.id, line.id, a, b);
    }
  }

  lemma {:induction false} LineTexts(t: Tree, shape: Shape, id: string, depth: nat, line: Line)
    requires TreeShaped(t, shape) && line in Printed(t, shape, id, depth) && line.ElementLine?
    ensures line.texts == Collected(t, shape, line.id, line.id)
    decreases Height(t, shape, id), 0
  {
    if !(t[id].highlight.Some? && line == Printed(t, shape, id, depth)[0]) {
      LineTextsFrom(t, shape, id, 0, if t[id].highlight.Some? then depth + 1 else depth, line);
    }
  }

  lemma {:induction false} LineTextsFrom(t: Tree, shape: Shape, id: string, i: nat, depth: nat, line: Line)
    requires TreeShaped(t, shape) && id in t && i <= |t[id].children|
    requires line in PrintedFrom(t, shape, id, i, depth) && line.ElementLine?
    ensures line.texts == Collected(t, shape, line.id, line.id)
    decreases Height(t, shape, id) - 1, 1, |t[id].children| - i
  {
    var c := t[id].children[i];
    assert c in t ==> IsParent(t, id, c);
    if line in Printed(t, shape, c, depth) {
      LineTexts(t, shape, c, depth, line);
    } else {
      LineTextsFrom(t, shape, id, i + 1, depth, line);
    }
  }
}
