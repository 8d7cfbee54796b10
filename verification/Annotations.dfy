/**
 Highlighting character ranges in rendered text (web/src/session/annotations/annotation-range.js).

 The text under an anchor is a list of leaves in document order. A leaf records the annotation
 marks around it, outermost first, and its slot: leaves of one slot are siblings that nothing
 but marks separates, so removing marks and normalising merges them.
 */
module Annotations {
  import opened Prelude

  type Id = string

  datatype Leaf = Leaf(text: string, slot: nat, marks: seq<Id>)

  /** One character as the reader sees it: its slot and the annotations marking it. */
  datatype Cell = Cell(c: char, slot: nat, marks: seq<Id>)

  function CellsOf(l: Leaf): (r: seq<Cell>)
    ensures |r| == |l.text|
  {
    seq(|l.text|, i requires 0 <= i < |l.text| => Cell(l.text[i], l.slot, l.marks))
  }

  /** The characters of the first `n` leaves. */
  function Flat(ls: seq<Leaf>, n: nat): seq<Cell>
    requires n <= |ls|
  {
    if n == 0 then [] else Flat(ls, n - 1) + CellsOf(ls[n - 1])
  }

  function Cells(ls: seq<Leaf>): seq<Cell> { Flat(ls, |ls|) }

  lemma {:induction false} FlatAgrees(a: seq<Leaf>, b: seq<Leaf>, n: nat)
    requires n <= |a| && n <= |b| && forall i :: 0 <= i < n ==> a[i] == b[i]
    ensures Flat(a, n) == Flat(b, n)
  {
    if n > 0 {
      FlatAgrees(a, b, n - 1);
    }
  }

  lemma RegroupCells(a: seq<Cell>, b: seq<Cell>, c: seq<Cell>)
    ensures a + (b + c) == a + b + c
  {
  }

  lemma {:induction false} FlatAppend(a: seq<Leaf>, b: seq<Leaf>, n: nat)
    requires n <= |b|
    ensures Flat(a + b, |a| + n) == Cells(a) + Flat(b, n)
  {
    if n == 0 {
      FlatAgrees(a + b, a, |a|);
      assert Cells(a) + [] == Cells(a);
    } else {
      FlatAppend(a, b, n - 1);
      assert (a + b)[|a| + (n - 1)] == b[n - 1];
      RegroupCells(Cells(a), Flat(b, n - 1), CellsOf(b[n - 1]));
    }
  }

  lemma CellsOfOne(l: Leaf)
    ensures Cells([l]) == CellsOf(l)
  {
    assert Flat([l], 1) == Flat([l], 0) + CellsOf(l);
  }

  // --- Wrapping a range --------------------------------------------------------------

  /** Whether the leaf at character `pos` meets the range; empty leaves inside it do. */
  predicate Meets(l: Leaf, pos: nat, start: int, end: int) { pos + |l.text| > start && pos < end }

  /** A leaf meets a range when one of its characters lies in it; one without characters, when it lies inside. */
  lemma MeetsIff(l: Leaf, pos: nat, start: int, end: int)
    requires start < end
    ensures Meets(l, pos, start, end) <==>
              if l.text == "" then start < pos < end else exists i {:trigger l.text[i]} :: 0 <= i < |l.text| && start <= pos + i < end
  {
    if l.text != "" && Meets(l, pos, start, end) {
      var i := Max(pos, start) - pos;
      assert l.text[i] == l.text[i..][0];
    }
  }

  /** A leaf split in three, the middle part with a new innermost mark. */
  function Surrounded(l: Leaf, from: nat, to: nat, id: Id): seq<Leaf>
    requires from <= to <= |l.text|
  {
    [l.(text := l.text[..from]), Leaf(l.text[from..to], l.slot, l.marks + [id]), l.(text := l.text[to..])]
  }

  /** A leaf split around the part of the range it holds, which gets the new mark innermost. */
  function Split(l: Leaf, pos: nat, start: int, end: int, id: Id): seq<Leaf>
    requires start < end
  {
    if !Meets(l, pos, start, end) then [l]
    else Surrounded(l, Max(start, pos) - pos, Min(end, pos + |l.text|) - pos, id)
  }

  /** The first `n` leaves with the range wrapped. */
  function Wrapped(ls: seq<Leaf>, n: nat, start: int, end: int, id: Id): seq<Leaf>
    requires n <= |ls| && start < end
  {
    if n == 0 then [] else Wrapped(ls, n - 1, start, end, id) + Split(ls[n - 1], |Flat(ls, n - 1)|, start, end, id)
  }

  /** What wrapping a range means for the characters: those in [start, end) gain the mark. */
  function Marked(cs: seq<Cell>, start: int, end: int, id: Id): (r: seq<Cell>)
    ensures |r| == |cs|
    ensures forall k :: 0 <= k < |cs| ==> r[k] == if start <= k < end then cs[k].(marks := cs[k].marks + [id]) else cs[k]
  {
    seq(|cs|, k requires 0 <= k < |cs| => if start <= k < end then cs[k].(marks := cs[k].marks + [id]) else cs[k])
  }

  lemma CellsOfThree(a: Leaf, b: Leaf, c: Leaf)
    ensures Cells([a, b, c]) == CellsOf(a) + CellsOf(b) + CellsOf(c)
  {
    CellsOfOne(a);
    CellsOfOne(b);
    CellsOfOne(c);
    FlatAppend([a], [b], 1);
    assert [a] + [b] == [a, b];
    FlatAppend([a, b], [c], 1);
    assert [a, b] + [c] == [a, b, c];
  }

  lemma SurroundedMarks(l: Leaf, from: nat, to: nat, id: Id)
    requires from <= to <= |l.text|
    ensures Cells(Surrounded(l, from, to, id)) == Marked(CellsOf(l), from, to, id)
  {
    var a, b, c := l.(text := l.text[..from]), Leaf(l.text[from..to], l.slot, l.marks + [id]), l.(text := l.text[to..]);
    CellsOfThree(a, b, c);
    assert CellsOf(a) == Marked(CellsOf(l), from, to, id)[..from];
    assert CellsOf(b) == Marked(CellsOf(l), from, to, id)[from..to];
    assert CellsOf(c) == Marked(CellsOf(l), from, to, id)[to..];
  }

  lemma CellsOfSplit(l: Leaf, pos: nat, start: int, end: int, id: Id)
    requires start < end
    ensures Cells(Split(l, pos, start, end, id)) == Marked(CellsOf(l), start - pos, end - pos, id)
  {
    if Meets(l, pos, start, end) {
      SurroundedMarks(l, Max(start, pos) - pos, Min(end, pos + |l.text|) - pos, id);
    } else {
      CellsOfOne(l);
    }
  }

  lemma MarkedAppend(a: seq<Cell>, b: seq<Cell>, start: int, end: int, id: Id)
    ensures Marked(a, start, end, id) + Marked(b, start - |a|, end - |a|, id) == Marked(a + b, start, end, id)
  {
  }

  lemma CellsAppend(a: seq<Leaf>, b: seq<Leaf>)
    ensures Cells(a + b) == Cells(a) + Cells(b)
  {
    FlatAppend(a, b, |b|);
  }

  /** Wrapping marks exactly the characters of the range, however earlier annotations split the
      text, and changes nothing else about it. */
  lemma {:induction false} WrappingMarksTheRange(ls: seq<Leaf>, n: nat, start: int, end: int, id: Id)
    requires n <= |ls| && start < end
    ensures Cells(Wrapped(ls, n, start, end, id)) == Marked(Flat(ls, n), start, end, id)
  {
    if n > 0 {
      var pos := |Flat(ls, n - 1)|;
      WrappingMarksTheRange(ls, n - 1, start, end, id);
      CellsAppend(Wrapped(ls, n - 1, start, end, id), Split(ls[n - 1], pos, start, end, id));
      CellsOfSplit(ls[n - 1], pos, start, end, id);
      MarkedAppend(Flat(ls, n - 1), CellsOf(ls[n - 1]), start, end, id);
    }
  }

  datatype Target = Target(leaf: nat, from: nat, to: nat)

  /** The part of a leaf at character `pos` that lies inside the range. */
  function Part(n: nat, l: Leaf, pos: nat, start: int, end: int): (t: Target)
    requires start < end && Meets(l, pos, start, end)
    ensures t.leaf == n && t.from <= t.to <= |l.text|
  {
    Target(n, Max(start, pos) - pos, Min(end, pos + |l.text|) - pos)
  }

  function TargetAt(ls: seq<Leaf>, n: nat, start: int, end: int): Target
    requires n < |ls| && start < end && Meets(ls[n], |Flat(ls, n)|, start, end)
  {
    Part(n, ls[n], |Flat(ls, n)|, start, end)
  }

  /** The first `n` leaves the range meets, with the part of each that lies inside. */
  function Targets(ls: seq<Leaf>, n: nat, start: int, end: int): seq<Target>
    requires n <= |ls| && start < end
  {
    if n == 0 then []
    else if Meets(ls[n - 1], |Flat(ls, n - 1)|, start, end) then
      Targets(ls, n - 1, start, end) + [TargetAt(ls, n - 1, start, end)]
    else Targets(ls, n - 1, start, end)
  }

  method CollectTargets(ls: seq<Leaf>, start: int, end: int) returns (targets: seq<Target>)
    requires start < end
    ensures targets == Targets(ls, |ls|, start, end)
  {
    targets := [];
    var pos := 0;
    for n := 0 to |ls|
      invariant pos == |Flat(ls, n)| && targets == Targets(ls, n, start, end)
    {
      var nodeStart, nodeEnd := pos, pos + |ls[n].text|;
      pos := nodeEnd;
      if nodeEnd > start && nodeStart < end {
        targets := targets + [Target(n, Max(start, nodeStart) - nodeStart, Min(end, nodeEnd) - nodeStart)];
      }
    }
  }

  /** The leaves from `m` on with the range wrapped. */
  function WrappedFrom(ls: seq<Leaf>, m: nat, start: int, end: int, id: Id): seq<Leaf>
    requires m <= |ls| && start < end
    decreases |ls| - m
  {
    if m == |ls| then []
    else Split(ls[m], |Flat(ls, m)|, start, end, id) + WrappedFrom(ls, m + 1, start, end, id)
  }

  /** The first `n` leaves as they are, the rest with the range wrapped. */
  function Mixed(ls: seq<Leaf>, n: nat, start: int, end: int, id: Id): seq<Leaf>
    requires n <= |ls| && start < end
  {
    ls[..n] + WrappedFrom(ls, n, start, end, id)
  }

  lemma Regroup(a: seq<Leaf>, b: seq<Leaf>, c: seq<Leaf>)
    ensures a + (b + c) == a + b + c
  {
  }

  lemma {:induction false} WrappedMeetsInTheMiddle(ls: seq<Leaf>, m: nat, start: int, end: int, id: Id)
    requires m <= |ls| && start < end
    ensures Wrapped(ls, m, start, end, id) + WrappedFrom(ls, m, start, end, id) == Wrapped(ls, |ls|, start, end, id)
    decreases |ls| - m
  {
    var before := Wrapped(ls, m, start, end, id);
    if m < |ls| {
      WrappedMeetsInTheMiddle(ls, m + 1, start, end, id);
      Regroup(before, Split(ls[m], |Flat(ls, m)|, start, end, id), WrappedFrom(ls, m + 1, start, end, id));
    } else {
      assert before + [] == before;
    }
  }

  lemma UnsplitLeaf(ls: seq<Leaf>, n: nat, start: int, end: int, id: Id)
    requires 0 < n <= |ls| && start < end && !Meets(ls[n - 1], |Flat(ls, n - 1)|, start, end)
    ensures Mixed(ls, n - 1, start, end, id) == Mixed(ls, n, start, end, id)
  {
    var rest := WrappedFrom(ls, n, start, end, id);
    assert WrappedFrom(ls, n - 1, start, end, id) == [ls[n - 1]] + rest;
    assert ls[..n] == ls[..n - 1] + [ls[n - 1]];
    assert ls[..n - 1] + ([ls[n - 1]] + rest) == ls[..n - 1] + [ls[n - 1]] + rest;
  }

  /** Between the last target and `n` no leaf is split. */
  lemma {:induction false} LastTarget(ls: seq<Leaf>, n: nat, start: int, end: int, id: Id) returns (j: nat)
    requires n <= |ls| && start < end && Targets(ls, n, start, end) != []
    ensures j < n && Meets(ls[j], |Flat(ls, j)|, start, end)
    ensures Targets(ls, n, start, end) == Targets(ls, j, start, end) + [TargetAt(ls, j, start, end)]
    ensures Mixed(ls, j + 1, start, end, id) == Mixed(ls, n, start, end, id)
  {
    if Meets(ls[n - 1], |Flat(ls, n - 1)|, start, end) {
      j := n - 1;
      assert Targets(ls, n, start, end) == Targets(ls, j, start, end) + [TargetAt(ls, j, start, end)];
    } else {
      assert Targets(ls, n, start, end) == Targets(ls, n - 1, start, end);
      j := LastTarget(ls, n - 1, start, end, id);
      UnsplitLeaf(ls, n, start, end, id);
    }
  }

  lemma {:induction false} NoTarget(ls: seq<Leaf>, n: nat, start: int, end: int, id: Id)
    requires n <= |ls| && start < end && Targets(ls, n, start, end) == []
    ensures Mixed(ls, n, start, end, id) == Wrapped(ls, |ls|, start, end, id)
  {
    if n > 0 {
      NoTarget(ls, n - 1, start, end, id);
      UnsplitLeaf(ls, n, start, end, id);
    } else {
      WrappedMeetsInTheMiddle(ls, 0, start, end, id);
      assert ls[..0] == [];
    }
  }

  /** Splitting the last leaf not yet wrapped wraps one leaf more. */
  lemma SplitInPlace(ls: seq<Leaf>, j: nat, start: int, end: int, id: Id, r: seq<Leaf>)
    requires j < |ls| && start < end && r == Mixed(ls, j + 1, start, end, id)
    ensures j < |r| && r[j] == ls[j]
    ensures r[..j] + Split(ls[j], |Flat(ls, j)|, start, end, id) + r[j + 1..] == Mixed(ls, j, start, end, id)
  {
    var rest, parts := WrappedFrom(ls, j + 1, start, end, id), Split(ls[j], |Flat(ls, j)|, start, end, id);
    assert |ls[..j + 1]| == j + 1;
    assert r[..j] == ls[..j] && r[j] == ls[..j + 1][j] && r[j + 1..] == rest;
    assert WrappedFrom(ls, j, start, end, id) == parts + rest;
    assert ls[..j] + (parts + rest) == ls[..j] + parts + rest;
  }

  lemma PartSplits(n: nat, l: Leaf, pos: nat, start: int, end: int, id: Id)
    requires start < end && Meets(l, pos, start, end)
    ensures var t := Part(n, l, pos, start, end);
            Split(l, pos, start, end, id) == Surrounded(l, t.from, t.to, id)
  {
  }

  method SurroundContents(ls: seq<Leaf>, t: Target, id: Id) returns (r: seq<Leaf>)
    requires t.leaf < |ls| && t.from <= t.to <= |ls[t.leaf].text|
    ensures r == ls[..t.leaf] + Surrounded(ls[t.leaf], t.from, t.to, id) + ls[t.leaf + 1..]
  {
    var l := ls[t.leaf];
    var before, inside, after := l.text[..t.from], l.text[t.from..t.to], l.text[t.to..];
    r := ls[..t.leaf] + [l.(text := before), Leaf(inside, l.slot, l.marks + [id]), l.(text := after)] + ls[t.leaf + 1..];
  }

  /** The last of the first `i + 1` targets, and the leaves before it. */
  lemma TakeTarget(ls: seq<Leaf>, targets: seq<Target>, i: nat, n: nat, start: int, end: int, id: Id) returns (j: nat)
    requires n <= |ls| && start < end && i < |targets| && targets[..i + 1] == Targets(ls, n, start, end)
    ensures j < n && Meets(ls[j], |Flat(ls, j)|, start, end) && targets[i] == TargetAt(ls, j, start, end)
    ensures targets[..i] == Targets(ls, j, start, end)
    ensures Mixed(ls, j + 1, start, end, id) == Mixed(ls, n, start, end, id)
  {
    j := LastTarget(ls, n, start, end, id);
    assert targets[..i + 1] == targets[..i] + [targets[i]];
  }

  /** wrapRange: targets are wrapped last to first, so splitting never moves an earlier one. */
  method WrapRange(ls: seq<Leaf>, start: int, end: int, id: Id) returns (r: seq<Leaf>, any: bool)
    ensures r == if start < end then Wrapped(ls, |ls|, start, end, id) else ls
    ensures any <==> start < end && Targets(ls, |ls|, start, end) != []
  {
    if end <= start {
      return ls, false;
    }
    var targets := CollectTargets(ls, start, end);
    r := ls;
    var i: nat := |targets|;
    ghost var n: nat := |ls|;
    assert ls[..n] == ls && ls + [] == ls && targets[..i] == targets;
    while i > 0
      invariant i <= |targets| && n <= |ls| && targets[..i] == Targets(ls, n, start, end)
      invariant r == Mixed(ls, n, start, end, id)
    {
      i := i - 1;
      n := TakeTarget(ls, targets, i, n, start, end, id);
      SplitInPlace(ls, n, start, end, id, r);
      PartSplits(n, ls[n], |Flat(ls, n)|, start, end, id);
      r := SurroundContents(r, targets[i], id);
    }
    NoTarget(ls, n, start, end, id);
    any := |targets| > 0;
  }

  // --- Many annotations ----------------------------------------------------------

  datatype Annotation = Annotation(id: Id, anchorId: string, startOffset: int, endOffset: int)

  predicate Covers(a: Annotation, k: int) { a.startOffset <= k < a.endOffset }

  /** The ids of the first `n` annotations of an anchor that cover character `k`, in order. */
  function Covering(anns: seq<Annotation>, n: nat, anchor: string, k: int): seq<Id>
    requires n <= |anns|
  {
    if n == 0 then []
    else
      var before := Covering(anns, n - 1, anchor, k);
      if anns[n - 1].anchorId == anchor && Covers(anns[n - 1], k) then before + [anns[n - 1].id] else before
  }

  /** What one annotation does to the leaves of an anchor. */
  function Highlight(ls: seq<Leaf>, a: Annotation, anchor: string): seq<Leaf>
  {
    if a.anchorId == anchor && a.startOffset < a.endOffset then Wrapped(ls, |ls|, a.startOffset, a.endOffset, a.id)
    else ls
  }

  /** The leaves of an anchor after the first `n` annotations. */
  function Highlighted(ls: seq<Leaf>, anns: seq<Annotation>, n: nat, anchor: string): seq<Leaf>
    requires n <= |anns|
  {
    if n == 0 then ls else Highlight(Highlighted(ls, anns, n - 1, anchor), anns[n - 1], anchor)
  }

  lemma HighlightIsExact(ls: seq<Leaf>, a: Annotation, anchor: string, k: nat)
    requires k < |Cells(ls)|
    ensures var cs, c := Cells(Highlight(ls, a, anchor)), Cells(ls)[k];
            && |cs| == |Cells(ls)|
            && cs[k] == if a.anchorId == anchor && Covers(a, k) then c.(marks := c.marks + [a.id]) else c
  {
    if a.startOffset < a.endOffset {
      WrappingMarksTheRange(ls, |ls|, a.startOffset, a.endOffset, a.id);
    }
  }

  /** However annotations overlap, each character ends up with exactly the annotations that cover
      it, in the order they were applied, and the text itself is untouched. */
  lemma {:induction false} HighlightsAreExact(ls: seq<Leaf>, anns: seq<Annotation>, n: nat, anchor: string, k: nat)
    requires n <= |anns| && k < |Cells(ls)|
    ensures var cs, c := Cells(Highlighted(ls, anns, n, anchor)), Cells(ls)[k];
            && |cs| == |Cells(ls)|
            && cs[k] == c.(marks := c.marks + Covering(anns, n, anchor, k))
  {
    if n > 0 {
      HighlightsAreExact(ls, anns, n - 1, anchor, k);
      HighlightIsExact(Highlighted(ls, anns, n - 1, anchor), anns[n - 1], anchor, k);
    }
  }

  lemma {:induction false} HighlightsKeepLength(ls: seq<Leaf>, anns: seq<Annotation>, n: nat, anchor: string)
    requires n <= |anns|
    ensures |Cells(Highlighted(ls, anns, n, anchor))| == |Cells(ls)|
  {
    if n > 0 {
      HighlightsKeepLength(ls, anns, n - 1, anchor);
      var prev, a := Highlighted(ls, anns, n - 1, anchor), anns[n - 1];
      if a.startOffset < a.endOffset {
        WrappingMarksTheRange(prev, |prev|, a.startOffset, a.endOffset, a.id);
      }
    }
  }

  // --- Unwrapping ----------------------------------------------------------------

  /** Adds a run of plain text to a normalised list: merged into a last leaf of the same slot,
      left out when empty. */
  function Merged(ls: seq<Leaf>, text: string, slot: nat): seq<Leaf>
  {
    if text == "" then ls
    else if ls != [] && ls[|ls| - 1].slot == slot then ls[..|ls| - 1] + [Leaf(ls[|ls| - 1].text + text, slot, [])]
    else ls + [Leaf(text, slot, [])]
  }

  /** The plain text of the first `n` leaves, marks removed and siblings merged. */
  function Unwrapped(ls: seq<Leaf>, n: nat): seq<Leaf>
    requires n <= |ls|
  {
    if n == 0 then [] else Merged(Unwrapped(ls, n - 1), ls[n - 1].text, ls[n - 1].slot)
  }

  method UnwrapAll(ls: seq<Leaf>) returns (r: seq<Leaf>)
    ensures r == Unwrapped(ls, |ls|)
  {
    r := [];
    for n := 0 to |ls|
      invariant r == Unwrapped(ls, n)
    {
      var l := ls[n];
      if l.text != "" {
        if |r| > 0 && r[|r| - 1].slot == l.slot {
          r := r[..|r| - 1] + [Leaf(r[|r| - 1].text + l.text, l.slot, [])];
        } else {
          r := r + [Leaf(l.text, l.slot, [])];
        }
      }
    }
  }

  /** The plain leaves the first `n` characters make, one character at a time. */
  function Regrouped(cs: seq<Cell>, n: nat): seq<Leaf>
    requires n <= |cs|
  {
    if n == 0 then [] else Merged(Regrouped(cs, n - 1), [cs[n - 1].c], cs[n - 1].slot)
  }

  lemma {:induction false} RegroupedAgrees(a: seq<Cell>, b: seq<Cell>, n: nat)
    requires n <= |a| && n <= |b| && forall i :: 0 <= i < n ==> a[i].c == b[i].c && a[i].slot == b[i].slot
    ensures Regrouped(a, n) == Regrouped(b, n)
  {
    if n > 0 {
      RegroupedAgrees(a, b, n - 1);
    }
  }

  lemma MergedTwice(ls: seq<Leaf>, a: string, b: string, slot: nat)
    ensures Merged(Merged(ls, a, slot), b, slot) == Merged(ls, a + b, slot)
  {
    if a == "" {
      assert a + b == b;
    } else if b == "" {
      assert a + b == a;
    } else if ls != [] && ls[|ls| - 1].slot == slot {
      assert ls[|ls| - 1].text + a + b == ls[|ls| - 1].text + (a + b);
    }
  }

  lemma MergedStep(r: seq<Leaf>, text: string, n: nat, slot: nat)
    requires n < |text|
    ensures Merged(Merged(r, text[..n], slot), [text[n]], slot) == Merged(r, text[..n + 1], slot)
  {
    assert text[..n + 1] == text[..n] + [text[n]];
    MergedTwice(r, text[..n], [text[n]], slot);
  }

  /** The characters from `at` on are those of one leaf. */
  predicate LeafAt(cs: seq<Cell>, at: nat, l: Leaf)
  {
    && at + |l.text| <= |cs|
    && forall i {:trigger l.text[i]} :: 0 <= i < |l.text| ==> cs[at + i].c == l.text[i] && cs[at + i].slot == l.slot
  }

  lemma {:induction false} RegroupedLeaf(cs: seq<Cell>, at: nat, l: Leaf, n: nat, r: seq<Leaf>)
    requires n <= |l.text| && LeafAt(cs, at, l) && r == Regrouped(cs, at)
    ensures Regrouped(cs, at + n) == Merged(r, l.text[..n], l.slot)
  {
    if n > 0 {
      RegroupedLeaf(cs, at, l, n - 1, r);
      var c := l.text[n - 1];
      assert cs[at + (n - 1)].c == c;
      MergedStep(r, l.text, n - 1, l.slot);
    }
  }

  lemma RegroupedWhole(cs: seq<Cell>, at: nat, l: Leaf, r: seq<Leaf>, end: nat)
    requires LeafAt(cs, at, l) && r == Regrouped(cs, at) && end == at + |l.text|
    ensures Regrouped(cs, end) == Merged(r, l.text, l.slot)
  {
    var text := l.text[..|l.text|];
    assert text == l.text;
    RegroupedLeaf(cs, at, l, |l.text|, r);
  }

  /** What unwrapping leaves depends only on the characters and their slots, not on how marks
      had split them. */
  lemma {:induction false} UnwrappedIsRegrouped(ls: seq<Leaf>, n: nat, cs: seq<Cell>)
    requires n <= |ls| && Flat(ls, n) <= cs
    ensures Unwrapped(ls, n) == Regrouped(cs, |Flat(ls, n)|)
  {
    if n > 0 {
      var l, at := ls[n - 1], |Flat(ls, n - 1)|;
      FlatSnoc(ls, n, cs);
      UnwrappedIsRegrouped(ls, n - 1, cs);
      var r := Unwrapped(ls, n - 1);
      assert r == Regrouped(cs, at);
      var end := |Flat(ls, n)|;
      assert end == at + |l.text|;
      RegroupedWhole(cs, at, l, r, end);
      assert Unwrapped(ls, n) == Merged(r, l.text, l.slot);
    }
  }

  lemma FlatSnoc(ls: seq<Leaf>, n: nat, cs: seq<Cell>)
    requires 0 < n <= |ls| && Flat(ls, n) <= cs
    ensures Flat(ls, n - 1) <= cs && LeafAt(cs, |Flat(ls, n - 1)|, ls[n - 1])
    ensures |Flat(ls, n)| == |Flat(ls, n - 1)| + |ls[n - 1].text|
  {
    var l, at := ls[n - 1], |Flat(ls, n - 1)|;
    forall i | 0 <= i < |l.text|
      ensures cs[at + i].c == l.text[i] && cs[at + i].slot == l.slot
    {
      assert cs[at + i] == Flat(ls, n)[at + i] == CellsOf(l)[i];
    }
  }

  /** Any highlighting is undone: unwrapping leaves what unwrapping the unhighlighted text leaves. */
  lemma {:induction false} UnwrappingRestores(ls: seq<Leaf>, anns: seq<Annotation>, n: nat, anchor: string)
    requires n <= |anns|
    ensures var h := Highlighted(ls, anns, n, anchor);
            Unwrapped(h, |h|) == Unwrapped(ls, |ls|)
  {
    var h := Highlighted(ls, anns, n, anchor);
    HighlightsKeepLength(ls, anns, n, anchor);
    forall k | 0 <= k < |Cells(ls)|
      ensures Cells(h)[k].c == Cells(ls)[k].c && Cells(h)[k].slot == Cells(ls)[k].slot
    {
      HighlightsAreExact(ls, anns, n, anchor, k);
    }
    UnwrappedIsRegrouped(h, |h|, Cells(h));
    UnwrappedIsRegrouped(ls, |ls|, Cells(ls));
    RegroupedAgrees(Cells(h), Cells(ls), |Cells(ls)|);
  }

  predicate Unmarked(ls: seq<Leaf>) { forall i :: 0 <= i < |ls| ==> ls[i].marks == [] }

  function Plain(cs: seq<Cell>): (r: seq<Cell>)
    ensures |r| == |cs|
  {
    seq(|cs|, k requires 0 <= k < |cs| => cs[k].(marks := []))
  }

  /** Unwrapping keeps every character in its slot and leaves no mark. */
  lemma {:induction false} UnwrappedIsPlain(ls: seq<Leaf>, n: nat)
    requires n <= |ls|
    ensures Unmarked(Unwrapped(ls, n)) && Cells(Unwrapped(ls, n)) == Plain(Flat(ls, n))
  {
    if n > 0 {
      UnwrappedIsPlain(ls, n - 1);
      MergedCells(Unwrapped(ls, n - 1), ls[n - 1].text, ls[n - 1].slot);
      PlainAppend(Flat(ls, n - 1), ls[n - 1]);
    }
  }

  lemma PlainAppend(cs: seq<Cell>, l: Leaf)
    ensures Plain(cs + CellsOf(l)) == Plain(cs) + CellsOf(Leaf(l.text, l.slot, []))
  {
  }

  lemma MergedCells(ls: seq<Leaf>, text: string, slot: nat)
    requires Unmarked(ls)
    ensures Unmarked(Merged(ls, text, slot))
    ensures Cells(Merged(ls, text, slot)) == Cells(ls) + CellsOf(Leaf(text, slot, []))
  {
    var m := Merged(ls, text, slot);
    if text == "" {
      assert CellsOf(Leaf(text, slot, [])) == [];
    } else if ls != [] && ls[|ls| - 1].slot == slot {
      var last := ls[|ls| - 1];
      FlatAgrees(m, ls, |ls| - 1);
      assert CellsOf(Leaf(last.text + text, slot, [])) == CellsOf(last) + CellsOf(Leaf(text, slot, []));
    } else {
      FlatAgrees(m, ls, |ls|);
    }
  }

  // --- A container -----------------------------------------------------------------

  /** applyHighlights on one anchor: clear what is there, then wrap every annotation of it. */
  function Applied(ls: seq<Leaf>, anns: seq<Annotation>, anchor: string): seq<Leaf>
  {
    Highlighted(Unwrapped(ls, |ls|), anns, |anns|, anchor)
  }

  /** Re-applying after any earlier highlighting gives the same result as applying afresh. */
  lemma {:induction false} ReapplyingIsIdempotent(ls: seq<Leaf>, anns: seq<Annotation>, earlier: seq<Annotation>, anchor: string)
    ensures Applied(Highlighted(ls, earlier, |earlier|, anchor), anns, anchor) == Applied(ls, anns, anchor)
    ensures Applied(Applied(ls, anns, anchor), anns, anchor) == Applied(ls, anns, anchor)
  {
    UnwrappingRestores(ls, earlier, |earlier|, anchor);
    var plain := Unwrapped(ls, |ls|);
    UnwrappingRestores(plain, anns, |anns|, anchor);
    UnwrappingTwice(ls);
  }

  lemma UnwrappingTwice(ls: seq<Leaf>)
    ensures var plain := Unwrapped(ls, |ls|);
            Unwrapped(plain, |plain|) == plain
  {
    var plain := Unwrapped(ls, |ls|);
    UnwrappedIsPlain(ls, |ls|);
    UnwrappedIsRegrouped(ls, |ls|, Cells(ls));
    UnwrappedIsRegrouped(plain, |plain|, Cells(plain));
    RegroupedAgrees(Cells(plain), Cells(ls), |Cells(ls)|);
  }

  /** The anchors of a container and the text under each. */
  class Container {
    var anchors: map<string, seq<Leaf>>

    constructor (anchors: map<string, seq<Leaf>>)
      ensures this.anchors == anchors
    {
      this.anchors := anchors;
    }

    method UnwrapMarks()
      modifies this
      ensures anchors == map a | a in old(anchors) :: Unwrapped(old(anchors)[a], |old(anchors)[a]|)
    {
      var todo := anchors.Keys;
      while todo != {}
        invariant todo <= anchors.Keys == old(anchors).Keys
        invariant forall a :: a in anchors ==>
          anchors[a] == if a in todo then old(anchors)[a] else Unwrapped(old(anchors)[a], |old(anchors)[a]|)
        decreases |todo|
      {
        var a :| a in todo;
        var plain := UnwrapAll(anchors[a]);
        anchors := anchors[a := plain];
        todo := todo - {a};
      }
    }

    method HighlightOne(a: Annotation)
      modifies this
      ensures anchors.Keys == old(anchors).Keys
      ensures forall k :: k in anchors ==> anchors[k] == Highlight(old(anchors)[k], a, k)
    {
      if a.anchorId in anchors {
        var ls, any := WrapRange(anchors[a.anchorId], a.startOffset, a.endOffset, a.id);
        anchors := anchors[a.anchorId := ls];
      }
    }

    /** Annotations of anchors that are not there are skipped. */
    method ApplyHighlights(anns: seq<Annotation>)
      modifies this
      ensures anchors.Keys == old(anchors).Keys
      ensures forall k :: k in anchors ==> anchors[k] == Applied(old(anchors)[k], anns, k)
    {
      UnwrapMarks();
      ghost var plain := anchors;
      for n := 0 to |anns|
        invariant anchors.Keys == plain.Keys
        invariant forall k :: k in anchors ==> HighlightedTo(anchors[k], plain[k], anns, n, k)
      {
        ghost var before := anchors;
        HighlightOne(anns[n]);
        forall k | k in anchors
          ensures HighlightedTo(anchors[k], plain[k], anns, n + 1, k)
        {
          assert HighlightedTo(before[k], plain[k], anns, n, k);
        }
      }
    }
  }

  predicate HighlightedTo(now: seq<Leaf>, plain: seq<Leaf>, anns: seq<Annotation>, n: nat, anchor: string)
    requires n <= |anns|
  {
    now == Highlighted(plain, anns, n, anchor)
  }
}
