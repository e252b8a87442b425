/** pkg/conn/cluster.go: the gossip cluster of a node, found by bisecting the sorted node list.
    Node names are the integers that order as they do. */
module Clusters {
  import opened Sorting

  predicate Ascending(s: seq<int>) {
    forall i, j :: 0 <= i < j < |s| ==> s[i] <= s[j]
  }

  predicate Strictly(s: seq<int>) {
    forall i, j :: 0 <= i < j < |s| ==> s[i] < s[j]
  }

  function Name(x: int): int {
    x
  }

  function SortedOf(s: seq<int>): seq<int> {
    if s == [] then [] else Insert(SortedOf(s[..|s| - 1]), s[|s| - 1], Name)
  }

  lemma InsertAscends(s: seq<int>, x: int)
    requires Ascending(s)
    ensures Ascending(Insert(s, x, Name)) && |Insert(s, x, Name)| == |s| + 1
  {}

  lemma {:induction false} Sorts(s: seq<int>)
    ensures Ascending(SortedOf(s)) && multiset(SortedOf(s)) == multiset(s) && |SortedOf(s)| == |s|
  {
    if s != [] {
      var init, last := s[..|s| - 1], s[|s| - 1];
      assert s == init + [last];
      Sorts(init);
      hide Insert, Ascending;
      InsertAscends(SortedOf(init), last);
      InsertHolds(SortedOf(init), last, Name);
    }
  }

  lemma {:induction false} SortedStays(s: seq<int>)
    requires Ascending(s)
    ensures SortedOf(s) == s
  {
    if s != [] {
      SortedStays(s[..|s| - 1]);
    }
  }

  method Sort(global: array<int>)
    modifies global
    ensures global[..] == SortedOf(old(global[..]))
  {
    var s := SortedOf(global[..]);
    Sorts(global[..]);
    forall i | 0 <= i < global.Length {
      global[i] := s[i];
    }
  }

  /** Where a search ends: the bounds left over, and whether it stopped on the id itself. */
  datatype Cell = Cell(lower: int, higher: int, hit: bool)

  function Bisect(s: seq<int>, selfId: int, groupSize: nat, lower: int, higher: int): Cell
    requires 0 < groupSize && 0 <= lower && higher < |s|
    decreases higher + 1 - lower
  {
    if higher + 1 - lower <= groupSize then Cell(lower, higher, false) else
      var mid := (lower + higher) / 2;
      if s[mid] < selfId then Bisect(s, selfId, groupSize, mid + 1, higher)
      else if s[mid] > selfId then Bisect(s, selfId, groupSize, lower, mid - 1)
      else Cell(lower, higher, true)
  }

  function CellOf(s: seq<int>, selfId: int, groupSize: nat): Cell
    requires 0 < groupSize
  {
    Bisect(s, selfId, groupSize, 0, |s| - 1)
  }

  /** What is known of the bounds at every step. */
  predicate Brackets(s: seq<int>, selfId: int, lower: int, higher: int) {
    && 0 <= lower <= higher + 1 <= |s|
    && (s != [] ==> lower < |s|)
    && (forall i :: 0 <= i < lower ==> s[i] < selfId)
    && (forall i :: higher < i < |s| ==> selfId < s[i])
  }

  lemma Narrow(s: seq<int>, selfId: int, lower: int, higher: int)
    requires Ascending(s) && Brackets(s, selfId, lower, higher) && lower < higher
    ensures
      var mid := (lower + higher) / 2;
      && lower <= mid < higher
      && (s[mid] < selfId ==> Brackets(s, selfId, mid + 1, higher))
      && (s[mid] > selfId ==> Brackets(s, selfId, lower, mid - 1))
  {}

  /** The search keeps its bracket, and leaves at most a group of names unless it stopped on the id, which
      then is the middle of what is left. */
  lemma {:induction false} BisectBrackets(s: seq<int>, selfId: int, groupSize: nat, lower: int, higher: int)
    requires 0 < groupSize && Ascending(s) && 0 <= lower <= higher + 1 <= |s| && Brackets(s, selfId, lower, higher)
    ensures
      var c := Bisect(s, selfId, groupSize, lower, higher);
      && 0 <= c.lower <= c.higher + 1 <= |s| && Brackets(s, selfId, c.lower, c.higher) && lower <= c.lower && c.higher <= higher
      && (c.hit <==> groupSize < c.higher + 1 - c.lower)
      && (c.hit ==> s[(c.lower + c.higher) / 2] == selfId)
    decreases higher + 1 - lower
  {
    hide Ascending, Brackets;
    if groupSize < higher + 1 - lower {
      Narrow(s, selfId, lower, higher);
      var mid := (lower + higher) / 2;
      if s[mid] < selfId {
        BisectBrackets(s, selfId, groupSize, mid + 1, higher);
      } else if s[mid] > selfId {
        BisectBrackets(s, selfId, groupSize, lower, mid - 1);
      }
    }
  }

  function RunEnd(s: seq<int>, lower: int, groupSize: nat): int {
    if lower + groupSize <= |s| then lower + groupSize else |s|
  }

  /** The chosen run is a non-empty part of the list of at most a group's size, and a name of the list that
      is sought lies in it, every time it occurs, unless the search stopped on that name; then the middle
      lies in the run exactly when the group reaches that far. */
  lemma RunHolds(s: seq<int>, selfId: int, groupSize: nat)
    requires 0 < groupSize && Ascending(s)
    ensures
      var c := CellOf(s, selfId, groupSize);
      var end := RunEnd(s, c.lower, groupSize);
      && 0 <= c.lower <= end <= |s| && end - c.lower <= groupSize && (s != [] ==> c.lower < end)
      && (!c.hit ==> forall i :: 0 <= i < |s| && s[i] == selfId ==> c.lower <= i < end)
      && (c.hit ==> 0 <= c.lower <= c.higher < |s| && s[(c.lower + c.higher) / 2] == selfId)
      && (c.hit ==> ((c.lower + c.higher) / 2 < end <==> (c.higher - c.lower) / 2 < groupSize))
  {
    BisectBrackets(s, selfId, groupSize, 0, |s| - 1);
  }

  /** Among distinct names, the name at i lies in its own run exactly when the search did not stop on it or
      the group reaches from the left bound to the middle. */
  lemma OwnRunOrHit(s: seq<int>, groupSize: nat, i: nat)
    requires 0 < groupSize && Strictly(s) && i < |s|
    ensures
      var c := CellOf(s, s[i], groupSize);
      c.lower <= i < RunEnd(s, c.lower, groupSize) <==> !c.hit || (c.higher - c.lower) / 2 < groupSize
  {
    hide CellOf;
    RunHolds(s, s[i], groupSize);
  }

  /** Every listed name lies in its own run exactly when the list is no longer than two groups. */
  lemma OwnRunIff(s: seq<int>, groupSize: nat)
    requires 0 < groupSize && Strictly(s)
    ensures (forall i :: 0 <= i < |s| ==> var c := CellOf(s, s[i], groupSize); c.lower <= i < RunEnd(s, c.lower, groupSize))
      <==> |s| <= 2 * groupSize
  {
    forall i: nat | i < |s| && |s| <= 2 * groupSize
      ensures var c := CellOf(s, s[i], groupSize); c.lower <= i < RunEnd(s, c.lower, groupSize)
    {
      hide RunEnd;
      OwnRunOrHit(s, groupSize, i);
      BisectBrackets(s, s[i], groupSize, 0, |s| - 1);
    }
    if 2 * groupSize < |s| {
      var mid := (|s| - 1) / 2;
      assert CellOf(s, s[mid], groupSize) == Cell(0, |s| - 1, true);
      assert !(mid < RunEnd(s, 0, groupSize));
    }
  }

  /** Stopped on early, a name misses its own run: among four names in groups of one, the second is given
      the first. */
  lemma StopsOutside()
    ensures
      var c := CellOf([10, 20, 30, 40], 20, 1);
      c.hit && c.lower == 0 && RunEnd([10, 20, 30, 40], c.lower, 1) == 1
  {
    var s := [10, 20, 30, 40];
    assert s[(0 + 3) / 2] == 20;
  }

  /** Clusters agree: a name left over by one search makes the same search, and is never stopped on. */
  lemma {:induction false} SameCell(s: seq<int>, selfId: int, groupSize: nat, lower: int, higher: int, i: int)
    requires 0 < groupSize && Strictly(s) && 0 <= lower && higher < |s|
    requires
      var c := Bisect(s, selfId, groupSize, lower, higher);
      !c.hit && c.lower <= i <= c.higher
    ensures
      var c := Bisect(s, selfId, groupSize, lower, higher);
      lower <= i <= higher && Bisect(s, s[i], groupSize, lower, higher) == c
    decreases higher + 1 - lower
  {
    if groupSize < higher + 1 - lower {
      var mid := (lower + higher) / 2;
      if s[mid] < selfId {
        SameCell(s, selfId, groupSize, mid + 1, higher, i);
      } else if s[mid] > selfId {
        SameCell(s, selfId, groupSize, lower, mid - 1, i);
      }
    }
  }

  /** So two searches that leave a common name left over found the same cell. */
  lemma CellsPartition(s: seq<int>, a: int, b: int, groupSize: nat, i: int)
    requires 0 < groupSize && Strictly(s)
    requires
      var c, d := CellOf(s, a, groupSize), CellOf(s, b, groupSize);
      !c.hit && !d.hit && c.lower <= i <= c.higher && d.lower <= i <= d.higher
    ensures CellOf(s, a, groupSize) == CellOf(s, b, groupSize)
  {
    SameCell(s, a, groupSize, 0, |s| - 1, i);
    SameCell(s, b, groupSize, 0, |s| - 1, i);
  }

  // ---- The runs handed to callers, which are as long as a group even where the cell is shorter ----

  /** The runs that start at these bounds are the same run, or share no place of the list. */
  predicate Apart(groupSize: nat, c: int, d: int) {
    c == d || c + groupSize <= d || d + groupSize <= c
  }

  /** Whether bisecting n names leaves no cell, but perhaps the last, so short that its run crosses the
      middle that follows it. */
  predicate Tiles(n: nat, groupSize: nat, last: bool) {
    if n <= groupSize then last || groupSize <= n + 1
    else Tiles((n - 1) / 2, groupSize, false) && Tiles(n / 2, groupSize, last)
  }

  lemma {:induction false} BisectInside(s: seq<int>, a: int, groupSize: nat, lower: int, higher: int)
    requires 0 < groupSize && 0 <= lower && higher < |s| && lower <= higher + 1
    ensures lower <= Bisect(s, a, groupSize, lower, higher).lower <= higher + 1
    decreases higher + 1 - lower
  {
    if groupSize < higher + 1 - lower {
      var mid := (lower + higher) / 2;
      if s[mid] < a {
        BisectInside(s, a, groupSize, mid + 1, higher);
      } else if s[mid] > a {
        BisectInside(s, a, groupSize, lower, mid - 1);
      }
    }
  }

  lemma Halves(lower: int, higher: int)
    requires lower < higher
    ensures
      var n, mid := higher + 1 - lower, (lower + higher) / 2;
      && lower <= mid < higher && mid - lower == (n - 1) / 2 && higher - mid == n / 2
  {}

  /** One search in a tiled range: it starts at the left bound or at least a group to the right of it. */
  lemma {:induction false} OneTiled(s: seq<int>, groupSize: nat, lower: int, higher: int, last: bool, a: int)
    requires 0 < groupSize && 0 <= lower <= higher + 1 && higher < |s| && Tiles(higher + 1 - lower, groupSize, last)
    ensures
      var c := Bisect(s, a, groupSize, lower, higher).lower;
      && (c == lower || lower + groupSize <= c <= higher + 1)
      && (!last ==> lower + groupSize <= higher + 2 && c + groupSize <= higher + 2)
    decreases higher + 1 - lower
  {
    if groupSize < higher + 1 - lower {
      var mid := (lower + higher) / 2;
      Halves(lower, higher);
      BisectStep(s, a, groupSize, lower, higher);
      hide Bisect;
      OneTiled(s, groupSize, lower, mid - 1, false, a);
      if s[mid] < a {
        OneTiled(s, groupSize, mid + 1, higher, last, a);
        BisectInside(s, a, groupSize, mid + 1, higher);
      }
    }
  }

  lemma BisectStep(s: seq<int>, a: int, groupSize: nat, lower: int, higher: int)
    requires 0 < groupSize < higher + 1 - lower && 0 <= lower && higher < |s|
    ensures
      var mid, c := (lower + higher) / 2, Bisect(s, a, groupSize, lower, higher).lower;
      && lower <= mid < higher
      && (s[mid] < a ==> c == Bisect(s, a, groupSize, mid + 1, higher).lower)
      && (s[mid] > a ==> c == Bisect(s, a, groupSize, lower, mid - 1).lower)
      && (s[mid] == a ==> c == lower)
  {}

  /** A search that goes left and one that goes right. */
  lemma ApartAcross(s: seq<int>, groupSize: nat, lower: int, higher: int, last: bool, a: int, b: int)
    requires 0 < groupSize < higher + 1 - lower && 0 <= lower && higher < |s| && Tiles(higher + 1 - lower, groupSize, last)
    requires a < s[(lower + higher) / 2] < b
    ensures Apart(groupSize, Bisect(s, a, groupSize, lower, higher).lower, Bisect(s, b, groupSize, lower, higher).lower)
  {
    var mid := (lower + higher) / 2;
    Halves(lower, higher);
    OneTiled(s, groupSize, lower, mid - 1, false, a);
    BisectInside(s, b, groupSize, mid + 1, higher);
    BisectStep(s, a, groupSize, lower, higher);
    BisectStep(s, b, groupSize, lower, higher);
    hide Bisect, Tiles;
  }

  lemma {:induction false} TwoTiled(s: seq<int>, groupSize: nat, lower: int, higher: int, last: bool, a: int, b: int)
    requires 0 < groupSize && 0 <= lower <= higher + 1 && higher < |s| && Tiles(higher + 1 - lower, groupSize, last)
    ensures Apart(groupSize, Bisect(s, a, groupSize, lower, higher).lower, Bisect(s, b, groupSize, lower, higher).lower)
    decreases higher + 1 - lower
  {
    if groupSize < higher + 1 - lower {
      var mid := (lower + higher) / 2;
      Halves(lower, higher);
      BisectStep(s, a, groupSize, lower, higher);
      BisectStep(s, b, groupSize, lower, higher);
      hide Bisect;
      if s[mid] == a || s[mid] == b {
        OneTiled(s, groupSize, lower, higher, last, a);
        OneTiled(s, groupSize, lower, higher, last, b);
      } else if s[mid] > a && s[mid] > b {
        TwoTiled(s, groupSize, lower, mid - 1, false, a, b);
      } else if s[mid] < a && s[mid] < b {
        TwoTiled(s, groupSize, mid + 1, higher, last, a, b);
      } else if a < b {
        ApartAcross(s, groupSize, lower, higher, last, a, b);
      } else {
        ApartAcross(s, groupSize, lower, higher, last, b, a);
      }
    }
  }

  /** The first name of a range finds the cell at its left bound. */
  lemma {:induction false} Leftmost(s: seq<int>, groupSize: nat, lower: int, higher: int)
    requires 1 < groupSize && Strictly(s) && 0 <= lower <= higher < |s|
    ensures Bisect(s, s[lower], groupSize, lower, higher).lower == lower
    decreases higher - lower
  {
    if groupSize < higher + 1 - lower {
      Leftmost(s, groupSize, lower, (lower + higher) / 2 - 1);
    }
  }

  lemma GoesLeft(s: seq<int>, groupSize: nat, lower: int, higher: int, i: int)
    requires 0 < groupSize < higher + 1 - lower && Strictly(s) && 0 <= lower <= i < (lower + higher) / 2 && higher < |s|
    ensures Bisect(s, s[i], groupSize, lower, higher) == Bisect(s, s[i], groupSize, lower, (lower + higher) / 2 - 1)
  {}

  lemma GoesRight(s: seq<int>, groupSize: nat, lower: int, higher: int, i: int)
    requires 0 < groupSize < higher + 1 - lower && Strictly(s) && 0 <= lower && (lower + higher) / 2 < i <= higher < |s|
    ensures Bisect(s, s[i], groupSize, lower, higher) == Bisect(s, s[i], groupSize, (lower + higher) / 2 + 1, higher)
  {}

  /** Two names of the range are given overlapping runs, or one a run that crosses the middle after it. */
  predicate Crossing(s: seq<int>, groupSize: nat, lower: int, higher: int, last: bool, i: int, j: int)
    requires 0 < groupSize && 0 <= lower <= i <= higher < |s| && lower <= j <= higher
  {
    var c, d := Bisect(s, s[i], groupSize, lower, higher).lower, Bisect(s, s[j], groupSize, lower, higher).lower;
    !Apart(groupSize, c, d) || (!last && c <= higher && higher + 2 < c + groupSize)
  }

  lemma CrossingLeft(s: seq<int>, groupSize: nat, lower: int, higher: int, last: bool, i: int, j: int) returns (k: int)
    requires 1 < groupSize < higher + 1 - lower && Strictly(s) && 0 <= lower && higher < |s|
    requires
      var mid := (lower + higher) / 2;
      lower <= i < mid && lower <= j < mid && Crossing(s, groupSize, lower, mid - 1, false, i, j)
    ensures lower <= k <= higher && Crossing(s, groupSize, lower, higher, last, i, k)
  {
    hide Strictly;
    var mid := (lower + higher) / 2;
    GoesLeft(s, groupSize, lower, higher, i);
    GoesLeft(s, groupSize, lower, higher, j);
    GoesRight(s, groupSize, lower, higher, mid + 1);
    Leftmost(s, groupSize, mid + 1, higher);
    hide Bisect;
    k := if Apart(groupSize, Bisect(s, s[i], groupSize, lower, mid - 1).lower, Bisect(s, s[j], groupSize, lower, mid - 1).lower)
         then mid + 1 else j;
  }

  lemma CrossingRight(s: seq<int>, groupSize: nat, lower: int, higher: int, last: bool, i: int, j: int)
    requires 1 < groupSize < higher + 1 - lower && Strictly(s) && 0 <= lower && higher < |s|
    requires
      var mid := (lower + higher) / 2;
      mid < i <= higher && mid < j <= higher && Crossing(s, groupSize, mid + 1, higher, last, i, j)
    ensures Crossing(s, groupSize, lower, higher, last, i, j)
  {
    hide Strictly;
    GoesRight(s, groupSize, lower, higher, i);
    GoesRight(s, groupSize, lower, higher, j);
    hide Bisect;
  }

  /** Where a range is not tiled, something crosses. */
  lemma {:induction false} Untiled(s: seq<int>, groupSize: nat, lower: int, higher: int, last: bool) returns (i: int, j: int)
    requires 1 < groupSize && Strictly(s) && 0 <= lower <= higher < |s| && !Tiles(higher + 1 - lower, groupSize, last)
    ensures lower <= i <= higher && lower <= j <= higher && Crossing(s, groupSize, lower, higher, last, i, j)
    decreases higher - lower
  {
    i, j := lower, lower;
    if groupSize < higher + 1 - lower {
      hide Crossing, Strictly;
      var mid := (lower + higher) / 2;
      Halves(lower, higher);
      if !Tiles(mid - lower, groupSize, false) {
        i, j := Untiled(s, groupSize, lower, mid - 1, false);
        j := CrossingLeft(s, groupSize, lower, higher, last, i, j);
      } else {
        i, j := Untiled(s, groupSize, mid + 1, higher, last);
        CrossingRight(s, groupSize, lower, higher, last, i, j);
      }
    }
  }

  lemma {:induction false} OnesTile(n: nat, last: bool)
    ensures Tiles(n, 1, last)
  {
    if 1 < n {
      OnesTile((n - 1) / 2, false);
      OnesTile(n / 2, last);
    }
  }

  /** The runs callers receive, for any ids, are equal or disjoint exactly when the bisection tiles the list. */
  lemma RunsPartitionIff(s: seq<int>, groupSize: nat)
    requires 0 < groupSize && Strictly(s)
    ensures
      (forall a, b ::
        var c, d := CellOf(s, a, groupSize).lower, CellOf(s, b, groupSize).lower;
        c == d || RunEnd(s, c, groupSize) <= d || RunEnd(s, d, groupSize) <= c)
      <==> Tiles(|s|, groupSize, true)
  {
    forall a ensures 0 <= CellOf(s, a, groupSize).lower && (s != [] ==> CellOf(s, a, groupSize).lower < |s|) {
      RunHolds(s, a, groupSize);
    }
    if Tiles(|s|, groupSize, true) {
      forall a, b ensures Apart(groupSize, CellOf(s, a, groupSize).lower, CellOf(s, b, groupSize).lower) {
        TwoTiled(s, groupSize, 0, |s| - 1, true, a, b);
      }
    } else {
      if groupSize == 1 {
        OnesTile(|s|, true);
      }
      var i, j := Untiled(s, groupSize, 0, |s| - 1, true);
      var c, d := CellOf(s, s[i], groupSize).lower, CellOf(s, s[j], groupSize).lower;
      assert !(c == d || RunEnd(s, c, groupSize) <= d || RunEnd(s, d, groupSize) <= c);
    }
  }

  /** They overlap here: of five names in groups of four, one id is given the first four and another the last two. */
  lemma RunsOverlap()
    ensures
      var s := [10, 20, 30, 40, 50];
      var c, d := CellOf(s, 15, 4).lower, CellOf(s, 45, 4).lower;
      c == 0 && RunEnd(s, c, 4) == 4 && d == 3 && RunEnd(s, d, 4) == 5
  {
    var s := [10, 20, 30, 40, 50];
    assert s[(0 + 4) / 2] == 30;
    assert Bisect(s, 15, 4, 0, 1) == Cell(0, 1, false) && Bisect(s, 45, 4, 3, 4) == Cell(3, 4, false);
  }

  method BinarySearch(global: array<int>, selfId: int, groupSize: nat) returns (lower: int, end: int)
    requires 0 < groupSize
    modifies global
    ensures global[..] == SortedOf(old(global[..])) && Ascending(global[..])
    ensures lower == CellOf(global[..], selfId, groupSize).lower && end == RunEnd(global[..], lower, groupSize)
    ensures 0 <= lower <= end <= global.Length && end - lower <= groupSize && (0 < global.Length ==> lower < end)
  {
    hide SortedOf, Ascending, Brackets;
    Sort(global);
    Sorts(old(global[..]));
    ghost var s := global[..];
    BracketsAll(s, selfId);
    lower := 0;
    var higher := global.Length - 1;
    while higher + 1 - lower > groupSize
      invariant global[..] == s && 0 <= lower <= higher + 1 <= |s| && Brackets(s, selfId, lower, higher)
      invariant Bisect(s, selfId, groupSize, lower, higher) == CellOf(s, selfId, groupSize)
      decreases higher + 1 - lower
    {
      var mid := (lower + higher) / 2;
      assert s[mid] == global[mid];
      Narrow(s, selfId, lower, higher);
      if global[mid] < selfId {
        lower := mid + 1;
      } else if global[mid] > selfId {
        higher := mid - 1;
      } else {
        break;
      }
    }
    RunHolds(s, selfId, groupSize);
    end := if lower + groupSize <= global.Length then lower + groupSize else global.Length;
  }

  /** The neighbours: a sorted, non-empty run of at most a group's size. */
  method GetNeighbours(global: array<int>, selfId: int, clusterSize: nat) returns (neighbours: seq<int>)
    requires 0 < clusterSize
    modifies global
    ensures global[..] == SortedOf(old(global[..]))
    ensures
      var c := CellOf(global[..], selfId, clusterSize);
      && 0 <= c.lower <= RunEnd(global[..], c.lower, clusterSize) <= global.Length
      && neighbours == global[c.lower..RunEnd(global[..], c.lower, clusterSize)]
      && (!c.hit && selfId in global[..] ==> selfId in neighbours)
    ensures |neighbours| <= clusterSize && (0 < global.Length ==> neighbours != []) && Ascending(neighbours)
  {
    hide SortedOf, CellOf, Bisect, Ascending;
    Sort(global);
    Sorts(old(global[..]));
    SortedStays(global[..]);
    var lower, end := BinarySearch(global, selfId, clusterSize);
    neighbours := global[lower..end];
    RunHolds(global[..], selfId, clusterSize);
    NeighboursHold(global[..], selfId, clusterSize, neighbours);
  }

  lemma NeighboursHold(s: seq<int>, selfId: int, clusterSize: nat, neighbours: seq<int>)
    requires 0 < clusterSize && Ascending(s)
    requires
      var lower := CellOf(s, selfId, clusterSize).lower;
      0 <= lower <= RunEnd(s, lower, clusterSize) <= |s| && neighbours == s[lower..RunEnd(s, lower, clusterSize)]
    ensures Ascending(neighbours)
    ensures !CellOf(s, selfId, clusterSize).hit && selfId in s ==> selfId in neighbours
  {
    hide CellOf;
    RunHolds(s, selfId, clusterSize);
    var c := CellOf(s, selfId, clusterSize);
    if !c.hit && selfId in s {
      var i :| 0 <= i < |s| && s[i] == selfId;
      assert neighbours[i - c.lower] == selfId;
    }
  }

  lemma BracketsAll(s: seq<int>, selfId: int)
    ensures Brackets(s, selfId, 0, |s| - 1)
  {}
}
