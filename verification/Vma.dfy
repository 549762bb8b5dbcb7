/** The list of memory areas of an address space: a doubly linked list sorted by address.

    Nodes live in `nodes`, keyed by address, with 0 as the null pointer; releasing a node
    removes it, so a use after release would not verify.  `order` is the list as a sequence.
  */
module Vma {
  import opened Seqs

  const PAGE := 4096
  const TOP := 0x1_0000_0000_0000_0000

  type Word = n: nat | n < TOP

  /** One area, without its links. */
  datatype Area = Area(start: Word, end: Word, access: Word, flags: Word, offset: Word)

  datatype Node = Node(area: Area, next: int, prev: int)

  predicate RangeValid(start: Word, end: Word) {
    start <= end && start % PAGE == 0 && (end + 1) % PAGE == 0
  }

  predicate Overlaps(a: Area, start: Word, end: Word) {
    a.start <= end && start <= a.end
  }

  ghost predicate Misses(areas: seq<Area>, start: Word, end: Word) {
    forall k :: 0 <= k < |areas| ==> !Overlaps(areas[k], start, end)
  }

  function AlignDown(a: nat): (r: nat)
    ensures r <= a < r + PAGE && r % PAGE == 0
  {
    a / PAGE * PAGE
  }

  function AlignUp(a: nat): (r: nat)
    ensures a <= r < a + PAGE && r % PAGE == 0
  {
    (a + PAGE - 1) / PAGE * PAGE
  }

  /** Areas are page aligned, disjoint and in address order. */
  ghost predicate Sorted(areas: seq<Area>) {
    && (forall k :: 0 <= k < |areas| ==> RangeValid(areas[k].start, areas[k].end))
    && (forall j, k :: 0 <= j < k < |areas| ==> areas[j].end < areas[k].start)
  }

  /** Address a belongs to one of the areas. */
  ghost predicate Covered(areas: seq<Area>, a: int) {
    exists k :: 0 <= k < |areas| && areas[k].start <= a <= areas[k].end
  }

  /** [a, a+length) lies in [min, max] and misses every area. */
  ghost predicate Fits(areas: seq<Area>, a: int, min: int, max: int, length: int) {
    && min <= a && a + length - 1 <= max
    && forall k :: 0 <= k < |areas| ==> a + length - 1 < areas[k].start || areas[k].end < a
  }

  /** `Fits` in terms of addresses: no byte of the range is covered. */
  lemma FitsIsUncovered(areas: seq<Area>, a: int, min: int, max: int, length: int)
    requires Sorted(areas) && length > 0
    ensures Fits(areas, a, min, max, length) <==>
      min <= a && a + length - 1 <= max && forall x :: a <= x < a + length ==> !Covered(areas, x)
  {
    if min <= a && a + length - 1 <= max && !Fits(areas, a, min, max, length) {
      var k :| 0 <= k < |areas| && !(a + length - 1 < areas[k].start || areas[k].end < a);
      var x := if a < areas[k].start then areas[k].start else a;
      assert Covered(areas, x);
    }
  }

  ghost predicate NodeAt(nodes: map<int, Node>, order: seq<int>, k: nat)
    requires k < |order|
  {
    && order[k] in nodes && order[k] != 0
    && nodes[order[k]].next == At(order, k + 1) && nodes[order[k]].prev == At(order, k - 1)
  }

  /** The nodes reached from `head` are `order`, linked both ways, and there are no others. */
  ghost predicate Linked(nodes: map<int, Node>, head: int, order: seq<int>) {
    && head == At(order, 0)
    && Distinct(order)
    && (forall k :: 0 <= k < |order| ==> NodeAt(nodes, order, k))
    && nodes.Keys == set x | x in order
  }

  ghost function Areas(nodes: map<int, Node>, order: seq<int>): (r: seq<Area>)
    requires forall k :: 0 <= k < |order| ==> order[k] in nodes
    ensures |r| == |order| && forall k :: 0 <= k < |r| ==> r[k] == nodes[order[k]].area
  {
    seq(|order|, k requires 0 <= k < |order| => nodes[order[k]].area)
  }

  lemma InsertAtIndex<T>(s: seq<T>, k: nat, x: T)
    requires k <= |s|
    ensures var r := InsertAt(s, k, x);
      |r| == |s| + 1 && forall j :: 0 <= j < |r| ==> r[j] == if j < k then s[j] else if j == k then x else s[j - 1]
  {
  }

  lemma RemoveAtIndex<T>(s: seq<T>, k: nat)
    requires k < |s|
    ensures var r := RemoveAt(s, k);
      |r| == |s| - 1 && forall j :: 0 <= j < |r| ==> r[j] == if j < k then s[j] else s[j + 1]
  {
  }

  /** The links that change when node a goes in at position k. */
  ghost predicate LinksInserted(nodes: map<int, Node>, nodes': map<int, Node>,
                                order: seq<int>, k: nat, a: int, area: Area) {
    && nodes'.Keys == nodes.Keys + {a}
    && nodes'[a] == Node(area, At(order, k), At(order, k - 1))
    && forall j :: 0 <= j < |order| && order[j] in nodes ==>
         nodes'[order[j]] == Node(nodes[order[j]].area,
                                  if j == k - 1 then a else nodes[order[j]].next,
                                  if j == k then a else nodes[order[j]].prev)
  }

  lemma LinkedInsert(nodes: map<int, Node>, nodes': map<int, Node>, head: int, head': int,
                     order: seq<int>, order': seq<int>, k: nat, a: int, area: Area)
    requires Linked(nodes, head, order) && k <= |order| && a != 0 && a !in nodes && order' == InsertAt(order, k, a)
    requires LinksInserted(nodes, nodes', order, k, a, area) && head' == (if k == 0 then a else head)
    ensures Linked(nodes', head', order')
    ensures Areas(nodes', order') == InsertAt(Areas(nodes, order), k, area)
  {
    hide LinksInserted, Distinct;
    InsertedKeys(order, k, a);
    InsertedLinks(nodes, nodes', order, order', k, a, area);
    assert forall j :: 0 <= j < |order'| ==> order'[j] in nodes';
    InsertedAreas(nodes, nodes', order, order', k, a, area);
  }

  /** The nodes after `a` was linked in between prev and `before`; prev may be 0. */
  ghost function Before(nodes: map<int, Node>, before: int, prev: int, a: int, area: Area): map<int, Node>
    requires before in nodes && (prev != 0 ==> prev in nodes)
  {
    var m := nodes[a := Node(area, before, prev)][before := nodes[before].(prev := a)];
    if prev != 0 then m[prev := nodes[prev].(next := a)] else m
  }

  lemma LinksBefore(nodes: map<int, Node>, head: int, order: seq<int>, k: nat, a: int, area: Area)
    requires Linked(nodes, head, order) && k < |order| && a != 0 && a !in nodes
    ensures NodeAt(nodes, order, k) && (k > 0 ==> NodeAt(nodes, order, k - 1) && order[k - 1] != order[k])
    ensures LinksInserted(nodes, Before(nodes, order[k], At(order, k - 1), a, area), order, k, a, area)
  {
    assert NodeAt(nodes, order, k);
    if k > 0 { assert NodeAt(nodes, order, k - 1); }
  }

  lemma InsertedKeys(order: seq<int>, k: nat, a: int)
    requires k <= |order| && Distinct(order) && a !in order
    ensures Distinct(InsertAt(order, k, a))
    ensures (set x | x in InsertAt(order, k, a)) == (set x | x in order) + {a}
    ensures At(InsertAt(order, k, a), 0) == if k == 0 then a else At(order, 0)
  {
    InsertAtIndex(order, k, a);
    assert order == order[..k] + order[k..];
  }

  lemma InsertedLinks(nodes: map<int, Node>, nodes': map<int, Node>, order: seq<int>,
                      order': seq<int>, k: nat, a: int, area: Area)
    requires k <= |order| && a != 0 && a !in order && order' == InsertAt(order, k, a)
    requires forall j :: 0 <= j < |order| ==> NodeAt(nodes, order, j)
    requires LinksInserted(nodes, nodes', order, k, a, area)
    ensures nodes'.Keys == nodes.Keys + {a}
    ensures forall j :: 0 <= j < |order'| ==> NodeAt(nodes', order', j)
  {
    InsertAtIndex(order, k, a);
    forall j | 0 <= j < |order'| ensures NodeAt(nodes', order', j) {
      if j != k {
        var o := if j < k then j else j - 1;
        assert NodeAt(nodes, order, o) && order'[j] == order[o];
      }
    }
  }

  lemma InsertedAreas(nodes: map<int, Node>, nodes': map<int, Node>, order: seq<int>,
                      order': seq<int>, k: nat, a: int, area: Area)
    requires k <= |order| && order' == InsertAt(order, k, a)
    requires forall j :: 0 <= j < |order| ==> order[j] in nodes
    requires forall j :: 0 <= j < |order'| ==> order'[j] in nodes'
    requires LinksInserted(nodes, nodes', order, k, a, area)
    ensures Areas(nodes', order') == InsertAt(Areas(nodes, order), k, area)
  {
    InsertAtIndex(order, k, a);
    InsertAtIndex(Areas(nodes, order), k, area);
  }

  /** The links that change when the node at position k goes. */
  ghost predicate LinksRemoved(nodes: map<int, Node>, nodes': map<int, Node>, order: seq<int>, k: nat)
    requires k < |order|
  {
    && nodes'.Keys == nodes.Keys - {order[k]}
    && forall j :: 0 <= j < |order| && j != k && order[j] in nodes && order[j] in nodes' ==>
         nodes'[order[j]] == Node(nodes[order[j]].area,
                                  if j == k - 1 then At(order, k + 1) else nodes[order[j]].next,
                                  if j == k + 1 then At(order, k - 1) else nodes[order[j]].prev)
  }

  lemma LinkedRemove(nodes: map<int, Node>, nodes': map<int, Node>, head: int,
                     head': int, order: seq<int>, order': seq<int>, k: nat)
    requires Linked(nodes, head, order) && k < |order| && order' == RemoveAt(order, k)
    requires LinksRemoved(nodes, nodes', order, k) && head' == (if k == 0 then At(order, 1) else head)
    ensures Linked(nodes', head', order')
    ensures Areas(nodes', order') == RemoveAt(Areas(nodes, order), k)
  {
    hide LinksRemoved, Distinct;
    RemovedKeys(order, k);
    RemovedLinks(nodes, nodes', order, order', k);
    RemovedAreas(nodes, nodes', order, order', k);
  }

  lemma RemovedKeys(order: seq<int>, k: nat)
    requires k < |order| && Distinct(order)
    ensures Distinct(RemoveAt(order, k))
    ensures (set x | x in RemoveAt(order, k)) == (set x | x in order) - {order[k]}
    ensures At(RemoveAt(order, k), 0) == if k == 0 then At(order, 1) else At(order, 0)
  {
    RemoveAtIndex(order, k);
    assert order == order[..k] + [order[k]] + order[k + 1..];
  }

  lemma RemovedLinks(nodes: map<int, Node>, nodes': map<int, Node>, order: seq<int>, order': seq<int>, k: nat)
    requires k < |order| && Distinct(order) && order' == RemoveAt(order, k)
    requires forall j :: 0 <= j < |order| ==> NodeAt(nodes, order, j)
    requires LinksRemoved(nodes, nodes', order, k)
    ensures nodes'.Keys == nodes.Keys - {order[k]}
    ensures forall j :: 0 <= j < |order'| ==> NodeAt(nodes', order', j)
  {
    RemoveAtIndex(order, k);
    forall j | 0 <= j < |order'| ensures NodeAt(nodes', order', j) {
      var o := if j < k then j else j + 1;
      assert NodeAt(nodes, order, o) && order'[j] == order[o];
    }
  }

  lemma RemovedAreas(nodes: map<int, Node>, nodes': map<int, Node>, order: seq<int>, order': seq<int>, k: nat)
    requires k < |order| && order' == RemoveAt(order, k)
    requires forall j :: 0 <= j < |order| ==> order[j] in nodes
    requires forall j :: 0 <= j < |order'| ==> order'[j] in nodes'
    requires LinksRemoved(nodes, nodes', order, k)
    ensures Areas(nodes', order') == RemoveAt(Areas(nodes, order), k)
  {
    RemoveAtIndex(order, k);
    RemoveAtIndex(Areas(nodes, order), k);
  }

  /** A change of areas only. */
  lemma LinkedUpdate(nodes: map<int, Node>, nodes': map<int, Node>, head: int, order: seq<int>, k: nat, area: Area)
    requires Linked(nodes, head, order) && k < |order| && order[k] in nodes
    requires nodes' == nodes[order[k] := nodes[order[k]].(area := area)]
    ensures Linked(nodes', head, order) && Areas(nodes', order) == Areas(nodes, order)[k := area]
  {
    forall j | 0 <= j < |order| ensures NodeAt(nodes', order, j) {
      assert NodeAt(nodes, order, j);
    }
  }

  lemma Members(nodes: map<int, Node>, head: int, order: seq<int>)
    requires Linked(nodes, head, order)
    ensures forall j :: 0 <= j < |order| ==> order[j] in nodes && order[j] != 0
    ensures |order| > 0 ==> NodeAt(nodes, order, 0)
  {
    forall j | 0 <= j < |order| ensures order[j] in nodes && order[j] != 0 {
      assert NodeAt(nodes, order, j);
    }
  }

  /** The list is well linked and holds `areas`. */
  ghost predicate Shows(nodes: map<int, Node>, head: int, order: seq<int>, areas: seq<Area>) {
    && Linked(nodes, head, order) && |areas| == |order|
    && forall k :: 0 <= k < |order| ==> NodeAt(nodes, order, k) && nodes[order[k]].area == areas[k]
  }

  lemma Look(nodes: map<int, Node>, head: int, order: seq<int>, areas: seq<Area>, k: int)
    requires Shows(nodes, head, order, areas)
    ensures |areas| == |order| && head == At(order, 0)
    ensures 0 <= k < |order| ==> NodeAt(nodes, order, k) && nodes[order[k]].area == areas[k]
  {
  }

  /** The first area that ends at or after `start`; |areas| if there is none. */
  ghost predicate FirstFrom(areas: seq<Area>, start: int, k: nat) {
    && k <= |areas|
    && (forall j :: 0 <= j < k ==> areas[j].end < start)
    && (k < |areas| ==> areas[k].end >= start)
  }

  /** Only that area has to be looked at to know whether a range is free. */
  lemma FirstDecides(areas: seq<Area>, start: Word, end: Word, k: nat)
    requires Sorted(areas) && FirstFrom(areas, start, k) && start <= end
    ensures Misses(areas, start, end) <==> k == |areas| || !Overlaps(areas[k], start, end)
  {
    if k < |areas| && !Overlaps(areas[k], start, end) {
      forall j | 0 <= j < |areas| ensures !Overlaps(areas[j], start, end) {
        if k < j { assert areas[k].end < areas[j].start; }
      }
    }
  }

  lemma SortedInsert(areas: seq<Area>, k: nat, area: Area)
    requires Sorted(areas) && FirstFrom(areas, area.start, k) && RangeValid(area.start, area.end)
    requires k < |areas| ==> !Overlaps(areas[k], area.start, area.end)
    ensures Sorted(InsertAt(areas, k, area))
  {
    InsertAtIndex(areas, k, area);
  }

  /** Inserting an area adds exactly its addresses. */
  lemma CoveredInsert(areas: seq<Area>, k: nat, area: Area, a: int)
    requires k <= |areas|
    ensures Covered(InsertAt(areas, k, area), a) <==> Covered(areas, a) || area.start <= a <= area.end
  {
    InsertAtIndex(areas, k, area);
    var r := InsertAt(areas, k, area);
    if Covered(areas, a) {
      var j :| 0 <= j < |areas| && areas[j].start <= a <= areas[j].end;
      assert r[if j < k then j else j + 1] == areas[j];
    }
    if area.start <= a <= area.end { assert r[k] == area; }
  }

  /** Removing [start, end] from an area in the middle of which it lies needs a second node. */
  ghost predicate Splits(areas: seq<Area>, start: Word, end: Word) {
    exists k :: 0 <= k < |areas| && areas[k].start < start && end < areas[k].end
  }

  /** What is left of an area without [start, end]: nothing, one piece or two. */
  ghost function Pieces(a: Area, start: Word, end: Word): seq<Area> {
    (if a.start < start then [a.(end := start - 1)] else []) + (if end < a.end then [a.(start := end + 1)] else [])
  }

  /** The area that covers `start`, the k-th, lost the part of [start, end] inside it; no other area changed. */
  ghost predicate Cut(areas: seq<Area>, areas': seq<Area>, start: Word, end: Word, k: nat) {
    && k < |areas| && areas[k].start <= start <= areas[k].end
    && (var last := if end < areas[k].end then end else areas[k].end;
        areas' == Spliced(areas, k, Pieces(areas[k], start, last)))
  }

  lemma FirstCovers(areas: seq<Area>, start: Word, end: Word, k: nat)
    requires Sorted(areas) && FirstFrom(areas, start, k) && start <= end
    ensures Covered(areas, start) <==> k < |areas| && areas[k].start <= start
    ensures Splits(areas, start, end) <==> k < |areas| && areas[k].start < start && end < areas[k].end
  {
    forall j | k < j < |areas| ensures start < areas[j].start {
      assert areas[k].end < areas[j].start;
    }
  }

  /** Putting p in the place of the k-th element. */
  ghost function Spliced<T>(s: seq<T>, k: nat, p: seq<T>): seq<T>
    requires k < |s|
  {
    s[..k] + p + s[k + 1..]
  }

  /** The list after each of the four ways to carve a range out of area k. */
  lemma Carved(areas: seq<Area>, k: nat, start: Word, last: Word)
    requires k < |areas| && areas[k].start <= start <= last <= areas[k].end
    ensures var a, r := areas[k], Spliced(areas, k, Pieces(areas[k], start, last));
      if start == a.start && last == a.end then r == RemoveAt(areas, k)
      else if start == a.start then r == areas[k := a.(start := last + 1)]
      else if last == a.end then r == areas[k := a.(end := start - 1)]
      else r == InsertAt(areas[k := a.(end := start - 1)], k + 1, a.(start := last + 1))
  {
  }

  lemma SplicedIndex<T>(s: seq<T>, k: nat, p: seq<T>)
    requires k < |s|
    ensures var r := Spliced(s, k, p);
      |r| == |s| + |p| - 1 && forall j :: 0 <= j < |r| ==>
        r[j] == if j < k then s[j] else if j < k + |p| then p[j - k] else s[j - |p| + 1]
  {
  }

  lemma PiecesSorted(a: Area, start: Word, end: Word)
    requires RangeValid(a.start, a.end) && RangeValid(start, end) && a.start <= start && end <= a.end
    ensures Sorted(Pieces(a, start, end))
    ensures forall p :: p in Pieces(a, start, end) ==> a.start <= p.start && p.end <= a.end
  {
  }

  lemma SplicedSorted(areas: seq<Area>, k: nat, p: seq<Area>, r: seq<Area>)
    requires Sorted(areas) && k < |areas| && Sorted(p) && |r| == |areas| + |p| - 1
    requires forall j :: 0 <= j < |p| ==> areas[k].start <= p[j].start && p[j].end <= areas[k].end
    requires forall j {:trigger r[j]} :: 0 <= j < |r| ==>
      r[j] == if j < k then areas[j] else if j < k + |p| then p[j - k] else areas[j - |p| + 1]
    ensures Sorted(r)
  {
    forall i, j | 0 <= i < j < |r| ensures r[i].end < r[j].start {
      var n := |p|;
      if i < k {
        assert areas[i].end < areas[if j < k then j else if j < k + n then k else j - n + 1].start;
      } else if i < k + n {
        assert if j < k + n then p[i - k].end < p[j - k].start else areas[k].end < areas[j - n + 1].start;
      } else {
        assert areas[i - n + 1].end < areas[j - n + 1].start;
      }
    }
  }

  lemma SortedCut(areas: seq<Area>, k: nat, start: Word, end: Word)
    requires Sorted(areas) && k < |areas| && areas[k].start <= start && end <= areas[k].end && RangeValid(start, end)
    ensures Sorted(Spliced(areas, k, Pieces(areas[k], start, end)))
  {
    var p := Pieces(areas[k], start, end);
    PiecesSorted(areas[k], start, end);
    SplicedIndex(areas, k, p);
    SplicedSorted(areas, k, p, Spliced(areas, k, p));
  }

  /** Exactly the part of [start, end] inside the area covering `start` is no longer covered. */
  lemma CutCovered(areas: seq<Area>, areas': seq<Area>, start: Word, end: Word, k: nat, a: int)
    requires Sorted(areas) && start <= end && Cut(areas, areas', start, end, k)
    ensures Covered(areas', a) <==> Covered(areas, a) && !(start <= a <= end && a <= areas[k].end)
  {
    var last := if end < areas[k].end then end else areas[k].end;
    var p := Pieces(areas[k], start, last);
    if Covered(areas', a) {
      CutLoses(areas, areas', start, last, k, a);
    }
    if Covered(areas, a) && !(start <= a <= last) {
      CutKeeps(areas, areas', start, last, k, a);
    }
  }

  lemma CutLoses(areas: seq<Area>, areas': seq<Area>, start: Word, last: Word, k: nat, a: int)
    requires Sorted(areas) && k < |areas| && areas[k].start <= start <= last <= areas[k].end
    requires areas' == Spliced(areas, k, Pieces(areas[k], start, last)) && Covered(areas', a)
    ensures Covered(areas, a) && !(start <= a <= last)
  {
    hide RangeValid;
    var p := Pieces(areas[k], start, last);
    SplicedIndex(areas, k, p);
    var j :| 0 <= j < |areas'| && areas'[j].start <= a <= areas'[j].end;
    var o := if j < k then j else if j < k + |p| then k else j - |p| + 1;
    assert areas[o].start <= a <= areas[o].end;
  }

  lemma CutKeeps(areas: seq<Area>, areas': seq<Area>, start: Word, last: Word, k: nat, a: int)
    requires k < |areas| && areas[k].start <= start <= last <= areas[k].end
    requires areas' == Spliced(areas, k, Pieces(areas[k], start, last)) && Covered(areas, a) && !(start <= a <= last)
    ensures Covered(areas', a)
  {
    var p := Pieces(areas[k], start, last);
    SplicedIndex(areas, k, p);
    var j :| 0 <= j < |areas| && areas[j].start <= a <= areas[j].end;
    var n := if j < k then j else if k < j then j + |p| - 1 else if a < start then k else k + |p| - 1;
    assert areas'[n].start <= a <= areas'[n].end;
  }

  /** What an area says of its addresses. */
  datatype Attributes = Attributes(access: Word, flags: Word, offset: Word)

  ghost predicate Says(x: Area, a: int, attrs: Attributes) {
    x.start <= a <= x.end && Attributes(x.access, x.flags, x.offset) == attrs
  }

  /** The address lies in an area with these attributes. */
  ghost predicate Attributed(areas: seq<Area>, a: int, attrs: Attributes) {
    exists k :: 0 <= k < |areas| && Says(areas[k], a, attrs)
  }

  /** The addresses that stay covered keep their access, flags and offset. */
  lemma CutAttributes(areas: seq<Area>, areas': seq<Area>, start: Word, end: Word, k: nat, a: int, attrs: Attributes)
    requires Sorted(areas) && start <= end && Cut(areas, areas', start, end, k)
    ensures Attributed(areas', a, attrs) <==>
      Attributed(areas, a, attrs) && !(start <= a <= end && a <= areas[k].end)
  {
    hide Says, Sorted;
    var last := if end < areas[k].end then end else areas[k].end;
    if Attributed(areas', a, attrs) { AttributesFrom(areas, areas', start, last, k, a, attrs); }
    if Attributed(areas, a, attrs) && !(start <= a <= last) {
      AttributesTo(areas, areas', start, last, k, a, attrs);
    }
  }

  lemma AttributesFrom(areas: seq<Area>, areas': seq<Area>, start: Word, last: Word, k: nat, a: int, attrs: Attributes)
    requires Sorted(areas) && k < |areas| && areas[k].start <= start <= last <= areas[k].end
    requires areas' == Spliced(areas, k, Pieces(areas[k], start, last)) && Attributed(areas', a, attrs)
    ensures Attributed(areas, a, attrs) && !(start <= a <= last)
  {
    hide RangeValid;
    var p := Pieces(areas[k], start, last);
    SplicedIndex(areas, k, p);
    var j :| 0 <= j < |areas'| && Says(areas'[j], a, attrs);
    var o := if j < k then j else if j < k + |p| then k else j - |p| + 1;
    assert Says(areas[o], a, attrs);
    assert areas'[j].start <= a <= areas'[j].end;
    CutLoses(areas, areas', start, last, k, a);
  }

  lemma AttributesTo(areas: seq<Area>, areas': seq<Area>, start: Word, last: Word, k: nat, a: int, attrs: Attributes)
    requires k < |areas| && areas[k].start <= start <= last <= areas[k].end
    requires areas' == Spliced(areas, k, Pieces(areas[k], start, last)) && Attributed(areas, a, attrs)
    requires !(start <= a <= last)
    ensures Attributed(areas', a, attrs)
  {
    hide RangeValid;
    var p := Pieces(areas[k], start, last);
    SplicedIndex(areas, k, p);
    var j :| 0 <= j < |areas| && Says(areas[j], a, attrs);
    var n := if j < k then j else if k < j then j + |p| - 1 else if a < start then k else k + |p| - 1;
    assert Says(areas'[n], a, attrs);
  }

  /** An insertion gives its attributes to its own addresses and takes none away. */
  lemma InsertAttributes(areas: seq<Area>, k: nat, area: Area, a: int, attrs: Attributes)
    requires k <= |areas|
    ensures Attributed(InsertAt(areas, k, area), a, attrs) <==> Attributed(areas, a, attrs) || Says(area, a, attrs)
  {
    hide Says;
    InsertAtIndex(areas, k, area);
    var r := InsertAt(areas, k, area);
    if j :| 0 <= j < |areas| && Says(areas[j], a, attrs) { assert r[if j < k then j else j + 1] == areas[j]; }
    if Says(area, a, attrs) { assert r[k] == area; }
    if j :| 0 <= j < |r| && Says(r[j], a, attrs) {
      if j != k { assert areas[if j < k then j else j - 1] == r[j]; }
    }
  }

  /** The next links alone; the prev link of the first node is free to dangle. */
  ghost predicate NextAt(nodes: map<int, Node>, order: seq<int>, k: nat)
    requires k < |order|
  {
    order[k] in nodes && order[k] != 0 && nodes[order[k]].next == At(order, k + 1)
  }

  ghost predicate Chained(nodes: map<int, Node>, head: int, order: seq<int>) {
    && head == At(order, 0)
    && Distinct(order)
    && (forall k :: 0 <= k < |order| ==> NextAt(nodes, order, k))
    && nodes.Keys == set x | x in order
  }

  lemma LinkedChained(nodes: map<int, Node>, head: int, order: seq<int>)
    requires Linked(nodes, head, order)
    ensures Chained(nodes, head, order)
  {
    forall k | 0 <= k < |order| ensures NextAt(nodes, order, k) { assert NodeAt(nodes, order, k); }
  }

  lemma DropFirst(nodes: map<int, Node>, head: int, order: seq<int>)
    requires Chained(nodes, head, order) && head != 0
    ensures head in nodes && Chained(nodes - {head}, nodes[head].next, order[1..])
  {
    assert NextAt(nodes, order, 0);
    assert order == [order[0]] + order[1..];
    forall k | 0 <= k < |order| - 1 ensures NextAt(nodes - {head}, order[1..], k) {
      assert NextAt(nodes, order, k + 1);
    }
  }

  /** vma_range_fits. */
  predicate RangeFits(start: Word, min: Word, max: Word, length: Word)
    requires length > 0
  {
    !(start < min || start > max) && !(length - 1 > TOP - 1 - start) && !(start + length - 1 > max)
  }

  /** The lowest address that vma_find_free_forward may answer. */
  function ForwardStart(hint: Word, min: Word): nat {
    var c := AlignUp(if hint == 0 then min else hint);
    if c < min then min else c
  }

  /** It is at or above the hint and the lower limit, and no page above both is left out. */
  lemma ForwardLeast(hint: Word, min: Word, a: nat)
    ensures hint <= ForwardStart(hint, min) && min <= ForwardStart(hint, min)
    ensures a % PAGE == 0 && hint <= a && min <= a ==> ForwardStart(hint, min) <= a
  {
  }

  ghost predicate NoneBetween(areas: seq<Area>, lo: int, hi: int, min: int, max: int, length: int) {
    forall a :: lo <= a < hi ==> !Fits(areas, a, min, max, length)
  }

  lemma NoneYet(areas: seq<Area>, lo: int, min: int, max: int, length: int)
    ensures NoneBetween(areas, lo, lo, min, max, length)
  {
  }

  lemma NoneUse(areas: seq<Area>, lo: int, hi: int, min: int, max: int, length: int)
    requires NoneBetween(areas, lo, hi, min, max, length)
    ensures forall a :: lo <= a < hi ==> !Fits(areas, a, min, max, length)
    ensures hi + length - 1 > max ==> forall a :: lo <= a ==> !Fits(areas, a, min, max, length)
  {
  }

  lemma EndPage(areas: seq<Area>, j: nat)
    requires Sorted(areas) && j < |areas|
    ensures (areas[j].end + 1) % PAGE == 0
  {
  }

  lemma Shown(nodes: map<int, Node>, head: int, order: seq<int>)
    requires Linked(nodes, head, order)
    ensures (forall k :: 0 <= k < |order| ==> order[k] in nodes) && Shows(nodes, head, order, Areas(nodes, order))
  {
    Members(nodes, head, order);
  }

  lemma GapFits(areas: seq<Area>, j: nat, a: Word, min: Word, max: Word, length: Word)
    requires Sorted(areas) && length > 0 && RangeFits(a, min, max, length) && j <= |areas|
    requires forall i :: 0 <= i < j ==> areas[i].end < a
    requires j < |areas| ==> a + length - 1 < areas[j].start
    ensures Fits(areas, a, min, max, length)
  {
    forall i | j < i < |areas| ensures a + length - 1 < areas[i].start {
      assert areas[j].end < areas[i].start;
    }
  }

  lemma Jump(areas: seq<Area>, j: nat, lo: int, a: int, min: int, max: int, length: int)
    requires j < |areas| && areas[j].start <= a + length - 1 && NoneBetween(areas, lo, a, min, max, length)
    ensures NoneBetween(areas, lo, areas[j].end + 1, min, max, length)
  {
  }

  /** No page-aligned address in (lo, hi] fits. */
  ghost predicate NoPage(areas: seq<Area>, lo: int, hi: int, min: int, max: int, length: int) {
    forall a :: lo < a <= hi && a % PAGE == 0 ==> !Fits(areas, a, min, max, length)
  }

  lemma PageStep(a: int, x: nat)
    requires a % PAGE == 0 && a > AlignDown(x)
    ensures a > x
  {
  }

  lemma StartPage(areas: seq<Area>, hint: Word, a: Word, min: Word, max: Word, length: Word)
    requires length > 0 && length - 1 <= max - min
    requires var h := AlignDown(max - length + 1);
      var c := if hint == 0 then h else AlignDown(hint); a == if c > h then h else c
    ensures NoPage(areas, a, if hint == 0 then max else hint, min, max, length)
  {
    var hi := if hint == 0 then max else hint;
    forall x | a < x <= hi && x % PAGE == 0 ensures !Fits(areas, x, min, max, length) {
      if a == AlignDown(max - length + 1) { PageStep(x, max - length + 1); } else { PageStep(x, hint); }
    }
  }

  lemma PageJump(areas: seq<Area>, j: nat, a: int, hi: int, min: int, max: int, length: int)
    requires length > 0 && j < |areas| && areas[j].start <= a + length - 1 && a <= areas[j].end
    requires NoPage(areas, a, hi, min, max, length)
    ensures areas[j].start <= min || length > areas[j].start - min ==> NoPage(areas, -1, hi, min, max, length)
    ensures areas[j].start - length >= 0 ==> NoPage(areas, AlignDown(areas[j].start - length), hi, min, max, length)
  {
    if areas[j].start - length >= 0 {
      var x := AlignDown(areas[j].start - length);
      forall b | x < b <= hi && b % PAGE == 0 ensures !Fits(areas, b, min, max, length) {
        if b <= a { PageStep(b, areas[j].start - length); }
      }
    }
  }

  lemma NoPageYet(areas: seq<Area>, first: int, min: int, max: int, length: int)
    ensures NoPage(areas, first, first, min, max, length)
  {
  }

  lemma NoPageLow(areas: seq<Area>, a: int, hi: int, min: int, max: int, length: int)
    requires a < min && NoPage(areas, a, hi, min, max, length)
    ensures NoPage(areas, -1, hi, min, max, length)
  {
  }

  lemma EndsBelow(areas: seq<Area>, j: nat, a: int)
    requires Sorted(areas) && j < |areas| && areas[j].end < a
    ensures forall i :: 0 <= i <= j ==> areas[i].end < a
  {
    forall i | 0 <= i < j ensures areas[i].end < a {
      assert areas[i].end < areas[j].start && areas[j].start <= areas[j].end;
    }
  }

  lemma SortedAbove(areas: seq<Area>, k: nat, end: int)
    requires Sorted(areas) && (k < |areas| ==> end < areas[k].start)
    ensures forall i :: k <= i < |areas| ==> end < areas[i].start
  {
    forall i | k < i < |areas| ensures end < areas[i].start {
      assert areas[k].end < areas[i].start;
    }
  }

  lemma Empty(nodes: map<int, Node>, head: int, order: seq<int>)
    requires Linked(nodes, head, order) && head == 0
    ensures order == [] && nodes == map[]
  {
    assert order != [] ==> NodeAt(nodes, order, 0);
  }

  lemma CopyStep(areas: seq<Area>, j: nat, k: nat)
    requires Sorted(areas) && j < |areas|
    ensures RangeValid(areas[j].start, areas[j].end) && Misses(areas[..j], areas[j].start, areas[j].end)
    ensures FirstFrom(areas[..j], areas[j].start, k) ==> InsertAt(areas[..j], k, areas[j]) == areas[..j + 1]
  {
  }

  class VmaList {
    var nodes: map<int, Node>
    var head: int
    ghost var order: seq<int>

    ghost predicate Valid()
      reads this
    {
      Linked(nodes, head, order) && Sorted(Contents())
    }

    ghost function Contents(): seq<Area>
      reads this
      requires Linked(nodes, head, order)
    {
      assert forall k :: 0 <= k < |order| ==> NodeAt(nodes, order, k);
      Areas(nodes, order)
    }

    constructor ()
      ensures Valid() && Contents() == []
    {
      nodes, head, order := map[], 0, [];
    }

    /** Walks to the first area that ends at or after `start`. */
    method Seek(start: Word) returns (current: int, ghost k: nat)
      requires Valid()
      ensures FirstFrom(Contents(), start, k) && current == At(order, k)
      ensures k < |order| ==> NodeAt(nodes, order, k)
    {
      current, k := head, 0;
      while current != 0 && nodes[current].area.end < start
        invariant k <= |order| && current == At(order, k)
        invariant k < |order| ==> NodeAt(nodes, order, k)
        invariant forall j :: 0 <= j < k ==> Contents()[j].end < start
        decreases |order| - k
      {
        current := nodes[current].next;
        k := k + 1;
        assert k < |order| ==> NodeAt(nodes, order, k);
      }
      assert k < |order| ==> NodeAt(nodes, order, k);
    }

    /** vma_link_before without a node to link before: the new node goes to the end. */
    method Append(node: int, area: Area)
      requires Linked(nodes, head, order) && node != 0 && node !in nodes
      modifies this
      ensures Linked(nodes, head, order) && order == InsertAt(old(order), |old(order)|, node)
      ensures Areas(nodes, order) == InsertAt(old(Areas(nodes, order)), |old(order)|, area)
      ensures nodes.Keys == old(nodes.Keys) + {node}
    {
      ghost var nodes0, order0, head0 := nodes, order, head;
      Members(nodes, head, order);
      nodes := nodes[node := Node(area, 0, 0)];
      var tail := head;
      if tail == 0 {
        head := node;
      } else {
        ghost var j := 0;
        while nodes[tail].next != 0
          invariant nodes == nodes0[node := Node(area, 0, 0)] && head == head0 && order == order0
          invariant j < |order0| && tail == order0[j] && NodeAt(nodes0, order0, j)
          decreases |order0| - j
        {
          tail := nodes[tail].next;
          j := j + 1;
          assert NodeAt(nodes0, order0, j);
        }
        nodes := nodes[tail := nodes[tail].(next := node)];
        nodes := nodes[node := nodes[node].(prev := tail)];
      }
      order := InsertAt(order0, |order0|, node);
      LinkedInsert(nodes0, nodes, head0, head, order0, order, |order0|, node, area);
    }

    /** vma_link_before. */
    method LinkBefore(before: int, node: int, area: Area, ghost k: nat)
      requires Linked(nodes, head, order) && k <= |order| && before == At(order, k)
      requires node != 0 && node !in nodes
      modifies this
      ensures Linked(nodes, head, order) && order == InsertAt(old(order), k, node)
      ensures Areas(nodes, order) == InsertAt(old(Areas(nodes, order)), k, area)
      ensures nodes.Keys == old(nodes.Keys) + {node}
    {
      ghost var nodes0, order0, head0 := nodes, order, head;
      hide InsertAt, LinksInserted, Linked;
      Members(nodes, head, order);
      if before == 0 {
        Append(node, area);
        return;
      }
      ghost var prev0 := At(order0, k - 1);
      LinksBefore(nodes0, head0, order0, k, node, area);
      nodes := nodes[node := Node(area, 0, 0)];
      nodes := nodes[node := nodes[node].(next := before)];
      nodes := nodes[node := nodes[node].(prev := nodes[before].prev)];
      nodes := nodes[before := nodes[before].(prev := node)];
      if nodes[node].prev != 0 {
        var prev := nodes[node].prev;
        nodes := nodes[prev := nodes[prev].(next := node)];
      } else {
        head := node;
      }
      assert nodes == Before(nodes0, before, prev0, node, area);
      order := InsertAt(order0, k, node);
      LinkedInsert(nodes0, nodes, head0, head, order0, order, k, node, area);
    }

    /** vma_insert; `spare` is the node that slab_calloc returns, 0 when it has none. */
    method Insert(area: Area, spare: int) returns (ok: bool)
      requires Valid() && (spare == 0 || spare !in nodes)
      modifies this
      ensures Valid()
      ensures ok <==> spare != 0 && RangeValid(area.start, area.end) && Misses(old(Contents()), area.start, area.end)
      ensures !ok ==> nodes == old(nodes) && head == old(head) && order == old(order)
      ensures ok ==> exists k ::
        FirstFrom(old(Contents()), area.start, k) && Contents() == InsertAt(old(Contents()), k, area)
      ensures ok ==> nodes.Keys == old(nodes.Keys) + {spare}
    {
      hide Distinct, NodeAt, InsertAt, Areas;
      if !RangeValid(area.start, area.end) { return false; }
      ghost var areas := Contents();
      ghost var k;
      var current;
      current, k := Seek(area.start);
      FirstDecides(areas, area.start, area.end, k);
      if current != 0 && Overlaps(nodes[current].area, area.start, area.end) { return false; }
      if spare == 0 { return false; }
      LinkBefore(current, spare, area, k);
      SortedInsert(areas, k, area);
      return true;
    }

    /** vma_unlink. */
    method Unlink(node: int, ghost k: nat)
      requires Linked(nodes, head, order) && k < |order| && node == order[k]
      modifies this
      ensures Linked(nodes, head, order) && order == RemoveAt(old(order), k)
      ensures Areas(nodes, order) == RemoveAt(old(Areas(nodes, order)), k)
    {
      ghost var nodes0, order0, head0 := nodes, order, head;
      Members(nodes, head, order);
      assert NodeAt(nodes0, order0, k);
      if k > 0 { assert NodeAt(nodes0, order0, k - 1); }
      if k + 1 < |order0| { assert NodeAt(nodes0, order0, k + 1); }
      var n := nodes[node];
      if n.prev != 0 {
        nodes := nodes[n.prev := nodes[n.prev].(next := n.next)];
      } else {
        head := n.next;
      }
      if n.next != 0 {
        nodes := nodes[n.next := nodes[n.next].(prev := n.prev)];
      }
      nodes := nodes - {node};
      order := RemoveAt(order0, k);
      LinkedRemove(nodes0, nodes, head0, head, order0, order, k);
    }

    method SetArea(node: int, area: Area, ghost k: nat)
      requires Linked(nodes, head, order) && k < |order| && node == order[k]
      modifies this`nodes
      ensures Linked(nodes, head, order) && nodes.Keys == old(nodes.Keys)
      ensures Areas(nodes, order) == old(Areas(nodes, order))[k := area]
    {
      Members(nodes, head, order);
      ghost var nodes0 := nodes;
      nodes := nodes[node := nodes[node].(area := area)];
      LinkedUpdate(nodes0, nodes, head, order, k, area);
    }

    /** The four cases of vma_remove once the area that covers `start` is known. */
    method Carve(current: int, start: Word, end: Word, spare: int, ghost k: nat) returns (ok: bool)
      requires Linked(nodes, head, order) && k < |order| && current == order[k]
      requires Contents()[k].start <= start <= Contents()[k].end && start <= end && (spare == 0 || spare !in nodes)
      modifies this
      ensures Linked(nodes, head, order)
      ensures ok <==> spare != 0 || old(Contents())[k].start == start || old(Contents())[k].end <= end
      ensures !ok ==> Contents() == old(Contents())
      ensures ok ==> Contents() == Spliced(old(Contents()), k,
        Pieces(old(Contents())[k], start, if end < old(Contents())[k].end then end else old(Contents())[k].end))
    {
      hide Spliced, Pieces, InsertAt, RemoveAt, Distinct;
      Members(nodes, head, order);
      ghost var areas := Contents();
      var area := nodes[current].area;
      var removeEnd := if end < area.end then end else area.end;
      Carved(areas, k, start, removeEnd);
      if start == area.start && removeEnd == area.end {
        Unlink(current, k);
      } else if start == area.start {
        SetArea(current, area.(start := removeEnd + 1), k);
      } else if removeEnd == area.end {
        SetArea(current, area.(end := start - 1), k);
      } else {
        if spare == 0 { return false; }
        SetArea(current, area.(end := start - 1), k);
        assert NodeAt(nodes, order, k);
        LinkBefore(nodes[current].next, spare, area.(start := removeEnd + 1), k + 1);
      }
      return true;
    }

    /** vma_remove; `spare` is the node that slab_calloc returns when an area has to be split. */
    method Remove(start: Word, end: Word, spare: int) returns (ok: bool)
      requires Valid() && (spare == 0 || spare !in nodes)
      modifies this
      ensures Valid()
      ensures ok <==> RangeValid(start, end) && (spare != 0 || !Splits(old(Contents()), start, end))
      ensures !ok || !old(Covered(Contents(), start)) ==> Contents() == old(Contents())
      ensures ok && old(Covered(Contents(), start)) ==> exists k :: Cut(old(Contents()), Contents(), start, end, k)
    {
      if !RangeValid(start, end) { return false; }
      ghost var areas := Contents();
      ghost var k;
      var current;
      current, k := Seek(start);
      FirstCovers(areas, start, end, k);
      if current == 0 || nodes[current].area.start > start { return true; }
      ok := Carve(current, start, end, spare, k);
      if ok {
        SortedCut(areas, k, start, if end < areas[k].end then end else areas[k].end);
        assert Cut(areas, Contents(), start, end, k);
      }
    }

    /** vma_clear. */
    method Clear()
      requires Valid()
      modifies this
      ensures Valid() && Contents() == [] && nodes == map[]
    {
      LinkedChained(nodes, head, order);
      while head != 0
        invariant Chained(nodes, head, order)
        decreases |order|
      {
        DropFirst(nodes, head, order);
        var next := nodes[head].next;
        nodes := nodes - {head};
        head := next;
        order := order[1..];
      }
      assert order != [] ==> NextAt(nodes, order, 0);
    }

    /** vma_copy_list into this list; `spares` are the nodes that slab_calloc returns, 0 for none left. */
    method CopyList(src: map<int, Node>, srcHead: int, ghost srcOrder: seq<int>,
                    ghost areas: seq<Area>, spares: seq<int>)
      returns (ok: bool)
      requires Valid() && Shows(src, srcHead, srcOrder, areas) && Sorted(areas)
      requires |spares| >= |areas| && forall j :: 0 <= j < |spares| && spares[j] != 0 ==> spares[j] !in nodes
      requires forall i, j :: 0 <= i < j < |spares| && spares[i] == spares[j] ==> spares[i] == 0
      modifies this
      ensures Valid()
      ensures ok <==> old(head) == 0 && forall j :: 0 <= j < |areas| ==> spares[j] != 0
      ensures Contents() == if ok then areas else old(Contents())
    {
      hide Shows, Sorted;
      if head != 0 { return false; }
      Empty(nodes, head, order);
      Look(src, srcHead, srcOrder, areas, 0);
      var current, j := srcHead, 0;
      while current != 0
        invariant Valid() && j <= |areas| == |srcOrder| && current == At(srcOrder, j)
        invariant Contents() == areas[..j]
        invariant nodes.Keys == set i | 0 <= i < j :: spares[i]
        invariant forall i :: 0 <= i < j ==> spares[i] != 0
        decreases |srcOrder| - j
      {
        Look(src, srcHead, srcOrder, areas, j);
        var inserted := CopyOne(src[current].area, spares[j], areas, j);
        if !inserted {
          Clear();
          return false;
        }
        current := src[current].next;
        j := j + 1;
        Look(src, srcHead, srcOrder, areas, j);
      }
      Look(src, srcHead, srcOrder, areas, j);
      assert areas[..j] == areas;
      return true;
    }

    /** Inserting the next area of a list whose first j areas are already here appends it. */
    method CopyOne(area: Area, spare: int, ghost areas: seq<Area>, ghost j: nat) returns (ok: bool)
      requires Valid() && (spare == 0 || spare !in nodes)
      requires Sorted(areas) && j < |areas| && Contents() == areas[..j] && area == areas[j]
      modifies this
      ensures Valid() && (ok <==> spare != 0)
      ensures ok ==> Contents() == areas[..j + 1] && nodes.Keys == old(nodes.Keys) + {spare}
    {
      CopyStep(areas, j, j);
      ok := Insert(area, spare);
      if ok {
        ghost var k :| FirstFrom(areas[..j], area.start, k) && Contents() == InsertAt(areas[..j], k, area);
        CopyStep(areas, j, k);
      }
    }

    /** vma_find_free_forward: the first fit at or above the hint. */
    method FindFreeForward(hint: Word, min: Word, max: Word, length: Word) returns (ok: bool, out: Word)
      requires Valid()
      ensures length == 0 || length % PAGE != 0 ==> !ok
      ensures length > 0 && length % PAGE == 0 && !ok ==> forall a :: ForwardStart(hint, min) <= a ==>
        !Fits(Contents(), a, min, max, length)
      ensures ok ==> ForwardStart(hint, min) <= out && Fits(Contents(), out, min, max, length)
      ensures ok ==> forall a :: ForwardStart(hint, min) <= a < out ==> !Fits(Contents(), a, min, max, length)
      ensures ok && min % PAGE == 0 ==> out % PAGE == 0
      ensures ok ==> hint <= out
      ensures length > 0 && length % PAGE == 0 ==> forall a: nat :: a % PAGE == 0 && hint <= a && (ok ==> a < out) ==>
        !Fits(Contents(), a, min, max, length)
    {
      forall a: nat | a % PAGE == 0 && hint <= a && min <= a
        ensures hint <= ForwardStart(hint, min) <= a
      {
        ForwardLeast(hint, min, a);
      }
      ForwardLeast(hint, min, 0);
      if length == 0 || max < min { return false, 0; }
      if length % PAGE != 0 { return false, 0; }
      var known, candidate := ForwardCandidate(hint, min);
      if !known { return false, 0; }
      if !RangeFits(candidate, min, max, length) { return false, 0; }
      ok, out := Advance(candidate, min, max, length);
    }

    /** Where the forward search begins; it gives up when rounding the hint up would wrap around. */
    method ForwardCandidate(hint: Word, min: Word) returns (ok: bool, candidate: Word)
      ensures ok ==> candidate == ForwardStart(hint, min)
      ensures !ok ==> ForwardStart(hint, min) >= TOP
    {
      candidate := if hint == 0 then min else hint;
      if candidate % PAGE != 0 {
        if candidate > TOP - 1 - (PAGE - 1) { return false, 0; }
        candidate := AlignUp(candidate);
      }
      if candidate < min { candidate := min; }
      ok := true;
    }

    /** The loop of vma_find_free_forward. */
    method Advance(first: Word, min: Word, max: Word, length: Word) returns (ok: bool, out: Word)
      requires Valid() && length > 0 && RangeFits(first, min, max, length)
      ensures !ok ==> forall a :: first <= a ==> !Fits(Contents(), a, min, max, length)
      ensures ok ==> first <= out && Fits(Contents(), out, min, max, length)
      ensures ok ==> forall a :: first <= a < out ==> !Fits(Contents(), a, min, max, length)
      ensures ok && first % PAGE == 0 ==> out % PAGE == 0
    {
      hide Linked, Sorted, Fits, NoneBetween, RangeValid, Shows;
      ghost var areas := Contents();
      Shown(nodes, head, order);
      NoneYet(areas, first, min, max, length);
      var candidate: Word, end: Word := first, first + length - 1;
      var current := head;
      ghost var j := 0;
      Look(nodes, head, order, areas, j);
      while current != 0
        invariant 0 <= j <= |order| && current == At(order, j)
        invariant first <= candidate && RangeFits(candidate, min, max, length) && end == candidate + length - 1
        invariant first % PAGE == 0 ==> candidate % PAGE == 0
        invariant forall i :: 0 <= i < j ==> areas[i].end < candidate
        invariant NoneBetween(areas, first, candidate, min, max, length)
        decreases |order| - j
      {
        Look(nodes, head, order, areas, j);
        var area := nodes[current].area;
        if area.end >= candidate {
          if end < area.start {
            GapFits(areas, j, candidate, min, max, length);
            NoneUse(areas, first, candidate, min, max, length);
            return true, candidate;
          }
          Jump(areas, j, first, candidate, min, max, length);
          if area.end == TOP - 1 {
            NoneUse(areas, first, TOP, min, max, length);
            return false, 0;
          }
          EndPage(areas, j);
          candidate := area.end + 1;
          if !RangeFits(candidate, min, max, length) {
            NoneUse(areas, first, candidate, min, max, length);
            return false, 0;
          }
          end := candidate + length - 1;
        }
        current := nodes[current].next;
        j := j + 1;
      }
      Look(nodes, head, order, areas, j);
      GapFits(areas, j, candidate, min, max, length);
      NoneUse(areas, first, candidate, min, max, length);
      return true, candidate;
    }

    /** vma_find_free_fixed. */
    method FindFreeFixed(addr: Word, min: Word, max: Word, length: Word) returns (ok: bool)
      requires Valid()
      ensures ok <==> length > 0 && length % PAGE == 0 && addr % PAGE == 0 && Fits(Contents(), addr, min, max, length)
    {
      if length == 0 || max < min { return false; }
      if addr % PAGE != 0 { return false; }
      if length % PAGE != 0 { return false; }
      if !RangeFits(addr, min, max, length) { return false; }
      var end: Word := addr + length - 1;
      ghost var areas := Contents();
      var current := head;
      ghost var j := 0;
      while current != 0
        invariant j <= |order| && current == At(order, j)
        invariant j < |order| ==> NodeAt(nodes, order, j)
        invariant forall i :: 0 <= i < j ==> areas[i].end < addr
        decreases |order| - j
      {
        var area := nodes[current].area;
        assert area == areas[j];
        if area.start > end { break; }
        if Overlaps(area, addr, end) { return false; }
        current := nodes[current].next;
        j := j + 1;
        assert j < |order| ==> NodeAt(nodes, order, j);
      }
      assert j < |order| ==> NodeAt(nodes, order, j);
      GapFits(areas, j, addr, min, max, length);
      return true;
    }

    /** vma_find_free_backward: the last page-aligned fit at or below the hint. */
    method FindFreeBackward(hint: Word, min: Word, max: Word, length: Word) returns (ok: bool, out: Word)
      requires Valid()
      ensures length == 0 || length % PAGE != 0 ==> !ok
      ensures length > 0 && length % PAGE == 0 && !ok ==>
        NoPage(Contents(), -1, if hint == 0 then max else hint, min, max, length)
      ensures ok ==> Fits(Contents(), out, min, max, length) && out % PAGE == 0 && (hint == 0 || out <= hint)
      ensures ok ==> NoPage(Contents(), out, if hint == 0 then max else hint, min, max, length)
    {
      if length == 0 || max < min { return false, 0; }
      if length % PAGE != 0 { return false, 0; }
      if length - 1 > max - min { return false, 0; }
      var highest := AlignDown(max - length + 1);
      var candidate: Word := if hint == 0 then highest else AlignDown(hint);
      if candidate > highest { candidate := highest; }
      StartPage(Contents(), hint, candidate, min, max, length);
      if !RangeFits(candidate, min, max, length) { return false, 0; }
      ok, out := Retreat(candidate, min, max, length);
    }

    /** The two loops of vma_find_free_backward. */
    method Retreat(first: Word, min: Word, max: Word, length: Word) returns (ok: bool, out: Word)
      requires Valid() && length > 0 && length % PAGE == 0 && first % PAGE == 0 && RangeFits(first, min, max, length)
      ensures !ok ==> NoPage(Contents(), -1, first, min, max, length)
      ensures ok ==> Fits(Contents(), out, min, max, length) && out % PAGE == 0 && out <= first
      ensures ok ==> NoPage(Contents(), out, first, min, max, length)
    {
      hide Linked, Sorted, RangeValid, NoPage, Shows;
      ghost var areas := Contents();
      Shown(nodes, head, order);
      NoPageYet(areas, first, min, max, length);
      var current;
      ghost var j;
      Look(nodes, head, order, areas, 0);
      current, j := Below(first + length - 1);
      var candidate: Word := first;
      while true
        invariant -1 <= j < |order| == |areas| && current == At(order, j)
        invariant candidate % PAGE == 0 && candidate <= first && candidate + length - 1 <= max
        invariant forall i :: j < i < |areas| ==> candidate + length - 1 < areas[i].start
        invariant NoPage(areas, candidate, first, min, max, length)
        decreases j
      {
        if !RangeFits(candidate, min, max, length) {
          NoPageLow(areas, candidate, first, min, max, length);
          return false, 0;
        }
        var end: Word := candidate + length - 1;
        current, j := Rewind(current, j, end);
        Look(nodes, head, order, areas, j);
        if current == 0 { return true, candidate; }
        var area := nodes[current].area;
        if area.end < candidate {
          GapFits(areas, j + 1, candidate, min, max, length) by { EndsBelow(areas, j, candidate); }
          return true, candidate;
        }
        PageJump(areas, j, candidate, first, min, max, length);
        if area.start <= min { return false, 0; }
        if length > area.start - min { return false, 0; }
        candidate := AlignDown(area.start - length);
        current := nodes[current].prev;
        j := j - 1;
      }
    }

    /** The last area that starts at or below `end`. */
    method Below(end: Word) returns (current: int, ghost k: int)
      requires Valid()
      ensures -1 <= k < |order| && current == At(order, k)
      ensures forall i :: k < i < |order| ==> end < Contents()[i].start
    {
      current, k := head, 0;
      var prev := 0;
      while current != 0 && nodes[current].area.start <= end
        invariant 0 <= k <= |order| && current == At(order, k) && prev == At(order, k - 1)
        invariant k < |order| ==> NodeAt(nodes, order, k)
        decreases |order| - k
      {
        prev := current;
        current := nodes[current].next;
        k := k + 1;
        assert k < |order| ==> NodeAt(nodes, order, k);
      }
      assert k < |order| ==> NodeAt(nodes, order, k);
      SortedAbove(Contents(), k, end);
      current, k := prev, k - 1;
    }

    /** Goes back over the areas that start after `end`. */
    method Rewind(from: int, ghost from': int, end: Word) returns (current: int, ghost k: int)
      requires Valid() && -1 <= from' < |order| && from == At(order, from')
      ensures -1 <= k <= from' && current == At(order, k)
      ensures forall i :: k < i <= from' ==> end < Contents()[i].start
      ensures k >= 0 ==> Contents()[k].start <= end
    {
      current, k := from, from';
      assert k >= 0 ==> NodeAt(nodes, order, k);
      while current != 0 && nodes[current].area.start > end
        invariant -1 <= k <= from' && current == At(order, k)
        invariant k >= 0 ==> NodeAt(nodes, order, k)
        invariant forall i :: k < i <= from' ==> end < Contents()[i].start
        decreases k
      {
        current := nodes[current].prev;
        k := k - 1;
        assert k >= 0 ==> NodeAt(nodes, order, k);
      }
    }
  }
}
