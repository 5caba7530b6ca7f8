/** The buckets of one histogram: sorted by bound and then compared with their neighbours. */
module MetricBuckets {
  import opened MetricKeys
  import opened MetricModel

  type Bound = n: Number | n.Finite? || n.Infinity? witness Infinity

  datatype Cell = Cell(bound: Bound, count: real)

  predicate Over(a: Cell, b: Cell) { Stacked(a.bound, a.count, b.bound, b.count) }

  predicate Ordered(cells: seq<Cell>) {
    forall i, j :: 0 <= i < j < |cells| ==> !Below(cells[j].bound, cells[i].bound)
  }

  /** Any two buckets have different bounds, and the one with the higher bound counts no less. */
  predicate Consistent(cells: seq<Cell>) {
    forall i, j :: 0 <= i < j < |cells| ==> Over(cells[i], cells[j])
  }

  lemma ConsistentMembers(cells: seq<Cell>)
    ensures Consistent(cells)
            <==> NoRepeats(cells) && forall a, b :: a in cells && b in cells && a != b ==> Over(a, b)
  {
    if Consistent(cells) {
      forall i, j | 0 <= i < j < |cells| ensures cells[i] != cells[j] {
        assert Over(cells[i], cells[j]);
      }
      forall a, b | a in cells && b in cells && a != b ensures Over(a, b) {
        var i :| 0 <= i < |cells| && cells[i] == a;
        var j :| 0 <= j < |cells| && cells[j] == b;
        assert if i < j then Over(cells[i], cells[j]) else Over(cells[j], cells[i]);
      }
    }
  }

  /** Sorting does not change whether the buckets are consistent. */
  lemma ConsistentPermuted(cells: seq<Cell>, sorted: seq<Cell>)
    requires multiset(cells) == multiset(sorted)
    ensures Consistent(cells) <==> Consistent(sorted)
    ensures forall c :: c in cells <==> c in sorted
  {
    hide Over, Consistent;
    ConsistentMembers(cells);
    ConsistentMembers(sorted);
    NoRepeatsMultiset(cells);
    NoRepeatsMultiset(sorted);
    forall c ensures c in cells <==> c in sorted {
      assert c in multiset(cells) <==> c in multiset(sorted);
    }
  }

  lemma InsertedSorted(front: seq<Cell>, c: Cell, back: seq<Cell>)
    requires Ordered(front + back)
    requires forall i :: 0 <= i < |front| ==> !Below(c.bound, front[i].bound)
    requires forall i :: 0 <= i < |back| ==> Below(c.bound, back[i].bound)
    ensures Ordered(front + [c] + back)
  {
    var all, grown := front + back, front + [c] + back;
    forall i, j | 0 <= i < j < |grown| ensures !Below(grown[j].bound, grown[i].bound) {
      var i', j' := if i <= |front| then i else i - 1, if j <= |front| then j else j - 1;
      assert i != |front| ==> grown[i] == all[i'];
      assert j != |front| ==> grown[j] == all[j'];
    }
  }

  lemma FrontStays(sorted: seq<Cell>, c: Cell, k: nat)
    requires Ordered(sorted) && 0 < k <= |sorted| && !Below(c.bound, sorted[k - 1].bound)
    ensures forall j :: 0 <= j < k ==> !Below(c.bound, sorted[j].bound)
  {
    forall j | 0 <= j < k ensures !Below(c.bound, sorted[j].bound) {
      assert j < k - 1 ==> !Below(sorted[k - 1].bound, sorted[j].bound);
    }
  }

  method Insert(sorted: seq<Cell>, c: Cell) returns (grown: seq<Cell>)
    requires Ordered(sorted)
    ensures Ordered(grown) && multiset(grown) == multiset(sorted) + multiset{c}
  {
    hide Ordered, Below;
    var k := |sorted|;
    while k > 0 && Below(c.bound, sorted[k - 1].bound)
      invariant 0 <= k <= |sorted|
      invariant forall j :: k <= j < |sorted| ==> Below(c.bound, sorted[j].bound)
    {
      k := k - 1;
    }
    assert sorted == sorted[..k] + sorted[k..];
    if k > 0 {
      FrontStays(sorted, c, k);
    }
    InsertedSorted(sorted[..k], c, sorted[k..]);
    grown := sorted[..k] + [c] + sorted[k..];
    assert multiset(sorted) == multiset(sorted[..k]) + multiset(sorted[k..]);
  }

  method SortByBound(cells: seq<Cell>) returns (sorted: seq<Cell>)
    ensures Ordered(sorted) && multiset(sorted) == multiset(cells)
  {
    hide Ordered;
    sorted := [];
    NothingToOrder();
    for i := 0 to |cells|
      invariant Ordered(sorted) && multiset(sorted) == multiset(cells[..i])
    {
      sorted := Insert(sorted, cells[i]);
      assert cells[..i + 1] == cells[..i] + [cells[i]];
    }
    assert cells[..|cells|] == cells;
  }

  lemma NothingToOrder()
    ensures Ordered([])
  {}

  /** On sorted buckets it is enough to look at neighbours. */
  method CheckNeighbours(cells: seq<Cell>) returns (ok: bool)
    requires Ordered(cells)
    ensures ok <==> Consistent(cells)
  {
    hide Over;
    for i := 0 to |cells|
      invariant forall j, k :: 0 <= j < k < i ==> Over(cells[j], cells[k])
    {
      if i > 0 {
        NeighbourDecides(cells, i);
        if !Below(cells[i - 1].bound, cells[i].bound) || cells[i].count < cells[i - 1].count {
          return false;
        }
      }
    }
    return true;
  }

  lemma NeighbourDecides(cells: seq<Cell>, i: nat)
    requires Ordered(cells) && 0 < i < |cells|
    requires forall j, k :: 0 <= j < k < i ==> Over(cells[j], cells[k])
    ensures var fits := Below(cells[i - 1].bound, cells[i].bound) && cells[i].count >= cells[i - 1].count;
            && (fits ==> forall j :: 0 <= j < i ==> Over(cells[j], cells[i]))
            && (!fits ==> !Over(cells[i - 1], cells[i]))
  {
    if Below(cells[i - 1].bound, cells[i].bound) && cells[i].count >= cells[i - 1].count {
      forall j | 0 <= j < i ensures Over(cells[j], cells[i]) {
        assert j < i - 1 ==> Over(cells[j], cells[i - 1]);
        assert !Below(cells[i].bound, cells[j].bound) && !Below(cells[i - 1].bound, cells[j].bound);
      }
    }
  }

  /** In a consistent histogram only the last bucket can be unbounded. */
  lemma BoundedBeforeLast(cells: seq<Cell>, i: nat)
    requires Ordered(cells) && Consistent(cells) && i < |cells| - 1
    ensures cells[i].bound.Finite?
  {
    assert Over(cells[i], cells[|cells| - 1]);
  }

  lemma LastIsTop(cells: seq<Cell>, count: real)
    requires Ordered(cells) && Consistent(cells) && cells != []
    ensures var last := cells[|cells| - 1];
            (last.bound == Infinity && last.count == count) <==> Cell(Infinity, count) in cells
  {
    forall i | 0 <= i < |cells| - 1 ensures cells[i].bound.Finite? {
      BoundedBeforeLast(cells, i);
    }
  }
}
