/** The third pass: buckets are grouped by histogram, and every group is checked against its count and its sum. */
module MetricHistograms {
  import opened LabelText
  import opened MetricBuckets
  import opened MetricFamilies
  import opened MetricKeys
  import opened MetricModel
  import opened MetricSummaries
  import opened Options

  datatype Group = Group(name: string, labels: Labels, buckets: seq<Cell>)

  predicate AllBounded(lib: Library, samples: seq<Sample>) {
    forall i :: 0 <= i < |samples| && Bucket(samples[i]) ==> ValidBound(lib.parse(samples[i].labels["le"]))
  }

  /** The samples of one histogram, in the order of the batch, and their buckets. */
  function Members(samples: seq<Sample>, name: string, labels: Labels): (members: seq<Sample>)
    ensures forall i :: 0 <= i < |members| ==> InHistogram(members[i], name, labels) && members[i] in samples
  {
    if samples == [] then []
    else
      var front, s := Members(samples[..|samples| - 1], name, labels), samples[|samples| - 1];
      if InHistogram(s, name, labels) then front + [s] else front
  }

  function CellOf(lib: Library, s: Sample): Cell
    requires Bucket(s) && ValidBound(lib.parse(s.labels["le"]))
  {
    Cell(BoundOf(lib, s), s.value)
  }

  function Cells(lib: Library, members: seq<Sample>): (cells: seq<Cell>)
    requires AllBounded(lib, members) && forall i :: 0 <= i < |members| ==> Bucket(members[i])
    ensures |cells| == |members|
    ensures forall i :: 0 <= i < |members| ==> cells[i] == CellOf(lib, members[i])
  {
    seq(|members|, i requires 0 <= i < |members| => CellOf(lib, members[i]))
  }

  lemma {:induction false} MembersAll(samples: seq<Sample>, name: string, labels: Labels)
    ensures forall s :: s in Members(samples, name, labels) <==> s in samples && InHistogram(s, name, labels)
  {
    if samples != [] {
      var front, s := samples[..|samples| - 1], samples[|samples| - 1];
      assert samples == front + [s];
      MembersAll(front, name, labels);
    }
  }

  lemma {:induction false} MembersOnce(samples: seq<Sample>, name: string, labels: Labels)
    requires NoSeriesTwice(samples)
    ensures NoRepeats(Members(samples, name, labels))
  {
    if samples != [] {
      var front, s := samples[..|samples| - 1], samples[|samples| - 1];
      assert samples == front + [s];
      SeriesStep(front, s);
      MembersOnce(front, name, labels);
      MembersAll(front, name, labels);
    }
  }

  function GroupKey(lib: Library, s: Sample): string { Key(lib, Family(s), Without(s.labels, "le")) }

  function GroupOf(lib: Library, samples: seq<Sample>, name: string, labels: Labels): Group
    requires AllBounded(lib, samples)
  {
    Group(name, labels, Cells(lib, Members(samples, name, labels)))
  }

  /** The table of groups after a prefix of the batch. */
  ghost predicate Grouped(lib: Library, samples: seq<Sample>, groups: map<string, Group>)
    requires AllBounded(lib, samples)
  {
    && (forall i :: 0 <= i < |samples| && Bucket(samples[i]) ==> GroupKey(lib, samples[i]) in groups)
    && (forall key :: key in groups ==> GroupedAt(lib, samples, groups, key))
  }

  ghost predicate GroupedAt(lib: Library, samples: seq<Sample>, groups: map<string, Group>, key: string)
    requires AllBounded(lib, samples) && key in groups
  {
    var g := groups[key];
    && g == GroupOf(lib, samples, g.name, g.labels) && g.buckets != []
    && Keyed(lib, g.name, g.labels) && key == Key(lib, g.name, g.labels)
  }

  function GroupAt(groups: map<string, Group>, key: string, name: string, labels: Labels): Group {
    if key in groups then groups[key] else Group(name, labels, [])
  }

  lemma GroupedStep(lib: Library, samples: seq<Sample>, s: Sample, groups: map<string, Group>)
    requires Sound(lib) && AllBounded(lib, samples + [s]) && AllBounded(lib, samples)
    requires Bucket(s) && ValidBound(lib.parse(s.labels["le"])) && Keyed(lib, s.name, s.labels)
    requires Grouped(lib, samples, groups)
    ensures var key, name, labels := GroupKey(lib, s), Family(s), Without(s.labels, "le");
            var g := GroupAt(groups, key, name, labels);
            Grouped(lib, samples + [s], groups[key := g.(buckets := g.buckets + [CellOf(lib, s)])])
  {
    hide Sound, ValidBound, Bucket, Keyed, Key;
    FamilyKeyed(lib, s);
    var key, name, labels := GroupKey(lib, s), Family(s), Without(s.labels, "le");
    var more, g := samples + [s], GroupAt(groups, key, name, labels);
    assert more[..|samples|] == samples;
    if key in groups {
      assert GroupedAt(lib, samples, groups, key);
      KeyInjective(lib, g.name, g.labels, name, labels);
    } else {
      NoMembers(lib, samples, s, groups);
    }
    assert g == GroupOf(lib, samples, name, labels);
    var groups' := groups[key := g.(buckets := g.buckets + [CellOf(lib, s)])];
    forall k | k in groups' ensures GroupedAt(lib, more, groups', k) {
      if k == key {
        assert Members(more, name, labels) == Members(samples, name, labels) + [s];
      } else {
        assert GroupedAt(lib, samples, groups, k);
        assert !InHistogram(s, groups[k].name, groups[k].labels);
        assert Members(more, groups[k].name, groups[k].labels) == Members(samples, groups[k].name, groups[k].labels);
      }
    }
  }

  lemma FamilyKeyed(lib: Library, s: Sample)
    requires Keyed(lib, s.name, s.labels)
    ensures Keyed(lib, Family(s), Without(s.labels, "le"))
  {
    KeyedWithout(lib, s.name, s.labels, "le", Family(s));
  }

  lemma NoMembers(lib: Library, samples: seq<Sample>, s: Sample, groups: map<string, Group>)
    requires AllBounded(lib, samples) && Grouped(lib, samples, groups) && GroupKey(lib, s) !in groups
    ensures Members(samples, Family(s), Without(s.labels, "le")) == []
  {
    forall t | t in samples ensures !InHistogram(t, Family(s), Without(s.labels, "le")) {
      var i :| 0 <= i < |samples| && samples[i] == t;
    }
    NoneIn(samples, Family(s), Without(s.labels, "le"));
  }

  lemma {:induction false} NoneIn(samples: seq<Sample>, name: string, labels: Labels)
    requires forall s :: s in samples ==> !InHistogram(s, name, labels)
    ensures Members(samples, name, labels) == []
  {
    if samples != [] {
      NoneIn(samples[..|samples| - 1], name, labels);
    }
  }

  lemma GroupedSkip(lib: Library, samples: seq<Sample>, s: Sample, groups: map<string, Group>)
    requires AllBounded(lib, samples + [s]) && AllBounded(lib, samples) && !Bucket(s) && Grouped(lib, samples, groups)
    ensures Grouped(lib, samples + [s], groups)
  {
    var more := samples + [s];
    assert more[..|samples|] == samples;
    forall k | k in groups ensures GroupedAt(lib, more, groups, k) {
      assert GroupedAt(lib, samples, groups, k);
      assert Members(more, groups[k].name, groups[k].labels) == Members(samples, groups[k].name, groups[k].labels);
    }
  }

  lemma ReadyBounded(lib: Library, source: string, samples: seq<Sample>, seen: Index)
    requires Ready(lib, source, samples, seen)
    ensures AllBounded(lib, samples) && Bounded(lib, Set(samples)) && Sound(lib)
    ensures forall i :: 0 <= i <= |samples| ==> AllBounded(lib, samples[..i])
  {
    forall i | 0 <= i < |samples| && Bucket(samples[i]) ensures ValidBound(lib.parse(samples[i].labels["le"])) {
      Readied(lib, source, samples, seen, i);
    }
    forall s | s in Set(samples) && Bucket(s) ensures ValidBound(lib.parse(s.labels["le"])) {
      var i :| 0 <= i < |samples| && samples[i] == s;
    }
  }

  method GroupBuckets(lib: Library, ghost source: string, samples: seq<Sample>, ghost seen: Index)
    returns (groups: map<string, Group>)
    requires Ready(lib, source, samples, seen)
    ensures AllBounded(lib, samples) && Grouped(lib, samples, groups)
  {
    hide Ready, Bucket, Grouped, CellOf, Keyed, AllBounded;
    groups := map[];
    ReadyBounded(lib, source, samples, seen);
    NothingGrouped(lib, samples);
    for i := 0 to |samples|
      invariant Grouped(lib, samples[..i], groups)
    {
      var s := samples[i];
      assert samples[..i + 1] == samples[..i] + [s];
      if Bucket(s) {
        BucketIsValid(lib, source, samples, seen, i);
        GroupedStep(lib, samples[..i], s, groups);
        var name, labels := Family(s), Without(s.labels, "le");
        var key := Key(lib, name, labels);
        var g := GroupAt(groups, key, name, labels);
        groups := groups[key := g.(buckets := g.buckets + [CellOf(lib, s)])];
      } else {
        GroupedSkip(lib, samples[..i], s, groups);
      }
    }
    assert samples[..|samples|] == samples;
  }

  lemma NothingGrouped(lib: Library, samples: seq<Sample>)
    ensures AllBounded(lib, samples[..0]) && Grouped(lib, samples[..0], map[])
  {}

  lemma BucketIsValid(lib: Library, source: string, samples: seq<Sample>, seen: Index, i: nat)
    requires Ready(lib, source, samples, seen) && i < |samples| && Bucket(samples[i])
    ensures Bucket(samples[i]) && "le" in samples[i].labels && Keyed(lib, samples[i].name, samples[i].labels)
    ensures ValidBound(lib.parse(samples[i].labels["le"]))
  {
    Readied(lib, source, samples, seen, i);
  }

  // One group.

  /** The buckets of a group are consistent exactly if the samples of the histogram are. */
  lemma ConsistentIsCumulative(lib: Library, samples: seq<Sample>, name: string, labels: Labels)
    requires AllBounded(lib, samples) && Bounded(lib, Set(samples)) && NoSeriesTwice(samples)
    ensures Consistent(Cells(lib, Members(samples, name, labels))) <==> Cumulative(lib, Set(samples), name, labels)
  {
    var members := Members(samples, name, labels);
    var cells := Cells(lib, members);
    MembersAll(samples, name, labels);
    MembersOnce(samples, name, labels);
    hide Members, NoSeriesTwice, Bucket, BoundOf, Stacked, ValidBound;
    if Cumulative(lib, Set(samples), name, labels) {
      forall i, j | 0 <= i < j < |cells| ensures Over(cells[i], cells[j]) {
        assert members[i] in Set(samples) && members[j] in Set(samples) && members[i] != members[j];
      }
    }
    if Consistent(cells) {
      forall s, t | s in Set(samples) && t in Set(samples) && s != t
                    && InHistogram(s, name, labels) && InHistogram(t, name, labels)
        ensures Stacked(BoundOf(lib, s), s.value, BoundOf(lib, t), t.value)
      {
        var i :| 0 <= i < |members| && members[i] == s;
        var j :| 0 <= j < |members| && members[j] == t;
        OverEither(cells, i, j);
      }
    }
  }

  lemma OverEither(cells: seq<Cell>, i: nat, j: nat)
    requires Consistent(cells) && i < |cells| && j < |cells| && i != j
    ensures Over(cells[i], cells[j])
  {
    assert if i < j then Over(cells[i], cells[j]) else Over(cells[j], cells[i]);
  }

  lemma TopIsTopped(lib: Library, samples: seq<Sample>, name: string, labels: Labels, count: real)
    requires AllBounded(lib, samples) && Bounded(lib, Set(samples))
    ensures Cell(Infinity, count) in Cells(lib, Members(samples, name, labels))
            <==> Topped(lib, Set(samples), name, labels, count)
  {
    var members := Members(samples, name, labels);
    MembersAll(samples, name, labels);
    hide Members, HasSuffix, TrimSuffix, Without;
    if Topped(lib, Set(samples), name, labels, count) {
      var s :| s in Set(samples) && InHistogram(s, name, labels) && BoundOf(lib, s) == Infinity && s.value == count;
      var i :| 0 <= i < |members| && members[i] == s;
      assert Cells(lib, members)[i] == Cell(Infinity, count);
    }
    if Cell(Infinity, count) in Cells(lib, members) {
      var i :| 0 <= i < |members| && Cells(lib, members)[i] == Cell(Infinity, count);
      assert members[i] in Set(samples);
    }
  }

  ghost predicate GroupIn(lib: Library, samples: seq<Sample>, g: Group) {
    && AllBounded(lib, samples) && g == GroupOf(lib, samples, g.name, g.labels)
    && g.buckets != [] && Keyed(lib, g.name, g.labels)
  }

  lemma HistogramMeans(lib: Library, source: string, samples: seq<Sample>, seen: Index, g: Group, sorted: seq<Cell>)
    requires Ready(lib, source, samples, seen) && GroupIn(lib, samples, g)
    requires Bounded(lib, Set(samples))
    requires Ordered(sorted) && multiset(sorted) == multiset(g.buckets)
    ensures var count, sum := Key(lib, g.name + "_count", g.labels), Key(lib, g.name + "_sum", g.labels);
            && sorted != []
            && (Histogram(lib, Set(samples), g.name, g.labels)
                <==> count in seen && seen[count].kind == "counter" && Integral(seen[count].value) && sum in seen
                     && Consistent(sorted)
                     && sorted[|sorted| - 1].bound == Infinity && sorted[|sorted| - 1].count == seen[count].value)
  {
    hide Ready, Consistent, Members, Cumulative, Topped, Integral, Key, AllBounded, Bounded, Has, NoSeriesTwice, Cells,
      Set, Encodable;
    ReadyOnce(lib, source, samples, seen);
    var count := Key(lib, g.name + "_count", g.labels);
    KeyedRenamed(lib, g.name, g.labels, g.name + "_count");
    KeyedRenamed(lib, g.name, g.labels, g.name + "_sum");
    LookupReady(lib, source, samples, seen, g.name + "_count", g.labels);
    LookupReady(lib, source, samples, seen, g.name + "_sum", g.labels);
    ConsistentPermuted(g.buckets, sorted);
    ConsistentIsCumulative(lib, samples, g.name, g.labels);
    assert |sorted| == |multiset(g.buckets)| > 0;
    if count in seen && Consistent(sorted) {
      LastIsTop(sorted, seen[count].value);
      TopIsTopped(lib, samples, g.name, g.labels, seen[count].value);
    }
  }

  lemma ReadyOnce(lib: Library, source: string, samples: seq<Sample>, seen: Index)
    requires Ready(lib, source, samples, seen)
    ensures NoSeriesTwice(samples)
  {}

  method CheckGroup(lib: Library, ghost source: string, ghost samples: seq<Sample>, seen: Index, g: Group)
    returns (error: Option<string>)
    requires Ready(lib, source, samples, seen) && GroupIn(lib, samples, g) && Bounded(lib, Set(samples))
    ensures error.None? <==> Histogram(lib, Set(samples), g.name, g.labels)
  {
    hide Ready, GroupIn, Bounded, Histogram, Consistent, Set;
    var count := Key(lib, g.name + "_count", g.labels);
    var sorted := SortByBound(g.buckets);
    HistogramMeans(lib, source, samples, seen, g, sorted);
    if count !in seen || seen[count].kind != "counter" || !Integral(seen[count].value) {
      return Some("missing histogram count");
    }
    if Key(lib, g.name + "_sum", g.labels) !in seen { return Some("missing histogram sum"); }
    var cumulative := CheckNeighbours(sorted);
    if !cumulative { return Some("invalid cumulative histogram"); }
    var last := sorted[|sorted| - 1];
    if last.bound != Infinity || last.count != seen[count].value { return Some("histogram count mismatch"); }
    return None;
  }

  lemma GroupsCover(lib: Library, source: string, samples: seq<Sample>, seen: Index, groups: map<string, Group>)
    requires Ready(lib, source, samples, seen) && AllBounded(lib, samples) && Grouped(lib, samples, groups)
    requires Bounded(lib, Set(samples))
    ensures forall key :: key in groups ==> GroupIn(lib, samples, groups[key])
    ensures Histograms(lib, Set(samples))
            <==> forall key :: key in groups ==> Histogram(lib, Set(samples), groups[key].name, groups[key].labels)
  {
    hide Histogram, Members;
    forall key | key in groups ensures GroupIn(lib, samples, groups[key]) {
      assert GroupedAt(lib, samples, groups, key);
    }
    if forall key :: key in groups ==> Histogram(lib, Set(samples), groups[key].name, groups[key].labels) {
      forall s | s in Set(samples) && Bucket(s)
        ensures Histogram(lib, Set(samples), Family(s), Without(s.labels, "le"))
      {
        var i :| 0 <= i < |samples| && samples[i] == s;
        Readied(lib, source, samples, seen, i);
        var g := groups[GroupKey(lib, s)];
        assert GroupedAt(lib, samples, groups, GroupKey(lib, s));
        FamilyKeyed(lib, s);
        KeyInjective(lib, g.name, g.labels, Family(s), Without(s.labels, "le"));
      }
    }
    if Histograms(lib, Set(samples)) {
      forall key | key in groups ensures Histogram(lib, Set(samples), groups[key].name, groups[key].labels) {
        assert GroupedAt(lib, samples, groups, key);
        var s := Members(samples, groups[key].name, groups[key].labels)[0];
        assert InHistogram(s, groups[key].name, groups[key].labels) && s in Set(samples);
      }
    }
  }

  method CheckBuckets(lib: Library, ghost source: string, samples: seq<Sample>, seen: Index)
    returns (error: Option<string>)
    requires Ready(lib, source, samples, seen)
    ensures Bounded(lib, Set(samples))
    ensures error.None? <==> Histograms(lib, Set(samples))
  {
    hide Ready, Bounded, Histogram, Histograms, Grouped, GroupIn, AllBounded, Set;
    ReadyBounded(lib, source, samples, seen);
    var groups := GroupBuckets(lib, source, samples, seen);
    GroupsCover(lib, source, samples, seen, groups);
    var todo := groups.Keys;
    while todo != {}
      invariant todo <= groups.Keys
      invariant forall key :: key in groups && key !in todo ==>
                  Histogram(lib, Set(samples), groups[key].name, groups[key].labels)
      decreases |todo|
    {
      var key :| key in todo;
      todo := todo - {key};
      error := CheckGroup(lib, source, samples, seen, groups[key]);
      if error.Some? { return error; }
    }
    return None;
  }
}
