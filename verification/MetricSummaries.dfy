/** The second pass: every summary has its count and its sum, and no quantile twice. */
module MetricSummaries {
  import opened LabelText
  import opened MetricFamilies
  import opened MetricKeys
  import opened MetricModel
  import opened Options

  /** What the first pass has established. */
  ghost predicate Ready(lib: Library, source: string, samples: seq<Sample>, seen: Index) {
    Sound(lib) && Admissible(lib, source, samples) && Indexes(lib, seen, samples)
  }

  lemma Readied(lib: Library, source: string, samples: seq<Sample>, seen: Index, i: nat)
    requires Ready(lib, source, samples, seen) && i < |samples|
    ensures ValidSample(lib, source, samples[i]) && samples[i] in Set(samples)
    ensures Quantiled(samples[i]) ==> ValidQuantile(lib.parse(samples[i].labels["quantile"]))
    ensures Keyed(lib, samples[i].name, samples[i].labels)
  {
    assert samples[i] in Set(samples);
    AllKeyed(lib, source, samples);
  }

  lemma LookupReady(lib: Library, source: string, samples: seq<Sample>, seen: Index, name: string, labels: Labels)
    requires Ready(lib, source, samples, seen) && Keyed(lib, name, labels)
    ensures var key := Key(lib, name, labels);
            && (key in seen <==> Has(Set(samples), name, labels))
            && ((key in seen && seen[key].kind == "counter" && Integral(seen[key].value))
                <==> exists c :: c in Set(samples) && Counts(c, name, labels))
            && (forall c :: c in Set(samples) && Counts(c, name, labels) ==> key in seen && seen[key] == c)
  {
    AllKeyed(lib, source, samples);
    Lookup(lib, seen, samples, name, labels);
    var key := Key(lib, name, labels);
    if key in seen {
      assert seen[key] in Set(samples);
      if seen[key].kind == "counter" && Integral(seen[key].value) {
        assert Counts(seen[key], name, labels);
      }
    }
  }

  predicate MarkedBy(lib: Library, s: Sample, key: string, q: real) {
    && Quantiled(s) && ValidQuantile(lib.parse(s.labels["quantile"]))
    && Key(lib, s.name, Without(s.labels, "quantile")) == key && Quantile(lib, s) == q
  }

  predicate Marked(lib: Library, samples: seq<Sample>, key: string, q: real) {
    exists j :: 0 <= j < |samples| && MarkedBy(lib, samples[j], key, q)
  }

  lemma MarkedGrows(lib: Library, samples: seq<Sample>, s: Sample)
    ensures forall key, q :: Marked(lib, samples + [s], key, q)
              <==> Marked(lib, samples, key, q) || MarkedBy(lib, s, key, q)
  {
    var more := samples + [s];
    forall key, q ensures Marked(lib, more, key, q) <==> Marked(lib, samples, key, q) || MarkedBy(lib, s, key, q) {
      if Marked(lib, samples, key, q) {
        var j :| 0 <= j < |samples| && MarkedBy(lib, samples[j], key, q);
        assert MarkedBy(lib, more[j], key, q);
      }
      if MarkedBy(lib, s, key, q) {
        assert MarkedBy(lib, more[|samples|], key, q);
      }
    }
  }

  predicate Clash(lib: Library, s: Sample, t: Sample) {
    && Quantiled(s) && ValidQuantile(lib.parse(s.labels["quantile"]))
    && Quantiled(t) && ValidQuantile(lib.parse(t.labels["quantile"])) && SameQuantile(lib, s, t)
  }

  /** The mark is there exactly if an earlier sample gave the same quantile of the same summary. */
  lemma MarkMeansClash(lib: Library, source: string, samples: seq<Sample>, seen: Index, i: nat)
    requires Ready(lib, source, samples, seen) && i < |samples| && Quantiled(samples[i])
    requires ValidQuantile(lib.parse(samples[i].labels["quantile"]))
    ensures var s := samples[i];
            Marked(lib, samples[..i], Key(lib, s.name, Without(s.labels, "quantile")), Quantile(lib, s))
            <==> exists j :: 0 <= j < i && Clash(lib, samples[j], s)
  {
    hide MarkedBy, Clash, Ready;
    var s := samples[i];
    forall j | 0 <= j < i
      ensures MarkedBy(lib, samples[j], Key(lib, s.name, Without(s.labels, "quantile")), Quantile(lib, s))
              <==> Clash(lib, samples[j], s)
    {
      Readied(lib, source, samples, seen, j);
      Readied(lib, source, samples, seen, i);
      ReadyIsSound(lib, source, samples, seen);
      MarkIsClash(lib, samples[j], s);
    }
  }

  lemma ReadyIsSound(lib: Library, source: string, samples: seq<Sample>, seen: Index)
    requires Ready(lib, source, samples, seen)
    ensures Sound(lib)
  {}

  lemma MarkIsClash(lib: Library, t: Sample, s: Sample)
    requires Sound(lib) && Keyed(lib, t.name, t.labels) && Keyed(lib, s.name, s.labels)
    requires Quantiled(s) && ValidQuantile(lib.parse(s.labels["quantile"]))
    ensures MarkedBy(lib, t, Key(lib, s.name, Without(s.labels, "quantile")), Quantile(lib, s)) <==> Clash(lib, t, s)
  {
    hide Key, Sound;
    if MarkedBy(lib, t, Key(lib, s.name, Without(s.labels, "quantile")), Quantile(lib, s)) {
      KeyedWithout(lib, t.name, t.labels, "quantile", t.name);
      KeyedWithout(lib, s.name, s.labels, "quantile", s.name);
      KeyInjective(lib, t.name, Without(t.labels, "quantile"), s.name, Without(s.labels, "quantile"));
    }
  }

  ghost predicate SummariesSoFar(lib: Library, samples: seq<Sample>, i: nat)
    requires i <= |samples|
  {
    && (forall j :: 0 <= j < i && Quantiled(samples[j]) ==> SummaryComplete(Set(samples), samples[j]))
    && (forall j, k :: 0 <= j < k < i ==> !Clash(lib, samples[j], samples[k]))
  }

  lemma SoFarIsAll(lib: Library, source: string, samples: seq<Sample>, seen: Index)
    requires Ready(lib, source, samples, seen)
    ensures forall s :: s in Set(samples) && Quantiled(s) ==> ValidQuantile(lib.parse(s.labels["quantile"]))
    ensures SummariesSoFar(lib, samples, |samples|) <==> Summaries(lib, Set(samples))
  {
    hide Indexes, Sound, Families, SummaryComplete, ValidName, ValidLabels;
    var S := Set(samples);
    forall s | s in S && Quantiled(s) ensures ValidQuantile(lib.parse(s.labels["quantile"])) {}
    if SummariesSoFar(lib, samples, |samples|) {
      forall s, t | s in S && t in S && Quantiled(s) && Quantiled(t) && SameQuantile(lib, s, t) ensures s == t {
        var j :| 0 <= j < |samples| && samples[j] == s;
        var k :| 0 <= k < |samples| && samples[k] == t;
        assert Clash(lib, s, t) && Clash(lib, t, s);
      }
    }
    if Summaries(lib, S) {
      forall j, k | 0 <= j < k < |samples| ensures !Clash(lib, samples[j], samples[k]) {
        assert samples[j] in S && samples[k] in S && !SameSeries(samples[j], samples[k]);
      }
      forall j | 0 <= j < |samples| && Quantiled(samples[j]) ensures SummaryComplete(S, samples[j]) {
        assert samples[j] in S;
      }
    }
  }

  lemma CompleteIff(lib: Library, source: string, samples: seq<Sample>, seen: Index, i: nat)
    requires Ready(lib, source, samples, seen) && i < |samples| && Quantiled(samples[i])
    ensures var s := samples[i];
            var labels := Without(s.labels, "quantile");
            var count, sum := Key(lib, s.name + "_count", labels), Key(lib, s.name + "_sum", labels);
            SummaryComplete(Set(samples), s)
            <==> s.kind == "gauge" && count in seen && seen[count].kind == "counter" && Integral(seen[count].value)
                 && sum in seen
  {
    hide Ready, Encodable, Key, Integral;
    Readied(lib, source, samples, seen, i);
    var s := samples[i];
    KeyedWithout(lib, s.name, s.labels, "quantile", s.name + "_count");
    KeyedWithout(lib, s.name, s.labels, "quantile", s.name + "_sum");
    LookupReady(lib, source, samples, seen, s.name + "_count", Without(s.labels, "quantile"));
    LookupReady(lib, source, samples, seen, s.name + "_sum", Without(s.labels, "quantile"));
  }

  lemma StopsSummaries(lib: Library, samples: seq<Sample>, i: nat)
    requires i < |samples| && SummariesSoFar(lib, samples, i)
    ensures SummariesSoFar(lib, samples, i + 1)
            <==> (Quantiled(samples[i]) ==>
                    && SummaryComplete(Set(samples), samples[i])
                    && !exists j :: 0 <= j < i && Clash(lib, samples[j], samples[i]))
    ensures !SummariesSoFar(lib, samples, i + 1) ==> !SummariesSoFar(lib, samples, |samples|)
  {
    hide SummaryComplete, Set;
  }

  method CheckSummaries(lib: Library, ghost source: string, samples: seq<Sample>, seen: Index)
    returns (error: Option<string>)
    requires Ready(lib, source, samples, seen)
    ensures forall s :: s in Set(samples) && Quantiled(s) ==> ValidQuantile(lib.parse(s.labels["quantile"]))
    ensures error.None? <==> Summaries(lib, Set(samples))
  {
    hide Ready, Set, SummaryComplete, Summaries, Marked, MarkedBy, ValidSample, SummariesSoFar, Clash;
    error := None;
    var quantiles: map<string, set<real>> := map[];
    SoFarIsAll(lib, source, samples, seen);
    Unmarked(lib, samples);
    for i := 0 to |samples|
      invariant SummariesSoFar(lib, samples, i)
      invariant forall key, q :: Marked(lib, samples[..i], key, q) <==> key in quantiles && q in quantiles[key]
    {
      var s := samples[i];
      assert samples[..i + 1] == samples[..i] + [s];
      MarkedGrows(lib, samples[..i], s);
      StopsSummaries(lib, samples, i);
      if Quantiled(s) {
        Readied(lib, source, samples, seen, i);
        CompleteIff(lib, source, samples, seen, i);
        MarkMeansClash(lib, source, samples, seen, i);
        MarksIts(lib, s);
        if s.kind != "gauge" { return Some("invalid summary type"); }
        var labels := Without(s.labels, "quantile");
        var count := Key(lib, s.name + "_count", labels);
        if count !in seen || seen[count].kind != "counter" || !Integral(seen[count].value) {
          return Some("missing summary count");
        }
        if Key(lib, s.name + "_sum", labels) !in seen { return Some("missing summary sum"); }
        var key := Key(lib, s.name, labels);
        var quantile := Quantile(lib, s);
        var marked := if key in quantiles then quantiles[key] else {};
        if quantile in marked { return Some("duplicate summary quantile"); }
        quantiles := quantiles[key := marked + {quantile}];
      } else {
        NoMark(lib, s);
      }
    }
  }

  lemma Unmarked(lib: Library, samples: seq<Sample>)
    ensures SummariesSoFar(lib, samples, 0)
    ensures forall key, q :: !Marked(lib, samples[..0], key, q)
  {}

  lemma NoMark(lib: Library, s: Sample)
    requires !Quantiled(s)
    ensures forall key, q :: !MarkedBy(lib, s, key, q)
  {}

  lemma MarksIts(lib: Library, s: Sample)
    requires Quantiled(s) && ValidQuantile(lib.parse(s.labels["quantile"]))
    ensures forall key, q :: MarkedBy(lib, s, key, q)
              <==> key == Key(lib, s.name, Without(s.labels, "quantile")) && q == Quantile(lib, s)
  {}
}
