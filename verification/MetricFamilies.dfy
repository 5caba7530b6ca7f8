/** The first pass over a batch: every sample, no series twice, one kind for each name, and the budgets. */
module MetricFamilies {
  import opened MetricKeys
  import opened MetricModel
  import opened Options

  function Set(samples: seq<Sample>): set<Sample> { set s | s in samples }

  predicate NoSeriesTwice(samples: seq<Sample>) {
    forall i, j :: 0 <= i < j < |samples| ==> !SameSeries(samples[i], samples[j])
  }

  predicate Admissible(lib: Library, source: string, samples: seq<Sample>) {
    Each(lib, source, Set(samples)) && NoSeriesTwice(samples) && Families(Set(samples))
  }

  /** What one more sample must satisfy. */
  predicate Fits(lib: Library, source: string, samples: seq<Sample>, s: Sample) {
    && ValidSample(lib, source, s)
    && (forall t :: t in samples ==> !SameSeries(t, s) && (t.name == s.name ==> t.kind == s.kind))
    && |LabelNames(Set(samples + [s]), s.name)| <= MAX_LABELS
    && |Names(Set(samples + [s]))| <= MAX_FAMILIES
  }

  lemma SetGrows(samples: seq<Sample>, s: Sample)
    ensures Set(samples + [s]) == Set(samples) + {s}
    ensures Names(Set(samples + [s])) == Names(Set(samples)) + {s.name}
    ensures forall name :: LabelNames(Set(samples + [s]), name)
              == LabelNames(Set(samples), name) + (if name == s.name then s.labels.Keys else {})
  {
    assert Set(samples + [s]) == Set(samples) + {s};
    forall name ensures LabelNames(Set(samples + [s]), name)
                        == LabelNames(Set(samples), name) + (if name == s.name then s.labels.Keys else {}) {
      var before, after := LabelNames(Set(samples), name), LabelNames(Set(samples) + {s}, name);
      var more := if name == s.name then s.labels.Keys else {};
      forall key | key in before + more ensures key in after {
        if key in before {
          var t :| t in Set(samples) && t.name == name && key in t.labels;
          assert t in Set(samples) + {s};
        } else {
          assert s in Set(samples) + {s} && key in s.labels;
        }
      }
      assert after == before + more;
    }
  }

  lemma Fewer<T>(a: set<T>, b: set<T>)
    requires a <= b
    ensures |a| <= |b|
  {
    assert b == a + (b - a);
  }

  lemma FamiliesGrow(S: set<Sample>, s: Sample)
    requires Families(S + {s})
    requires Names(S) <= Names(S + {s}) && forall name :: LabelNames(S, name) <= LabelNames(S + {s}, name)
    ensures Families(S)
  {
    hide Names, LabelNames;
    Fewer(Names(S), Names(S + {s}));
    forall t | t in S ensures |LabelNames(S, t.name)| <= MAX_LABELS {
      assert t in S + {s};
      Fewer(LabelNames(S, t.name), LabelNames(S + {s}, t.name));
    }
    forall t, u | t in S && u in S && t.name == u.name ensures t.kind == u.kind {
      assert t in S + {s} && u in S + {s};
    }
  }

  lemma FamiliesFit(S: set<Sample>, s: Sample)
    requires Families(S) && |Names(S + {s})| <= MAX_FAMILIES && |LabelNames(S + {s}, s.name)| <= MAX_LABELS
    requires forall t :: t in S && t.name == s.name ==> t.kind == s.kind
    requires forall name :: name != s.name ==> LabelNames(S + {s}, name) == LabelNames(S, name)
    ensures Families(S + {s})
  {
    hide Names, LabelNames;
  }

  lemma AdmissibleStep(lib: Library, source: string, samples: seq<Sample>, s: Sample)
    ensures Admissible(lib, source, samples + [s])
            <==> Admissible(lib, source, samples) && Fits(lib, source, samples, s)
  {
    hide ValidSample, Names, LabelNames, Families, NoSeriesTwice, SameSeries;
    SetGrows(samples, s);
    var S, more := Set(samples), samples + [s];
    forall name | name != s.name ensures LabelNames(S + {s}, name) == LabelNames(S, name) {
      assert LabelNames(S + {s}, name) == LabelNames(S, name) + {};
    }
    SeriesStep(samples, s);
    if Admissible(lib, source, more) {
      FamiliesGrow(S, s);
      EachFamily(S + {s}, s);
      forall t | t in S ensures ValidSample(lib, source, t) {
        assert t in Set(more);
      }
    }
    if Admissible(lib, source, samples) && Fits(lib, source, samples, s) {
      FamiliesFit(S, s);
    }
  }

  lemma EachFamily(S: set<Sample>, s: Sample)
    requires Families(S) && s in S
    ensures |LabelNames(S, s.name)| <= MAX_LABELS && |Names(S)| <= MAX_FAMILIES
    ensures forall t :: t in S && t.name == s.name ==> t.kind == s.kind
  {}

  lemma SeriesStep(samples: seq<Sample>, s: Sample)
    ensures NoSeriesTwice(samples + [s])
            <==> NoSeriesTwice(samples) && forall t :: t in samples ==> !SameSeries(t, s)
  {
    var more := samples + [s];
    if NoSeriesTwice(more) {
      forall i, j | 0 <= i < j < |samples| ensures !SameSeries(samples[i], samples[j]) {
        assert more[i] == samples[i] && more[j] == samples[j];
      }
      forall t | t in samples ensures !SameSeries(t, s) {
        var i :| 0 <= i < |samples| && samples[i] == t;
        assert more[i] == t && more[|samples|] == s;
      }
    }
  }

  lemma {:induction false} AdmissiblePrefix(lib: Library, source: string, samples: seq<Sample>, i: nat)
    requires i <= |samples| && Admissible(lib, source, samples)
    ensures Admissible(lib, source, samples[..i])
    decreases |samples| - i
  {
    hide Admissible;
    if i == |samples| {
      assert samples[..i] == samples;
    } else {
      AdmissiblePrefix(lib, source, samples, i + 1);
      assert samples[..i + 1] == samples[..i] + [samples[i]];
      AdmissibleStep(lib, source, samples[..i], samples[i]);
    }
  }

  /** What the three tables hold after a prefix of the batch. */
  ghost predicate Tabled(lib: Library, samples: seq<Sample>, seen: Index, kinds: map<string, string>,
                         labelKeys: map<string, set<string>>) {
    && Indexes(lib, seen, samples)
    && kinds.Keys == Names(Set(samples))
    && labelKeys.Keys == Names(Set(samples))
    && (forall s :: s in samples ==> s.name in kinds && kinds[s.name] == s.kind)
    && (forall name :: name in labelKeys ==> labelKeys[name] == LabelNames(Set(samples), name))
  }

  lemma TabledStep(lib: Library, samples: seq<Sample>, s: Sample, seen: Index, kinds: map<string, string>,
                   labelKeys: map<string, set<string>>)
    requires Tabled(lib, samples, seen, kinds, labelKeys) && SeriesKey(lib, s) !in seen
    requires s.name in kinds ==> kinds[s.name] == s.kind
    ensures Tabled(lib, samples + [s], seen[SeriesKey(lib, s) := s], kinds[s.name := s.kind],
                   labelKeys[s.name := LabelsSeen(labelKeys, s)])
  {
    SetGrows(samples, s);
    hide Names, LabelNames, SeriesKey, Set;
    var seen' := seen[SeriesKey(lib, s) := s];
    forall i | 0 <= i < |samples + [s]| ensures IndexedAt(lib, seen', (samples + [s])[i]) {
      assert i < |samples| ==> IndexedAt(lib, seen, samples[i]);
    }
    if s.name !in labelKeys {
      NoLabelNames(samples, s.name);
    }
  }

  lemma NoLabelNames(samples: seq<Sample>, name: string)
    requires name !in Names(Set(samples))
    ensures LabelNames(Set(samples), name) == {}
  {
    assert forall s :: s in Set(samples) ==> s.name in Names(Set(samples));
  }

  /** A series is in the index exactly if the prefix has it. */
  lemma SeenIffSame(lib: Library, source: string, samples: seq<Sample>, seen: Index, kinds: map<string, string>,
                    labelKeys: map<string, set<string>>, s: Sample)
    requires Sound(lib) && Tabled(lib, samples, seen, kinds, labelKeys) && Admissible(lib, source, samples)
    requires Keyed(lib, s.name, s.labels)
    ensures SeriesKey(lib, s) in seen <==> exists t :: t in samples && SameSeries(t, s)
  {
    AllKeyed(lib, source, samples);
    Lookup(lib, seen, samples, s.name, s.labels);
  }

  lemma AllKeyed(lib: Library, source: string, samples: seq<Sample>)
    requires Each(lib, source, Set(samples))
    ensures forall s :: s in samples ==> Keyed(lib, s.name, s.labels)
  {
    forall s | s in samples ensures Keyed(lib, s.name, s.labels) {
      assert s in Set(samples);
      ValidIsKeyed(lib, source, s);
    }
  }

  function LabelsSeen(labelKeys: map<string, set<string>>, s: Sample): set<string> {
    (if s.name in labelKeys then labelKeys[s.name] else {}) + s.labels.Keys
  }

  /** One more sample keeps the batch admissible exactly if it passes the checks against the tables. */
  lemma Verdict(lib: Library, source: string, samples: seq<Sample>, s: Sample, seen: Index,
                kinds: map<string, string>, labelKeys: map<string, set<string>>)
    requires Sound(lib) && Admissible(lib, source, samples) && Tabled(lib, samples, seen, kinds, labelKeys)
    ensures Admissible(lib, source, samples + [s])
            <==> ValidSample(lib, source, s) && SeriesKey(lib, s) !in seen
                 && (s.name in kinds ==> kinds[s.name] == s.kind)
                 && |LabelsSeen(labelKeys, s)| <= MAX_LABELS && |kinds[s.name := s.kind]| <= MAX_FAMILIES
    ensures SeriesKey(lib, s) !in seen && (s.name in kinds ==> kinds[s.name] == s.kind) ==>
              Tabled(lib, samples + [s], seen[SeriesKey(lib, s) := s], kinds[s.name := s.kind],
                     labelKeys[s.name := LabelsSeen(labelKeys, s)])
  {
    hide Sound, ValidSample, SeriesKey, SameSeries, Keyed, Tabled, Admissible, Names, LabelNames, Set;
    AdmissibleStep(lib, source, samples, s);
    KindsMean(lib, samples, seen, kinds, labelKeys, s);
    if ValidSample(lib, source, s) {
      ValidIsKeyed(lib, source, s);
      SeenIffSame(lib, source, samples, seen, kinds, labelKeys, s);
    }
    if SeriesKey(lib, s) !in seen && (s.name in kinds ==> kinds[s.name] == s.kind) {
      TabledStep(lib, samples, s, seen, kinds, labelKeys);
      BudgetsMean(lib, samples + [s], seen[SeriesKey(lib, s) := s], kinds[s.name := s.kind],
                  labelKeys[s.name := LabelsSeen(labelKeys, s)], s);
    }
  }

  lemma BudgetsMean(lib: Library, samples: seq<Sample>, seen: Index, kinds: map<string, string>,
                    labelKeys: map<string, set<string>>, s: Sample)
    requires Tabled(lib, samples, seen, kinds, labelKeys) && s.name in labelKeys
    ensures |kinds| == |Names(Set(samples))| && labelKeys[s.name] == LabelNames(Set(samples), s.name)
  {
    assert |kinds| == |kinds.Keys|;
  }

  method Collect(lib: Library, source: string, samples: seq<Sample>) returns (error: Option<string>, seen: Index)
    requires Sound(lib)
    ensures error.None? <==> Admissible(lib, source, samples)
    ensures error.None? ==> Indexes(lib, seen, samples)
  {
    hide Admissible, ValidSample, Sound, Indexes, Set, Names, LabelNames;
    error, seen := None, map[];
    var kinds: map<string, string> := map[];
    var labelKeys: map<string, set<string>> := map[];
    EmptyTables(lib, source);
    for i := 0 to |samples|
      invariant Admissible(lib, source, samples[..i])
      invariant Tabled(lib, samples[..i], seen, kinds, labelKeys)
    {
      var s := samples[i];
      assert samples[..i + 1] == samples[..i] + [s];
      StopsHere(lib, source, samples, i);
      Verdict(lib, source, samples[..i], s, seen, kinds, labelKeys);
      if !ValidSample(lib, source, s) { return Some("invalid metric sample"), seen; }
      var key := Key(lib, s.name, s.labels);
      if key in seen { return Some("duplicate metric series"), seen; }
      if s.name in kinds && kinds[s.name] != s.kind { return Some("conflicting metric types"), seen; }
      kinds := kinds[s.name := s.kind];
      labelKeys := labelKeys[s.name := LabelsSeen(labelKeys, s)];
      if |labelKeys[s.name]| > MAX_LABELS || |kinds| > MAX_FAMILIES {
        return Some("invalid metric family budget"), seen;
      }
      seen := seen[key := s];
    }
    assert samples[..|samples|] == samples;
  }

  lemma EmptyTables(lib: Library, source: string)
    ensures Admissible(lib, source, []) && Tabled(lib, [], map[], map[], map[])
  {
    assert Set([]) == {};
  }

  /** One sample that does not fit refuses the whole batch. */
  lemma StopsHere(lib: Library, source: string, samples: seq<Sample>, i: nat)
    requires i < |samples|
    ensures Admissible(lib, source, samples) ==> Admissible(lib, source, samples[..i + 1])
  {
    hide Admissible;
    if Admissible(lib, source, samples) {
      AdmissiblePrefix(lib, source, samples, i + 1);
    }
  }

  lemma KindsMean(lib: Library, samples: seq<Sample>, seen: Index, kinds: map<string, string>,
                  labelKeys: map<string, set<string>>, s: Sample)
    requires Tabled(lib, samples, seen, kinds, labelKeys)
    ensures (s.name in kinds ==> kinds[s.name] == s.kind)
            <==> forall t :: t in samples && t.name == s.name ==> t.kind == s.kind
  {
    if s.name in kinds {
      var t :| t in Set(samples) && t.name == s.name;
      assert t in samples && kinds[t.name] == t.kind;
    }
  }
}
