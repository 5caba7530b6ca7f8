/** The validator: three passes over the batch. */
module MetricContract {
  import opened MetricFamilies
  import opened MetricHistograms
  import opened MetricKeys
  import opened MetricModel
  import opened MetricSummaries
  import opened Options

  /** The three passes together say what is said of the batch without an order. */
  lemma PassesMean(lib: Library, source: string, samples: seq<Sample>)
    requires Sound(lib)
    ensures Acceptable(lib, source, multiset(samples))
            <==> 1 <= |samples| <= MAX_SAMPLES && Admissible(lib, source, samples)
                 && Summaries(lib, Set(samples)) && Histograms(lib, Set(samples))
  {
    hide Each, Families, Summaries, Histograms, SameSeries, Sound;
    assert Set(samples) == set s | s in multiset(samples);
    Uniqueness(samples);
  }

  lemma Uniqueness(samples: seq<Sample>)
    ensures NoSeriesTwice(samples)
            <==> (forall s :: s in multiset(samples) ==> multiset(samples)[s] == 1)
                 && (forall s, t :: s in Set(samples) && t in Set(samples) && SameSeries(s, t) ==> s == t)
  {
    NoRepeatsMultiset(samples);
    if NoSeriesTwice(samples) {
      forall i, j | 0 <= i < j < |samples| ensures samples[i] != samples[j] {
        assert !SameSeries(samples[i], samples[j]);
      }
      forall s, t | s in Set(samples) && t in Set(samples) && SameSeries(s, t) ensures s == t {
        var i :| 0 <= i < |samples| && samples[i] == s;
        var j :| 0 <= j < |samples| && samples[j] == t;
      }
    }
    if NoRepeats(samples) && forall s, t :: s in Set(samples) && t in Set(samples) && SameSeries(s, t) ==> s == t {
      forall i, j | 0 <= i < j < |samples| ensures !SameSeries(samples[i], samples[j]) {
        assert samples[i] in Set(samples) && samples[j] in Set(samples);
      }
    }
  }

  /**
   The validator accepts exactly the acceptable batches. Since a batch is acceptable or not as a multiset,
   the order of the samples never decides, only which error is reported first.
   */
  method Validate(lib: Library, source: string, samples: seq<Sample>) returns (error: Option<string>)
    requires Sound(lib)
    ensures error.None? <==> Acceptable(lib, source, multiset(samples))
  {
    PassesMean(lib, source, samples);
    hide Sound, Acceptable, Admissible, Summaries, Histograms, Indexes;
    if |samples| == 0 || |samples| > MAX_SAMPLES { return Some("invalid metric sample budget"); }
    var seen: Index;
    error, seen := Collect(lib, source, samples);
    if error.Some? { return error; }
    error := CheckSummaries(lib, source, samples, seen);
    if error.Some? { return error; }
    error := CheckBuckets(lib, source, samples, seen);
  }

  // What a sample is refused for.

  predicate BadWord(name: string) {
    || name == "" || '0' <= name[0] <= '9'
    || exists i :: 0 <= i < |name| && !('a' <= name[i] <= 'z' || 'A' <= name[i] <= 'Z' || '0' <= name[i] <= '9'
                                        || name[i] == '_')
  }

  predicate StartsLonger(name: string, prefix: string) { |name| > |prefix| && name[..|prefix|] == prefix }

  predicate BadName(source: string, name: string) {
    || |name| > 128 || BadWord(name)
    || !(StartsLonger(name, "gopulse_" + Underscored(source) + "_")
         || (source == "node" && StartsLonger(name, "node_")))
  }

  predicate BadLabel(lib: Library, key: string, value: string) {
    || |key| > 64 || BadWord(key) || |value| > 256 || !lib.utf8(value)
    || (exists i :: 0 <= i < |value| && value[i] == '\0')
    || (|key| >= 2 && key[0] == '_' && key[1] == '_')
    || key == "source" || key == "target_id" || key == "producer_kind" || key == "producer_id"
    || key == "producer_version"
  }

  predicate BadQuantile(n: Option<Number>) {
    match n
    case Some(Finite(q)) => q < 0.0 || q > 1.0
    case _ => true
  }

  predicate BadBucket(lib: Library, s: Sample) {
    || "le" !in s.labels || s.kind != "counter" || s.value != s.value.Floor as real
    || (match lib.parse(s.labels["le"])
        case Some(Finite(_)) => false
        case Some(Infinity) => false
        case _ => true)
  }

  /** Every defect for which a sample is refused, and there is no other. */
  lemma RefusedSamples(lib: Library, source: string, s: Sample)
    ensures !ValidSample(lib, source, s) <==>
              || BadName(source, s.name)
              || (s.kind != "gauge" && s.kind != "counter")
              || |s.labels| > 16 || (exists key :: key in s.labels && BadLabel(lib, key, s.labels[key]))
              || (s.kind == "counter" && s.value < 0.0)
              || ("quantile" in s.labels && BadQuantile(lib.parse(s.labels["quantile"])))
              || (|s.name| >= 7 && s.name[|s.name| - 7..] == "_bucket" && BadBucket(lib, s))
  {
    WordMeans(s.name);
    NameMeans(source, s.name);
    forall key | key in s.labels ensures BadLabel(lib, key, s.labels[key]) <==> !ValidLabel(lib, key, s.labels[key]) {
      LabelMeans(lib, key, s.labels[key]);
    }
    hide BadLabel, ValidLabel, BadName, ValidName, Matches;
  }

  lemma WordMeans(name: string)
    ensures BadWord(name) <==> !Matches(name)
  {}

  lemma NameMeans(source: string, name: string)
    ensures BadName(source, name) <==> !ValidName(source, name)
  {
    WordMeans(name);
    hide Matches, BadWord, Underscored;
    assert StartsLonger(name, "node_") <==> HasPrefix(name, "node_") && |name| > 5;
  }

  lemma LabelMeans(lib: Library, key: string, value: string)
    ensures BadLabel(lib, key, value) <==> !ValidLabel(lib, key, value)
  {
    WordMeans(key);
    hide Matches, BadWord;
    assert HasPrefix(key, "__") <==> |key| >= 2 && key[0] == '_' && key[1] == '_';
  }
}
