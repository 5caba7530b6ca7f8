/**
 Metric samples and what makes a batch of them acceptable, said of the batch as a whole: as a multiset, without
 an order. A string stands for its bytes; sample values are real numbers, since NaN and infinities are refused.
 */
module MetricModel {
  import opened LabelText
  import opened Options

  const MAX_FAMILIES: nat := 512
  const MAX_SAMPLES: nat := 8192
  const MAX_LABELS: nat := 16
  const MAX_NAME: nat := 128
  const MAX_LABEL_NAME: nat := 64
  const MAX_LABEL_VALUE: nat := 256

  datatype Number = Finite(value: real) | Infinity | MinusInfinity | NaN

  datatype Sample = Sample(name: string, kind: string, labels: Labels, value: real)

  /** What the standard library contributes: reading a float, encoding a label map, recognising UTF-8. */
  datatype Library = Library(parse: string -> Option<Number>, encode: Labels -> string, utf8: string -> bool)

  /** Label maps as the validator lets them through: names that match the pattern, values in UTF-8. */
  predicate Encodable(lib: Library, labels: Labels) {
    forall key :: key in labels ==> Matches(key) && lib.utf8(labels[key])
  }

  ghost predicate Encoded(labels: Labels, text: string) {
    exists keys :: Lists(keys, labels) && text == ObjectText(keys, labels)
  }

  /** Such a map is encoded as its JSON object. Of other maps nothing is said: their text loses invalid bytes. */
  ghost predicate Sound(lib: Library) {
    forall labels :: Encodable(lib, labels) ==> Encoded(labels, lib.encode(labels))
  }

  predicate HasPrefix(s: string, t: string) { t <= s }

  predicate HasSuffix(s: string, t: string) { |t| <= |s| && s[|s| - |t|..] == t }

  function TrimSuffix(s: string, t: string): string {
    if HasSuffix(s, t) then s[..|s| - |t|] else s
  }

  predicate Letter(c: char) { 'a' <= c <= 'z' || 'A' <= c <= 'Z' || c == '_' }

  predicate Matches(name: string) {
    && name != "" && Letter(name[0])
    && forall i :: 0 <= i < |name| ==> Letter(name[i]) || '0' <= name[i] <= '9'
  }

  function Underscored(s: string): string { seq(|s|, i requires 0 <= i < |s| => if s[i] == '-' then '_' else s[i]) }

  predicate ValidName(source: string, name: string) {
    if source == "node" && HasPrefix(name, "node_") then |name| > |"node_"| && |name| <= MAX_NAME && Matches(name)
    else
      var prefix := "gopulse_" + Underscored(source) + "_";
      |name| <= MAX_NAME && Matches(name) && HasPrefix(name, prefix) && |name| > |prefix|
  }

  predicate ValidKind(kind: string) { kind == "gauge" || kind == "counter" }

  predicate ValidLabel(lib: Library, key: string, value: string) {
    && |key| <= MAX_LABEL_NAME && Matches(key) && !HasPrefix(key, "__")
    && lib.utf8(value) && |value| <= MAX_LABEL_VALUE && '\0' !in value
    && key !in {"source", "target_id", "producer_kind", "producer_id", "producer_version"}
  }

  predicate ValidLabels(lib: Library, labels: Labels) {
    |labels| <= MAX_LABELS && forall key :: key in labels ==> ValidLabel(lib, key, labels[key])
  }

  predicate Integral(v: real) { v == v.Floor as real }

  predicate ValidQuantile(n: Option<Number>) { n.Some? && n.value.Finite? && 0.0 <= n.value.value <= 1.0 }

  predicate ValidBound(n: Option<Number>) { n.Some? && (n.value.Finite? || n.value.Infinity?) }

  /** A bucket without a bound would read the empty text, which is no number. */
  predicate ValidSample(lib: Library, source: string, s: Sample) {
    && ValidName(source, s.name) && ValidKind(s.kind) && ValidLabels(lib, s.labels)
    && (s.kind == "counter" ==> s.value >= 0.0)
    && ("quantile" in s.labels ==> ValidQuantile(lib.parse(s.labels["quantile"])))
    && (HasSuffix(s.name, "_bucket") ==>
          "le" in s.labels && ValidBound(lib.parse(s.labels["le"])) && s.kind == "counter" && Integral(s.value))
  }

  // Families.

  predicate SameSeries(s: Sample, t: Sample) { s.name == t.name && s.labels == t.labels }

  function Names(S: set<Sample>): set<string> { set s | s in S :: s.name }

  function LabelNames(S: set<Sample>, name: string): set<string> {
    set s, key | s in S && s.name == name && key in s.labels :: key
  }

  predicate Families(S: set<Sample>) {
    && (forall s, t :: s in S && t in S && s.name == t.name ==> s.kind == t.kind)
    && |Names(S)| <= MAX_FAMILIES
    && (forall s :: s in S ==> |LabelNames(S, s.name)| <= MAX_LABELS)
  }

  predicate Has(S: set<Sample>, name: string, labels: Labels) {
    exists s :: s in S && s.name == name && s.labels == labels
  }

  /** The series is a counter with a whole value. */
  predicate Counts(c: Sample, name: string, labels: Labels) {
    c.name == name && c.labels == labels && c.kind == "counter" && Integral(c.value)
  }

  // Summaries: samples with a quantile.

  predicate Quantiled(s: Sample) { "quantile" in s.labels }

  function Without(labels: Labels, key: string): Labels { labels - {key} }

  function Quantile(lib: Library, s: Sample): real
    requires Quantiled(s) && ValidQuantile(lib.parse(s.labels["quantile"]))
  {
    lib.parse(s.labels["quantile"]).value.value
  }

  predicate SummaryComplete(S: set<Sample>, s: Sample) {
    var labels := Without(s.labels, "quantile");
    && s.kind == "gauge"
    && (exists c :: c in S && Counts(c, s.name + "_count", labels))
    && Has(S, s.name + "_sum", labels)
  }

  /** Two samples of one summary that give the same quantile, however it is spelled. */
  predicate SameQuantile(lib: Library, s: Sample, t: Sample)
    requires Quantiled(s) && ValidQuantile(lib.parse(s.labels["quantile"]))
    requires Quantiled(t) && ValidQuantile(lib.parse(t.labels["quantile"]))
  {
    && s.name == t.name && Without(s.labels, "quantile") == Without(t.labels, "quantile")
    && Quantile(lib, s) == Quantile(lib, t)
  }

  predicate Summaries(lib: Library, S: set<Sample>)
    requires forall s :: s in S && Quantiled(s) ==> ValidQuantile(lib.parse(s.labels["quantile"]))
  {
    && (forall s :: s in S && Quantiled(s) ==> SummaryComplete(S, s))
    && (forall s, t :: s in S && t in S && Quantiled(s) && Quantiled(t) && SameQuantile(lib, s, t) ==> s == t)
  }

  // Histograms: the buckets of one name and one set of labels.

  predicate Bucket(s: Sample) { HasSuffix(s.name, "_bucket") && "le" in s.labels }

  function Family(s: Sample): string { TrimSuffix(s.name, "_bucket") }

  predicate InHistogram(s: Sample, name: string, labels: Labels) {
    Bucket(s) && Family(s) == name && Without(s.labels, "le") == labels
  }

  function BoundOf(lib: Library, s: Sample): Number
    requires Bucket(s) && ValidBound(lib.parse(s.labels["le"]))
    ensures BoundOf(lib, s).Finite? || BoundOf(lib, s).Infinity?
  {
    lib.parse(s.labels["le"]).value
  }

  predicate Below(a: Number, b: Number)
    requires (a.Finite? || a.Infinity?) && (b.Finite? || b.Infinity?)
  {
    a.Finite? && (b.Infinity? || a.value < b.value)
  }

  /** Two buckets of one histogram: their bounds differ, and the higher one counts no less. */
  predicate Stacked(a: Number, m: real, b: Number, n: real)
    requires (a.Finite? || a.Infinity?) && (b.Finite? || b.Infinity?)
  {
    a != b && (Below(a, b) ==> m <= n) && (Below(b, a) ==> n <= m)
  }

  ghost predicate Bounded(lib: Library, S: set<Sample>) {
    forall s :: s in S && Bucket(s) ==> ValidBound(lib.parse(s.labels["le"]))
  }

  /** Bounds are distinct, counts do not fall as the bound rises, and the +Inf bucket holds the count. */
  ghost predicate Histogram(lib: Library, S: set<Sample>, name: string, labels: Labels)
    requires Bounded(lib, S)
  {
    && Has(S, name + "_sum", labels)
    && (exists c :: c in S && Counts(c, name + "_count", labels) && Topped(lib, S, name, labels, c.value))
    && Cumulative(lib, S, name, labels)
  }

  ghost predicate Cumulative(lib: Library, S: set<Sample>, name: string, labels: Labels)
    requires Bounded(lib, S)
  {
    forall s, t :: s in S && t in S && InHistogram(s, name, labels) && InHistogram(t, name, labels) && s != t ==>
      Stacked(BoundOf(lib, s), s.value, BoundOf(lib, t), t.value)
  }

  ghost predicate Topped(lib: Library, S: set<Sample>, name: string, labels: Labels, count: real)
    requires Bounded(lib, S)
  {
    exists s :: s in S && InHistogram(s, name, labels) && BoundOf(lib, s) == Infinity && s.value == count
  }

  ghost predicate Histograms(lib: Library, S: set<Sample>)
    requires Bounded(lib, S)
  {
    forall s :: s in S && Bucket(s) ==> Histogram(lib, S, Family(s), Without(s.labels, "le"))
  }

  // The batch.

  predicate Each(lib: Library, source: string, S: set<Sample>) {
    forall s :: s in S ==> ValidSample(lib, source, s)
  }

  ghost predicate Acceptable(lib: Library, source: string, batch: multiset<Sample>) {
    var S := set s | s in batch;
    && 1 <= |batch| <= MAX_SAMPLES
    && Each(lib, source, S)
    && (forall s :: s in batch ==> batch[s] == 1)
    && (forall s, t :: s in S && t in S && SameSeries(s, t) ==> s == t)
    && Families(S) && Summaries(lib, S) && Histograms(lib, S)
  }
}
