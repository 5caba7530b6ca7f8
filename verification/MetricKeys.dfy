/** The text that stands for a series: a name followed by its encoded labels. For valid samples it is injective. */
module MetricKeys {
  import opened LabelText
  import opened MetricModel
  import opened Options

  function Key(lib: Library, name: string, labels: Labels): string { name + lib.encode(labels) }

  function SeriesKey(lib: Library, s: Sample): string { Key(lib, s.name, s.labels) }

  /** The assumption on the library can be met, whatever its reader and its idea of UTF-8. */
  lemma SoundLibrary(parse: string -> Option<Number>, utf8: string -> bool) returns (lib: Library)
    ensures Sound(lib) && lib.parse == parse && lib.utf8 == utf8
  {
    hide Body;
    lib := Library(parse, (labels: Labels) => ObjectText(Listing(labels.Keys), labels), utf8);
    forall labels ensures Encoded(labels, lib.encode(labels)) {
      assert Lists(Listing(labels.Keys), labels);
    }
  }

  predicate Plain(name: string) { '{' !in name }

  /** A name and labels that the text key keeps apart. */
  predicate Keyed(lib: Library, name: string, labels: Labels) { Plain(name) && Encodable(lib, labels) }

  lemma ValidIsKeyed(lib: Library, source: string, s: Sample)
    requires ValidSample(lib, source, s)
    ensures Keyed(lib, s.name, s.labels)
  {}

  lemma KeyedWithout(lib: Library, name: string, labels: Labels, key: string, name': string)
    requires Keyed(lib, name, labels) && Plain(name')
    ensures Keyed(lib, name', Without(labels, key))
  {}

  lemma KeyedRenamed(lib: Library, name: string, labels: Labels, name': string)
    requires Keyed(lib, name, labels) && Plain(name')
    ensures Keyed(lib, name', labels)
  {}

  /** The first brace is where the name ends, and the rest is the JSON object of the labels. */
  lemma KeyInjective(lib: Library, name: string, labels: Labels, name': string, labels': Labels)
    requires Sound(lib) && Keyed(lib, name, labels) && Keyed(lib, name', labels')
    requires Key(lib, name, labels) == Key(lib, name', labels')
    ensures name == name' && labels == labels'
  {
    var key, e, e' := Key(lib, name, labels), lib.encode(labels), lib.encode(labels');
    assert Encoded(labels, e) && Encoded(labels', e');
    var keys :| Lists(keys, labels) && e == ObjectText(keys, labels);
    var keys' :| Lists(keys', labels') && e' == ObjectText(keys', labels');
    hide Body;
    assert key[|name|] == e[0] == '{' && key[|name'|] == e'[0] == '{';
    assert key[..|name|] == name && key[..|name'|] == name';
    assert key[|name|..] == e && key[|name'|..] == e';
    ObjectOnce(keys, labels, keys', labels');
  }

  // The index of all samples by key.

  type Index = map<string, Sample>

  ghost predicate Indexes(lib: Library, seen: Index, samples: seq<Sample>) {
    && (forall i :: 0 <= i < |samples| ==> IndexedAt(lib, seen, samples[i]))
    && (forall key :: key in seen ==> seen[key] in samples && SeriesKey(lib, seen[key]) == key)
  }

  predicate IndexedAt(lib: Library, seen: Index, s: Sample) {
    var key := SeriesKey(lib, s);
    key in seen && seen[key] == s
  }

  /** Looking a series up finds it if and only if it is there. */
  lemma Lookup(lib: Library, seen: Index, samples: seq<Sample>, name: string, labels: Labels)
    requires Sound(lib) && Indexes(lib, seen, samples) && Keyed(lib, name, labels)
    requires forall s :: s in samples ==> Keyed(lib, s.name, s.labels)
    ensures var key := Key(lib, name, labels);
            && (key in seen <==> exists s :: s in samples && s.name == name && s.labels == labels)
            && (forall s :: s in samples && s.name == name && s.labels == labels ==> key in seen && seen[key] == s)
            && (key in seen ==> seen[key].name == name && seen[key].labels == labels && seen[key] in samples)
  {
    var key := Key(lib, name, labels);
    if key in seen {
      KeyInjective(lib, seen[key].name, seen[key].labels, name, labels);
    }
    forall s | s in samples && s.name == name && s.labels == labels ensures key in seen && seen[key] == s {
      var i :| 0 <= i < |samples| && samples[i] == s;
      assert IndexedAt(lib, seen, samples[i]);
    }
  }

  // A sequence without repetition is a multiset without repetition.

  predicate NoRepeats<T(==)>(xs: seq<T>) {
    forall i, j :: 0 <= i < j < |xs| ==> xs[i] != xs[j]
  }

  lemma {:induction false} NoRepeatsMultiset<T>(xs: seq<T>)
    ensures NoRepeats(xs) <==> forall x :: x in multiset(xs) ==> multiset(xs)[x] == 1
  {
    if xs != [] {
      var front, last := xs[..|xs| - 1], xs[|xs| - 1];
      assert xs == front + [last];
      NoRepeatsMultiset(front);
      if NoRepeats(xs) {
        assert NoRepeats(front);
        assert last !in front;
        assert last !in multiset(front);
      } else if NoRepeats(front) {
        var i, j :| 0 <= i < j < |xs| && xs[i] == xs[j];
        assert j == |front|;
        assert front[i] == last;
        assert last in multiset(front);
        assert multiset(xs)[last] >= 2;
      } else {
        var x :| x in multiset(front) && multiset(front)[x] != 1;
        assert x in multiset(xs) && multiset(xs)[x] != 1;
      }
    }
  }
}
