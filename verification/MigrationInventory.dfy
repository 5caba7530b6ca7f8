/** The embedded migration files: numbered from one without a gap, each with an up and a down file of one title. */
module MigrationInventory {
  import opened Numbers
  import opened Options

  /** A directory entry. `blank` says that the file cannot be read or holds nothing but white space. */
  datatype Entry = Directory | File(name: string, blank: bool)

  datatype Name = Name(version: nat, title: string, up: bool)

  predicate EndsIn(s: string, t: string) { |t| <= |s| && s[|s| - |t|..] == t }

  /** Six digits, an underscore, a title on one line, and the direction. */
  function Parse(name: string): (r: Option<Name>)
    ensures r.Some? ==> r.value.title != ""
  {
    if |name| < 7 || (exists i :: 0 <= i < 6 && !Digit(name[i])) || name[6] != '_' then None
    else
      var suffix := if EndsIn(name, ".up.sql") then ".up.sql" else ".down.sql";
      if !EndsIn(name, suffix) || |name| <= 7 + |suffix| then None
      else
        var title := name[7..|name| - |suffix|];
        if '\n' in title then None else Some(Name(Number(name[..6]), title, suffix == ".up.sql"))
  }

  function Suffix(up: bool): string { if up then ".up.sql" else ".down.sql" }

  predicate Numbering(digits: string, version: nat) {
    |digits| == 6 && AllDigits(digits) && Number(digits) == version
  }

  /** The names that are read are those put together from six digits, a title on one line and a direction. */
  lemma ParseExact(name: string, version: nat, title: string, up: bool)
    ensures Parse(name) == Some(Name(version, title, up))
            <==> && title != "" && (forall i :: 0 <= i < |title| ==> title[i] != '\n')
                 && exists digits :: Numbering(digits, version) && name == digits + "_" + title + Suffix(up)
  {
    hide Number, Parse;
    if Parse(name) == Some(Name(version, title, up)) {
      ParseTake(name, version, title, up);
    }
    if title != "" && (forall i :: 0 <= i < |title| ==> title[i] != '\n')
       && exists digits :: Numbering(digits, version) && name == digits + "_" + title + Suffix(up) {
      var digits :| Numbering(digits, version) && name == digits + "_" + title + Suffix(up);
      ParsePut(name, digits, title, up);
    }
  }

  lemma CutName(name: string, suffix: string)
    requires |name| > 7 + |suffix| && EndsIn(name, suffix) && name[6] == '_'
    ensures name == name[..6] + "_" + name[7..|name| - |suffix|] + suffix
  {
    var n := |name| - |suffix|;
    assert name == name[..n] + name[n..];
    assert name[..n] == name[..6] + [name[6]] + name[7..n];
  }

  lemma ParseTake(name: string, version: nat, title: string, up: bool)
    requires Parse(name) == Some(Name(version, title, up))
    ensures title != "" && '\n' !in title && |name| > 6
    ensures Numbering(name[..6], version) && name == name[..6] + "_" + title + Suffix(up)
  {
    hide Number;
    assert EndsIn(name, Suffix(up)) && title == name[7..|name| - |Suffix(up)|];
    CutName(name, Suffix(up));
  }

  lemma ParsePut(name: string, digits: string, title: string, up: bool)
    requires |digits| == 6 && AllDigits(digits) && title != "" && '\n' !in title
    requires name == digits + "_" + title + Suffix(up)
    ensures Parse(name) == Some(Name(Number(digits), title, up))
  {
    hide Number;
    var suffix := Suffix(up);
    assert name[..6] == digits && name[6] == '_';
    assert name[|name| - |suffix|..] == suffix && name[7..|name| - |suffix|] == title;
    if !up {
      assert name[|name| - 7..] == suffix[2..];
      assert suffix[2..][0] == 'o';
    }
  }

  /** The same number and the same direction, by name. */
  ghost predicate Twins(a: Entry, b: Entry) {
    && a.File? && b.File? && Parse(a.name).Some? && Parse(b.name).Some?
    && Parse(a.name).value.version == Parse(b.name).value.version && Parse(a.name).value.up == Parse(b.name).value.up
  }

  predicate Good(e: Entry) {
    e.Directory? || (Parse(e.name).Some? && Parse(e.name).value.version >= 1 && !e.blank)
  }

  predicate Holds(e: Entry, version: nat, up: bool, title: string) {
    e.File? && Parse(e.name) == Some(Name(version, title, up))
  }

  ghost predicate Listed(entries: seq<Entry>, version: nat, up: bool, title: string) {
    exists i :: 0 <= i < |entries| && Holds(entries[i], version, up, title)
  }

  ghost predicate Numbered(entries: seq<Entry>, version: nat) {
    exists up, title :: Listed(entries, version, up, title)
  }

  ghost predicate Paired(entries: seq<Entry>, version: nat) {
    exists title :: Listed(entries, version, true, title) && Listed(entries, version, false, title)
  }

  ghost predicate Readable(entries: seq<Entry>) {
    && (forall i :: 0 <= i < |entries| ==> Good(entries[i]))
    && (forall i, j :: 0 <= i < j < |entries| ==> !Twins(entries[i], entries[j]))
  }

  /** The inventory is complete up to n: exactly the numbers 1 to n, each a matching pair. */
  ghost predicate Complete(entries: seq<Entry>, n: nat) {
    && n >= 1 && Readable(entries)
    && (forall v: nat :: Numbered(entries, v) <==> 1 <= v <= n)
    && (forall v :: 1 <= v <= n ==> Paired(entries, v))
  }

  datatype Pair = Pair(up: string, down: string)

  function TitleOf(pairs: map<nat, Pair>, version: nat, up: bool): string {
    if version !in pairs then "" else if up then pairs[version].up else pairs[version].down
  }

  /** The table of pairs after a prefix of the directory. */
  ghost predicate Tabled(entries: seq<Entry>, pairs: map<nat, Pair>) {
    && (forall v, up, title :: Listed(entries, v, up, title) <==> title != "" && TitleOf(pairs, v, up) == title)
    && (forall v :: v in pairs ==> Numbered(entries, v) && v >= 1)
  }

  lemma ListedGrows(entries: seq<Entry>, e: Entry)
    ensures forall v, up, title :: Listed(entries + [e], v, up, title)
              <==> Listed(entries, v, up, title) || Holds(e, v, up, title)
  {
    var more := entries + [e];
    forall v, up, title | Listed(entries, v, up, title) ensures Listed(more, v, up, title) {
      var i :| 0 <= i < |entries| && Holds(entries[i], v, up, title);
      assert Holds(more[i], v, up, title);
    }
    forall v, up, title | Holds(e, v, up, title) ensures Listed(more, v, up, title) {
      assert Holds(more[|entries|], v, up, title);
    }
  }

  lemma TabledSkip(entries: seq<Entry>, e: Entry, pairs: map<nat, Pair>)
    requires Tabled(entries, pairs) && e.Directory?
    ensures Tabled(entries + [e], pairs)
  {
    ListedGrows(entries, e);
    hide Listed, Numbered;
    forall v | v in pairs ensures Numbered(entries + [e], v) {
      NumberedGrows(entries, e, v);
    }
  }

  function Put(pairs: map<nat, Pair>, n: Name): map<nat, Pair> {
    var pair := if n.version in pairs then pairs[n.version] else Pair("", "");
    pairs[n.version := if n.up then pair.(up := n.title) else pair.(down := n.title)]
  }

  lemma PutTitles(pairs: map<nat, Pair>, n: Name)
    ensures forall v, up :: TitleOf(Put(pairs, n), v, up)
              == if v == n.version && up == n.up then n.title else TitleOf(pairs, v, up)
    ensures Put(pairs, n).Keys == pairs.Keys + {n.version}
  {}

  lemma TabledPoint(entries: seq<Entry>, e: Entry, n: Name, pairs: map<nat, Pair>, v: nat, up: bool, title: string)
    requires Tabled(entries, pairs) && e.File? && Parse(e.name) == Some(n) && n.title != ""
    requires TitleOf(pairs, n.version, n.up) == ""
    ensures Listed(entries + [e], v, up, title) <==> title != "" && TitleOf(Put(pairs, n), v, up) == title
  {
    hide Listed, Parse, TitleOf, Put, Numbered;
    ListedGrows(entries, e);
    PutTitles(pairs, n);
    assert Listed(entries, v, up, title) <==> title != "" && TitleOf(pairs, v, up) == title;
  }

  lemma TabledStep(entries: seq<Entry>, e: Entry, n: Name, pairs: map<nat, Pair>)
    requires Tabled(entries, pairs) && e.File? && Parse(e.name) == Some(n) && n.version >= 1 && n.title != ""
    requires TitleOf(pairs, n.version, n.up) == ""
    ensures Tabled(entries + [e], Put(pairs, n))
  {
    forall v, up, title
      ensures Listed(entries + [e], v, up, title) <==> title != "" && TitleOf(Put(pairs, n), v, up) == title
    {
      TabledPoint(entries, e, n, pairs, v, up, title);
    }
    KeysStay(entries, e, n, pairs);
  }

  lemma KeysStay(entries: seq<Entry>, e: Entry, n: Name, pairs: map<nat, Pair>)
    requires Tabled(entries, pairs) && e.File? && Parse(e.name) == Some(n) && n.version >= 1 && n.title != ""
    ensures forall v :: v in Put(pairs, n) ==> Numbered(entries + [e], v) && v >= 1
  {
    hide Listed, Parse, TitleOf, Put, Numbered;
    PutTitles(pairs, n);
    forall v | v in Put(pairs, n) ensures Numbered(entries + [e], v) {
      if v == n.version {
        HoldsIts(e, n);
        ListedGrows(entries, e);
        ListedNumbered(entries + [e], v, n.up, n.title);
      } else {
        NumberedGrows(entries, e, v);
      }
    }
  }

  lemma HoldsIts(e: Entry, n: Name)
    requires e.File? && Parse(e.name) == Some(n)
    ensures forall v, up, title :: Holds(e, v, up, title) <==> v == n.version && up == n.up && title == n.title
  {}

  lemma ListedNumbered(entries: seq<Entry>, v: nat, up: bool, title: string)
    requires Listed(entries, v, up, title)
    ensures Numbered(entries, v)
  {}

  lemma NumberedGrows(entries: seq<Entry>, e: Entry, v: nat)
    requires Numbered(entries, v)
    ensures Numbered(entries + [e], v)
  {
    ListedGrows(entries, e);
    hide Listed;
    var up, title :| Listed(entries, v, up, title);
    assert Listed(entries + [e], v, up, title);
  }

  /** A title is already there exactly if an earlier file has the same number and direction. */
  lemma TwinIffTitled(entries: seq<Entry>, e: Entry, n: Name, pairs: map<nat, Pair>)
    requires Tabled(entries, pairs) && e.File? && Parse(e.name) == Some(n)
    ensures TitleOf(pairs, n.version, n.up) != "" <==> exists i :: 0 <= i < |entries| && Twins(entries[i], e)
  {
    var title := TitleOf(pairs, n.version, n.up);
    if title != "" {
      assert Listed(entries, n.version, n.up, title);
      var i :| 0 <= i < |entries| && Holds(entries[i], n.version, n.up, title);
      assert Twins(entries[i], e);
    }
    if exists i :: 0 <= i < |entries| && Twins(entries[i], e) {
      var i :| 0 <= i < |entries| && Twins(entries[i], e);
      var t := Parse(entries[i].name).value.title;
      assert Holds(entries[i], n.version, n.up, t);
      assert Listed(entries, n.version, n.up, t);
    }
  }

  // The pigeonhole.

  function UpTo(n: nat): set<nat> { if n == 0 then {} else UpTo(n - 1) + {n} }

  lemma {:induction false} UpToMembers(n: nat)
    ensures forall v: nat :: v in UpTo(n) <==> 1 <= v <= n
    ensures |UpTo(n)| == n
  {
    if n > 0 {
      UpToMembers(n - 1);
    }
  }

  /** n numbers that include 1 to n are exactly those. */
  lemma Pigeonhole(keys: set<nat>)
    requires UpTo(|keys|) <= keys
    ensures keys == UpTo(|keys|)
  {
    hide UpTo;
    UpToMembers(|keys|);
    var rest := keys - UpTo(|keys|);
    assert keys == UpTo(|keys|) + rest;
    assert |keys| == |UpTo(|keys|)| + |rest|;
  }

  lemma KeysAreNumbers(entries: seq<Entry>, pairs: map<nat, Pair>)
    requires Tabled(entries, pairs)
    ensures forall v :: Numbered(entries, v) <==> v in pairs
  {
    forall v | Numbered(entries, v) ensures v in pairs {
      var up, title :| Listed(entries, v, up, title);
    }
  }

  lemma PairedIff(entries: seq<Entry>, pairs: map<nat, Pair>, v: nat)
    requires Tabled(entries, pairs)
    ensures Paired(entries, v) <==> TitleOf(pairs, v, true) != "" && TitleOf(pairs, v, true) == TitleOf(pairs, v, false)
  {
    hide Listed;
    if Paired(entries, v) {
      var title :| Listed(entries, v, true, title) && Listed(entries, v, false, title);
    }
    if TitleOf(pairs, v, true) != "" && TitleOf(pairs, v, true) == TitleOf(pairs, v, false) {
      assert Listed(entries, v, true, TitleOf(pairs, v, true));
      assert Listed(entries, v, false, TitleOf(pairs, v, true));
    }
  }

  /** Checking 1 to the number of keys is checking everything. */
  lemma CompleteIff(entries: seq<Entry>, pairs: map<nat, Pair>)
    requires Tabled(entries, pairs) && Readable(entries)
    ensures (|pairs| >= 1 && forall v :: 1 <= v <= |pairs| ==> Paired(entries, v)) <==> Complete(entries, |pairs|)
    ensures forall n :: Complete(entries, n) ==> n == |pairs|
  {
    hide Paired, Numbered, Readable, UpTo;
    KeysAreNumbers(entries, pairs);
    assert |pairs| == |pairs.Keys|;
    UpToMembers(|pairs|);
    forall n | Complete(entries, n) ensures n == |pairs| {
      UpToMembers(n);
      assert pairs.Keys == UpTo(n);
    }
    if forall v :: 1 <= v <= |pairs| ==> Paired(entries, v) {
      forall v | v in UpTo(|pairs.Keys|) ensures v in pairs.Keys {
        PairedNumbered(entries, v);
      }
      Pigeonhole(pairs.Keys);
      forall v: nat ensures Numbered(entries, v) <==> 1 <= v <= |pairs| {
        assert v in pairs.Keys <==> v in UpTo(|pairs|);
      }
    }
  }

  lemma PairedNumbered(entries: seq<Entry>, v: nat)
    requires Paired(entries, v)
    ensures Numbered(entries, v)
  {
    hide Listed;
  }

  /** The inventory's answer: the number n for which it is complete, and none if there is no such number. */
  method Validate(entries: seq<Entry>) returns (target: Option<nat>)
    ensures target.Some? ==> Complete(entries, target.value)
    ensures target.None? ==> forall n :: !Complete(entries, n)
  {
    hide Parse, Listed, Numbered, Paired;
    var pairs: map<nat, Pair> := map[];
    NothingTabled();
    for i := 0 to |entries|
      invariant Readable(entries[..i]) && Tabled(entries[..i], pairs)
    {
      var e := entries[i];
      assert entries[..i + 1] == entries[..i] + [e];
      ReadableStep(entries, i);
      if e.File? {
        var parsed := Parse(e.name);
        if parsed.None? { return None; }
        var n := parsed.value;
        if n.version < 1 { return None; }
        TwinIffTitled(entries[..i], e, n, pairs);
        if TitleOf(pairs, n.version, n.up) != "" { return None; }
        TabledStep(entries[..i], e, n, pairs);
        pairs := Put(pairs, n);
        if e.blank { return None; }
      } else {
        TabledSkip(entries[..i], e, pairs);
      }
    }
    assert entries[..|entries|] == entries;
    CompleteIff(entries, pairs);
    if |pairs| == 0 { return None; }
    for version := 1 to |pairs| + 1
      invariant forall v :: 1 <= v < version ==> Paired(entries, v)
    {
      PairedIff(entries, pairs, version);
      var up, down := TitleOf(pairs, version, true), TitleOf(pairs, version, false);
      if up == "" || up != down { return None; }
    }
    return Some(|pairs|);
  }

  lemma NothingTabled()
    ensures Readable([]) && Tabled([], map[])
  {}

  lemma ReadableStep(entries: seq<Entry>, i: nat)
    requires i < |entries| && Readable(entries[..i])
    ensures Readable(entries[..i + 1])
            <==> Good(entries[i]) && !exists j :: 0 <= j < i && Twins(entries[..i][j], entries[i])
    ensures !Readable(entries[..i + 1]) ==> forall n :: !Complete(entries, n)
  {
    hide Good, Twins;
    var more := entries[..i + 1];
    assert forall j :: 0 <= j < i ==> entries[..i][j] == more[j];
    if Readable(entries) {
      assert Readable(more);
    }
  }
}
