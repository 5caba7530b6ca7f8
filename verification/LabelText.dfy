/**
 The JSON text of a label map, as Go's encoding/json writes it for valid UTF-8: an object of quoted strings, with
 the escapes of its HTML-safe form. A string stands for its bytes. No two label maps share a text.
 */
module LabelText {

  type Labels = map<string, string>

  // Quoted strings.

  /** The line separators U+2028 and U+2029 in UTF-8. */
  predicate Separator(s: string) { s == "\U{e2}\U{80}\U{a8}" || s == "\U{e2}\U{80}\U{a9}" }

  /** What is escaped together: a separator, or one byte. */
  function Head(s: string): (h: string)
    requires s != ""
    ensures h != "" && h <= s && HeadOf(h)
  {
    if |s| >= 3 && Separator(s[..3]) then s[..3] else s[..1]
  }

  function Hex(n: nat): (c: char)
    requires n < 16
    ensures c != '\\' && c != '"'
  {
    if n < 10 then (n + 48) as char else (n + 87) as char
  }

  function UnHex(c: char): int {
    if c <= '9' then c as int - 48 else c as int - 87
  }

  predicate Bare(c: char) { c >= ' ' && c !in {'"', '\\', '<', '>', '&'} }

  predicate HeadOf(h: string) { |h| == 1 || Separator(h) }

  function Code(h: string): string
    requires HeadOf(h)
  {
    if |h| == 3 then if h[2] == '\U{a8}' then "\\u2028" else "\\u2029"
    else
      var c := h[0];
      if Bare(c) then [c]
      else if c == '"' || c == '\\' then ['\\', c]
      else if c == '\U{8}' then "\\b"
      else if c == '\U{c}' then "\\f"
      else if c == '\n' then "\\n"
      else if c == '\r' then "\\r"
      else if c == '\t' then "\\t"
      else ['\\', 'u', '0', '0', Hex(c as int / 16), Hex(c as int % 16)]
  }

  function Escape(s: string): string {
    if s == "" then "" else Code(Head(s)) + Escape(s[|Head(s)|..])
  }

  /** Reading one head back from a text that begins with its code. */
  function Read(t: string): (r: (string, int)) {
    if t == "" then ("", 0)
    else if t[0] != '\\' then ([t[0]], 1)
    else if |t| < 2 then ("", 0)
    else if t[1] == '"' || t[1] == '\\' then ([t[1]], 2)
    else if t[1] == 'b' then ("\U{8}", 2)
    else if t[1] == 'f' then ("\U{c}", 2)
    else if t[1] == 'n' then ("\n", 2)
    else if t[1] == 'r' then ("\r", 2)
    else if t[1] == 't' then ("\t", 2)
    else if |t| < 6 then ("", 0)
    else if t[2] == '2' then (if t[5] == '8' then "\U{e2}\U{80}\U{a8}" else "\U{e2}\U{80}\U{a9}", 6)
    else
      var n := UnHex(t[4]) * 16 + UnHex(t[5]);
      (if 0 <= n < 256 then [n as char] else "", 6)
  }

  lemma ReadCode(h: string, rest: string)
    requires HeadOf(h)
    ensures Read(Code(h) + rest) == (h, |Code(h)|)
    ensures Code(h) != "" && Code(h)[0] != '"'
  {
    var t := Code(h) + rest;
    assert t[..|Code(h)|] == Code(h);
    if |h| == 3 {
      assert h == [h[0], h[1], h[2]];
    } else {
      assert h == [h[0]];
    }
  }

  /** The closing quote of a string is where its text says, and the string is what its text says. */
  lemma {:induction false} QuotedOnce(s: string, s': string, rest: string, rest': string)
    requires Escape(s) + ("\"" + rest) == Escape(s') + ("\"" + rest')
    ensures s == s' && rest == rest'
    decreases |s|
  {
    EscapeHead(s, rest);
    EscapeHead(s', rest');
    hide Escape, Code, Read;
    var t := Escape(s) + ("\"" + rest);
    if s != "" {
      var h, n := Head(s), |Code(Head(s))|;
      assert t[n..] == Escape(s[|h|..]) + ("\"" + rest);
      assert t[n..] == Escape(s'[|h|..]) + ("\"" + rest');
      QuotedOnce(s[|h|..], s'[|h|..], rest, rest');
      assert s == h + s[|h|..] && s' == h + s'[|h|..];
    } else {
      assert t[1..] == rest == rest';
    }
  }

  lemma EscapeHead(s: string, rest: string)
    ensures var t := Escape(s) + ("\"" + rest);
            && t != "" && (s == "" <==> t[0] == '"')
            && (s == "" ==> t == "\"" + rest)
            && (s != "" ==>
                  var h := Head(s);
                  Read(t) == (h, |Code(h)|) && |Code(h)| <= |t|
                  && t == Code(h) + (Escape(s[|h|..]) + ("\"" + rest)))
  {
    EscapeStep(s);
    hide Escape, Code, Read, Head, HeadOf;
    if s != "" {
      var h, r := Head(s), Escape(s[|Head(s)|..]) + ("\"" + rest);
      ReadCode(h, r);
      assert Escape(s) + ("\"" + rest) == Code(h) + r;
    }
  }

  lemma EscapeStep(s: string)
    ensures if s == "" then Escape(s) == "" else Escape(s) == Code(Head(s)) + Escape(s[|Head(s)|..])
  {
    hide Code, Head;
  }

  // Objects.

  predicate Lists(keys: seq<string>, labels: Labels) {
    (forall i :: 0 <= i < |keys| ==> keys[i] in labels) && (forall k :: k in labels ==> k in keys)
  }

  /** A quoted name, a colon and a quoted value, and then the rest of the text. */
  function Pair(name: string, value: string, rest: string): string {
    "\"" + (Escape(name) + ("\"" + (":\"" + (Escape(value) + ("\"" + rest)))))
  }

  function Body(keys: seq<string>, labels: Labels): string
    requires forall i :: 0 <= i < |keys| ==> keys[i] in labels
    decreases |keys|, 0
  {
    if keys == [] then "}" else Pair(keys[0], labels[keys[0]], More(keys[1..], labels))
  }

  function More(keys: seq<string>, labels: Labels): string
    requires forall i :: 0 <= i < |keys| ==> keys[i] in labels
    decreases |keys|, 1
  {
    if keys == [] then "}" else "," + Body(keys, labels)
  }

  /** The object with its members in the order of the listing; encoding/json sorts them. */
  function ObjectText(keys: seq<string>, labels: Labels): string
    requires Lists(keys, labels)
  {
    "{" + Body(keys, labels)
  }

  lemma PairOnce(k: string, v: string, x: string, k': string, v': string, x': string)
    requires Pair(k, v, x) == Pair(k', v', x')
    ensures k == k' && v == v' && x == x'
  {
    hide Escape;
    var t, t' := Pair(k, v, x), Pair(k', v', x');
    var y, y' := ":\"" + (Escape(v) + ("\"" + x)), ":\"" + (Escape(v') + ("\"" + x'));
    assert t[1..] == Escape(k) + ("\"" + y) && t'[1..] == Escape(k') + ("\"" + y');
    QuotedOnce(k, k', y, y');
    assert y[2..] == Escape(v) + ("\"" + x) && y'[2..] == Escape(v') + ("\"" + x');
    QuotedOnce(v, v', x, x');
  }

  lemma {:induction false} BodyOnce(keys: seq<string>, labels: Labels, keys': seq<string>, labels': Labels)
    requires forall i :: 0 <= i < |keys| ==> keys[i] in labels
    requires forall i :: 0 <= i < |keys'| ==> keys'[i] in labels'
    requires Body(keys, labels) == Body(keys', labels')
    ensures keys == keys' && forall i :: 0 <= i < |keys| ==> labels[keys[i]] == labels'[keys[i]]
    decreases |keys|
  {
    assert keys == [] <==> Body(keys, labels)[0] == '}';
    assert keys' == [] <==> Body(keys', labels')[0] == '}';
    if keys != [] {
      var tail, tail' := keys[1..], keys'[1..];
      PairOnce(keys[0], labels[keys[0]], More(tail, labels), keys'[0], labels'[keys'[0]], More(tail', labels'));
      MoreOnce(tail, labels, tail', labels');
      BodyOnce(tail, labels, tail', labels');
      assert keys == [keys[0]] + tail && keys' == [keys'[0]] + tail';
    }
  }

  lemma MoreOnce(keys: seq<string>, labels: Labels, keys': seq<string>, labels': Labels)
    requires forall i :: 0 <= i < |keys| ==> keys[i] in labels
    requires forall i :: 0 <= i < |keys'| ==> keys'[i] in labels'
    requires More(keys, labels) == More(keys', labels')
    ensures Body(keys, labels) == Body(keys', labels')
  {
    hide Body;
    var t, t' := More(keys, labels), More(keys', labels');
    assert keys == [] <==> t[0] == '}';
    assert keys' == [] <==> t'[0] == '}';
    if keys != [] {
      assert t[1..] == Body(keys, labels) && t'[1..] == Body(keys', labels');
    } else {
      NoBody(keys, labels);
      NoBody(keys', labels');
    }
  }

  lemma NoBody(keys: seq<string>, labels: Labels)
    requires keys == []
    ensures Body(keys, labels) == "}"
  {}

  /** Some listing of the keys. */
  ghost function Listing(keys: set<string>): (list: seq<string>)
    ensures forall k :: k in list <==> k in keys
  {
    if keys == {} then [] else
      var k :| k in keys;
      [k] + Listing(keys - {k})
  }

  /** Two label maps with the same text are the same map, in whichever order their members are written. */
  lemma ObjectOnce(keys: seq<string>, labels: Labels, keys': seq<string>, labels': Labels)
    requires Lists(keys, labels) && Lists(keys', labels') && ObjectText(keys, labels) == ObjectText(keys', labels')
    ensures labels == labels'
  {
    var t, t' := ObjectText(keys, labels), ObjectText(keys', labels');
    assert t[1..] == Body(keys, labels) && t'[1..] == Body(keys', labels');
    BodyOnce(keys, labels, keys', labels');
    hide Body;
    assert labels.Keys == labels'.Keys;
  }
}
