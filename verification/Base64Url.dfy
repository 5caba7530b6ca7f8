/** Unpadded URL-safe Base64, section 5 of RFC 4648. Texts stand for their bytes. */
module Base64Url {
  import opened Options

  predicate Bytes(s: string) { forall i :: 0 <= i < |s| ==> s[i] as int < 256 }

  function Symbol(n: nat): (c: char)
    requires n < 64
    ensures Sextet(c) == Some(n)
  {
    if n < 26 then (n + 65) as char
    else if n < 52 then (n + 71) as char
    else if n < 62 then (n - 4) as char
    else if n == 62 then '-'
    else '_'
  }

  function Sextet(c: char): (n: Option<nat>)
    ensures n.Some? ==> n.value < 64
  {
    if 'A' <= c <= 'Z' then Some(c as int - 65)
    else if 'a' <= c <= 'z' then Some(c as int - 71)
    else if '0' <= c <= '9' then Some(c as int + 4)
    else if c == '-' then Some(62)
    else if c == '_' then Some(63)
    else None
  }

  function Encode(s: string): string
    requires Bytes(s)
  {
    if s == "" then ""
    else
      var a := s[0] as int;
      if |s| == 1 then [Symbol(a / 4), Symbol(a % 4 * 16)]
      else
        var b := s[1] as int;
        if |s| == 2 then [Symbol(a / 4), Symbol(a % 4 * 16 + b / 16), Symbol(b % 16 * 4)]
        else
          var c := s[2] as int;
          [Symbol(a / 4), Symbol(a % 4 * 16 + b / 16), Symbol(b % 16 * 4 + c / 64), Symbol(c % 64)] + Encode(s[3..])
  }

  /** The decoder passes over line ends. */
  function Stripped(t: string): string {
    if t == "" then ""
    else if t[0] == '\r' || t[0] == '\n' then Stripped(t[1..])
    else [t[0]] + Stripped(t[1..])
  }

  /** Strict: the bits left over at the end must be zero. */
  function Decode(t: string): (r: Option<string>)
    ensures r.Some? ==> Bytes(r.value)
  {
    if t == "" then Some("")
    else if |t| == 1 then None
    else
      var w, x := Sextet(t[0]), Sextet(t[1]);
      if w.None? || x.None? then None
      else
        var first := (w.value * 4 + x.value / 16) as char;
        if |t| == 2 then if x.value % 16 == 0 then Some([first]) else None
        else
          var y := Sextet(t[2]);
          if y.None? then None
          else
            var second := (x.value % 16 * 16 + y.value / 4) as char;
            if |t| == 3 then if y.value % 4 == 0 then Some([first, second]) else None
            else
              var z := Sextet(t[3]);
              var rest := Decode(t[4..]);
              if z.None? || rest.None? then None
              else Some([first, second, (y.value % 4 * 64 + z.value) as char] + rest.value)
  }

  /** Three bytes cut into four sextets, and put together again. */
  lemma Regroup(a: nat, b: nat, c: nat)
    requires a < 256 && b < 256 && c < 256
    ensures a / 4 * 4 + (a % 4 * 16 + b / 16) / 16 == a
    ensures (a % 4 * 16 + b / 16) % 16 * 16 + (b % 16 * 4 + c / 64) / 4 == b
    ensures (b % 16 * 4 + c / 64) % 4 * 64 + c % 64 == c
  {
    assert (a % 4 * 16 + b / 16) / 16 == a % 4 && (a % 4 * 16 + b / 16) % 16 == b / 16;
    assert (b % 16 * 4 + c / 64) / 4 == b % 16 && (b % 16 * 4 + c / 64) % 4 == c / 64;
  }

  /** Decoding the first four symbols and the rest. */
  lemma DecodeQuad(t: string, w: nat, x: nat, y: nat, z: nat, text: string)
    requires |t| >= 4 && Sextet(t[0]) == Some(w) && Sextet(t[1]) == Some(x)
    requires Sextet(t[2]) == Some(y) && Sextet(t[3]) == Some(z) && Decode(t[4..]) == Some(text)
    ensures Decode(t)
            == Some([(w * 4 + x / 16) as char, (x % 16 * 16 + y / 4) as char, (y % 4 * 64 + z) as char] + text)
  {
    hide Sextet;
  }

  lemma DecodeFour(a: nat, b: nat, c: nat, rest: string, text: string)
    requires a < 256 && b < 256 && c < 256 && Decode(rest) == Some(text)
    ensures Decode([Symbol(a / 4), Symbol(a % 4 * 16 + b / 16), Symbol(b % 16 * 4 + c / 64), Symbol(c % 64)] + rest)
            == Some([a as char, b as char, c as char] + text)
  {
    hide Sextet, Symbol, Decode;
    Regroup(a, b, c);
    var t := [Symbol(a / 4), Symbol(a % 4 * 16 + b / 16), Symbol(b % 16 * 4 + c / 64), Symbol(c % 64)] + rest;
    assert t[4..] == rest;
    DecodeQuad(t, a / 4, a % 4 * 16 + b / 16, b % 16 * 4 + c / 64, c % 64, text);
  }

  lemma DecodeThree(a: nat, b: nat)
    requires a < 256 && b < 256
    ensures Decode([Symbol(a / 4), Symbol(a % 4 * 16 + b / 16), Symbol(b % 16 * 4)]) == Some([a as char, b as char])
  {
    hide Sextet, Symbol;
    Regroup(a, b, 0);
  }

  lemma DecodeTwo(a: nat)
    requires a < 256
    ensures Decode([Symbol(a / 4), Symbol(a % 4 * 16)]) == Some([a as char])
  {
    hide Sextet, Symbol;
    Regroup(a, 0, 0);
  }

  lemma {:induction false} DecodeEncode(s: string)
    requires Bytes(s)
    ensures Decode(Encode(s)) == Some(s)
    decreases |s|
  {
    hide Decode, Sextet, Symbol;
    if |s| >= 3 {
      DecodeEncode(s[3..]);
      DecodeFour(s[0] as int, s[1] as int, s[2] as int, Encode(s[3..]), s[3..]);
      assert s == [s[0], s[1], s[2]] + s[3..];
    } else if |s| == 2 {
      DecodeThree(s[0] as int, s[1] as int);
      assert s == [s[0], s[1]];
    } else if |s| == 1 {
      DecodeTwo(s[0] as int);
      assert s == [s[0]];
    } else {
      DecodeNothing();
    }
  }

  lemma DecodeNothing()
    ensures Decode("") == Some("")
  {}

  lemma {:induction false} EncodePlain(s: string)
    requires Bytes(s)
    ensures forall i :: 0 <= i < |Encode(s)| ==> Sextet(Encode(s)[i]).Some?
    ensures |Encode(s)| <= 2 * |s|
    decreases |s|
  {
    if |s| >= 3 {
      EncodePlain(s[3..]);
    }
  }

  lemma {:induction false} StrippedPlain(t: string)
    requires forall i :: 0 <= i < |t| ==> Sextet(t[i]).Some?
    ensures Stripped(t) == t
  {
    if t != "" {
      StrippedPlain(t[1..]);
    }
  }

  /** The text is what the decoder reads from the token, and the token is what the encoder writes for it. */
  function Canonical(token: string): (text: Option<string>)
    ensures text.Some? ==> Bytes(text.value)
  {
    var text := Decode(Stripped(token));
    if text.Some? && Encode(text.value) == token then text else None
  }

  /** So a token is accepted if and only if it is the encoding of the text. */
  lemma CanonicalExact(token: string, text: string)
    requires Bytes(text)
    ensures Canonical(token) == Some(text) <==> token == Encode(text)
  {
    if token == Encode(text) {
      EncodePlain(text);
      StrippedPlain(token);
      DecodeEncode(text);
    }
  }

  /** Strict decoding is one to one: what is decoded is the encoding of the result, and of nothing else. */
  lemma {:induction false} DecodeIsStrict(t: string)
    ensures Decode(t).Some? ==> Encode(Decode(t).value) == t
    decreases |t|
  {
    hide Sextet, Symbol;
    if |t| >= 2 && Decode(t).Some? {
      SextetSymbol(t[0]);
      SextetSymbol(t[1]);
      var w, x := Sextet(t[0]).value, Sextet(t[1]).value;
      if |t| == 2 {
        Ungroup(w, x, 0, 0);
      } else {
        SextetSymbol(t[2]);
        var y := Sextet(t[2]).value;
        if |t| == 3 {
          Ungroup(w, x, y, 0);
        } else {
          SextetSymbol(t[3]);
          Ungroup(w, x, y, Sextet(t[3]).value);
          DecodeIsStrict(t[4..]);
          EncodeQuad(t, w, x, y, Sextet(t[3]).value, Decode(t[4..]).value);
        }
      }
    }
  }

  /** Four sextets put together to three bytes, and cut again. */
  lemma Ungroup(w: nat, x: nat, y: nat, z: nat)
    requires w < 64 && x < 64 && y < 64 && z < 64
    ensures var a, b, c := w * 4 + x / 16, x % 16 * 16 + y / 4, y % 4 * 64 + z;
            a < 256 && b < 256 && c < 256
            && a / 4 == w && a % 4 * 16 + b / 16 == x && b % 16 * 4 + c / 64 == y && c % 64 == z
  {}

  lemma EncodeQuad(t: string, w: nat, x: nat, y: nat, z: nat, rest: string)
    requires |t| >= 4 && w < 64 && x < 64 && y < 64 && z < 64 && Bytes(rest) && Encode(rest) == t[4..]
    requires Symbol(w) == t[0] && Symbol(x) == t[1] && Symbol(y) == t[2] && Symbol(z) == t[3]
    ensures var s := [(w * 4 + x / 16) as char, (x % 16 * 16 + y / 4) as char, (y % 4 * 64 + z) as char] + rest;
            Bytes(s) && Encode(s) == t
  {
    hide Symbol;
    Ungroup(w, x, y, z);
    var s := [(w * 4 + x / 16) as char, (x % 16 * 16 + y / 4) as char, (y % 4 * 64 + z) as char] + rest;
    assert s[3..] == rest;
    assert t == [t[0], t[1], t[2], t[3]] + t[4..];
  }

  lemma SextetSymbol(c: char)
    ensures Sextet(c).Some? ==> Sextet(c).value < 64 && Symbol(Sextet(c).value) == c
  {}

  /** The decoder passes over a line end, so the token with one is decoded; but it is not what the encoder writes. */
  lemma LineEndsAreRefused(text: string, end: char)
    requires Bytes(text) && end in {'\r', '\n'}
    ensures Decode(Stripped(Encode(text) + [end])) == Some(text)
    ensures Canonical(Encode(text) + [end]) == None
  {
    EncodePlain(text);
    StrippedEnd(Encode(text), end);
    DecodeEncode(text);
    assert |Encode(text) + [end]| > |Encode(text)|;
  }

  lemma {:induction false} StrippedEnd(t: string, end: char)
    requires end in {'\r', '\n'} && forall i :: 0 <= i < |t| ==> Sextet(t[i]).Some?
    ensures Stripped(t + [end]) == t
  {
    if t != "" {
      assert (t + [end])[1..] == t[1..] + [end];
      StrippedEnd(t[1..], end);
    } else {
      assert [end][1..] == "";
    }
  }
}
