/**
 The cursor of the comment list: an identifier, written as JSON and then as Base64. Reading JSON is left to a
 parameter, of which only what the standard decoder promises for this payload is assumed.
 */
module CommentCursor {
  import opened Base64Url
  import opened Numbers
  import opened Options

  const MAX_TOKEN: nat := 256
  const VERSION: nat := 1
  const DEFAULT_LIMIT: nat := 20
  const MAX_LIMIT: nat := 50

  // The token.

  datatype Payload = Payload(version: int, id: Word)

  function Text(digits: string): string { "{\"v\":1,\"id\":" + digits + "}" }

  function Swapped(digits: string): string { "{\"id\":" + digits + ",\"v\":1}" }

  /** A printed numeral of a positive 64-bit identifier. */
  predicate Numeral(digits: string) { Printed(digits) && digits != "0" && Number(digits) < U64 }

  /** What the JSON decoder promises: it reads the two members in either order. */
  ghost predicate ReadsPayload(read: string -> Option<Payload>) {
    forall digits :: Numeral(digits) ==> ReadsBoth(read, digits)
  }

  predicate ReadsBoth(read: string -> Option<Payload>, digits: string)
    requires Numeral(digits)
  {
    && read(Text(digits)) == Some(Payload(VERSION, Number(digits)))
    && read(Swapped(digits)) == Some(Payload(VERSION, Number(digits)))
  }

  lemma DecimalIsNumeral(id: Word)
    requires id > 0
    ensures Numeral(Decimal(id)) && Number(Decimal(id)) == id && |Decimal(id)| <= 20
  {
    NumberDecimal(id);
    DecimalPrinted(id);
    WordLength(id);
  }

  lemma NumeralIsDecimal(digits: string)
    requires Numeral(digits)
    ensures Number(digits) > 0 && Decimal(Number(digits)) == digits
  {
    PrintedPositive(digits);
    DecimalNumber(digits);
  }

  lemma TextBytes(digits: string)
    requires AllDigits(digits)
    ensures Bytes(Text(digits)) && Bytes(Swapped(digits))
  {
    var head, tail := "{\"v\":1,\"id\":", "}";
    assert Bytes(head) && Bytes(tail) && Bytes("{\"id\":") && Bytes(",\"v\":1}");
    assert forall i :: 0 <= i < |digits| ==> Digit(digits[i]);
  }

  function EncodeCursor(id: Word): Option<string> {
    if id == 0 then None
    else
      TextBytes(Decimal(id));
      Some(Encode(Text(Decimal(id))))
  }

  function DecodeCursor(read: string -> Option<Payload>, token: string): Option<Word> {
    if token == "" || |token| > MAX_TOKEN then None
    else
      var text := Canonical(token);
      if text.None? then None
      else
        var payload := read(text.value);
        if payload.None? || payload.value.version != VERSION || payload.value.id == 0 then None
        else Some(payload.value.id)
  }

  /** Every positive 64-bit identifier survives the round trip, and its token is within the limit. */
  lemma CursorRoundTrip(read: string -> Option<Payload>, id: Word)
    requires ReadsPayload(read)
    ensures EncodeCursor(id).Some? <==> id > 0
    ensures id > 0 ==> |EncodeCursor(id).value| <= MAX_TOKEN
    ensures id > 0 ==> DecodeCursor(read, EncodeCursor(id).value) == Some(id)
  {
    if id == 0 { return; }
    var digits := Decimal(id);
    DecimalIsNumeral(id);
    hide Decimal, Number, Encode, Decode, Canonical, Numeral;
    TextBytes(digits);
    assert ReadsBoth(read, digits);
    CanonicalExact(Encode(Text(digits)), Text(digits));
    EncodePlain(Text(digits));
    TokenNotEmpty(Text(digits));
  }

  /** Exactly which tokens are accepted. */
  lemma AcceptedTokens(read: string -> Option<Payload>, token: string, id: Word)
    ensures DecodeCursor(read, token) == Some(id)
            <==> 0 < |token| <= MAX_TOKEN && id > 0
                 && exists text :: Bytes(text) && token == Encode(text) && read(text) == Some(Payload(VERSION, id))
  {
    if DecodeCursor(read, token) == Some(id) {
      CanonicalExact(token, Canonical(token).value);
    }
    if exists text :: Bytes(text) && token == Encode(text) && read(text) == Some(Payload(VERSION, id)) {
      var text :| Bytes(text) && token == Encode(text) && read(text) == Some(Payload(VERSION, id));
      CanonicalExact(token, text);
    }
  }

  /** The text inside a token: the version first, then a printed positive identifier, and nothing else. */
  predicate OwnText(text: string) {
    |text| > 13 && Numeral(text[12..|text| - 1]) && text == Text(text[12..|text| - 1])
  }

  lemma OwnTextIff(text: string, digits: string)
    requires text == Text(digits)
    ensures OwnText(text) <==> Numeral(digits)
  {
    assert text[12..|text| - 1] == digits;
  }

  predicate Reencodes(read: string -> Option<Payload>, token: string) {
    var id := DecodeCursor(read, token);
    id.Some? && EncodeCursor(id.value) == Some(token)
  }

  /** A token is accepted and re-encodes to itself if and only if it is canonical Base64 of such a text. */
  lemma ReencodesIff(read: string -> Option<Payload>, token: string)
    requires ReadsPayload(read)
    ensures Reencodes(read, token) <==> Canonical(token).Some? && OwnText(Canonical(token).value)
  {
    hide Canonical, Encode, Decimal, Number;
    if Reencodes(read, token) {
      var id := DecodeCursor(read, token).value;
      DecimalIsNumeral(id);
      TextBytes(Decimal(id));
      CanonicalExact(token, Text(Decimal(id)));
      OwnTextIff(Text(Decimal(id)), Decimal(id));
    }
    if Canonical(token).Some? && OwnText(Canonical(token).value) {
      var text := Canonical(token).value;
      var digits := text[12..|text| - 1];
      NumeralIsDecimal(digits);
      CanonicalExact(token, text);
      CursorRoundTrip(read, Number(digits));
      EncodedDecimal(Number(digits));
    }
  }

  lemma EncodedDecimal(id: Word)
    requires id > 0
    ensures Bytes(Text(Decimal(id))) && EncodeCursor(id) == Some(Encode(Text(Decimal(id))))
  {
    TextBytes(Decimal(id));
  }

  /** So an accepted token fails to re-encode exactly when its text is any other that the decoder reads. */
  lemma AcceptedReencodesIff(read: string -> Option<Payload>, token: string)
    requires ReadsPayload(read) && DecodeCursor(read, token).Some?
    ensures Canonical(token).Some?
    ensures EncodeCursor(DecodeCursor(read, token).value) == Some(token) <==> OwnText(Canonical(token).value)
  {
    ReencodesIff(read, token);
  }

  /** And there is always another: with its members swapped, the payload is accepted but never re-encoded. */
  lemma SwappedIsAccepted(read: string -> Option<Payload>, id: Word)
    requires ReadsPayload(read) && id > 0
    ensures Bytes(Swapped(Decimal(id)))
    ensures var token := Encode(Swapped(Decimal(id)));
            DecodeCursor(read, token) == Some(id) && EncodeCursor(id) != Some(token)
  {
    hide Encode, Decode, Canonical, Decimal, Number, Numeral;
    var digits := Decimal(id);
    DecimalIsNumeral(id);
    TextBytes(digits);
    assert ReadsBoth(read, digits);
    var token := Encode(Swapped(digits));
    CanonicalExact(token, Swapped(digits));
    EncodePlain(Swapped(digits));
    TokenNotEmpty(Swapped(digits));
    DecodeEncode(Swapped(digits));
    DecodeEncode(Text(digits));
    TextsDiffer(digits);
  }

  lemma TokenNotEmpty(text: string)
    requires Bytes(text) && text != ""
    ensures Encode(text) != ""
  {}

  lemma TextsDiffer(digits: string)
    ensures Text(digits) != Swapped(digits)
  {
    assert Text(digits)[2] == 'v' && Swapped(digits)[2] == 'i';
  }

  // The query.

  datatype ListOptions = ListOptions(limit: nat, cursor: Option<Word>)

  function ParseLimit(text: string): Option<nat> {
    if text == "" || !AllDigits(text) then None
    else
      var limit := Number(text);
      if 1 <= limit <= MAX_LIMIT then Some(limit) else None
  }

  /** A parameter given more than once is refused; one that is not given has its default. */
  function ParseListOptions(read: string -> Option<Payload>, limits: Option<seq<string>>,
                            cursors: Option<seq<string>>): (r: Option<ListOptions>)
    ensures r.Some? ==> 1 <= r.value.limit <= MAX_LIMIT && (r.value.cursor.Some? ==> r.value.cursor.value > 0)
  {
    if limits.Some? && (|limits.value| != 1 || ParseLimit(limits.value[0]).None?) then None
    else if cursors.Some? && (|cursors.value| != 1 || DecodeCursor(read, cursors.value[0]).None?) then None
    else
      Some(ListOptions(if limits.Some? then ParseLimit(limits.value[0]).value else DEFAULT_LIMIT,
                       if cursors.Some? then DecodeCursor(read, cursors.value[0]) else None))
  }

  /** A service that asks for the next page with the cursor it was given is understood. */
  lemma NextPageUnderstood(read: string -> Option<Payload>, id: Word, limit: nat)
    requires ReadsPayload(read) && id > 0 && 1 <= limit <= MAX_LIMIT
    ensures ParseListOptions(read, Some([Decimal(limit)]), Some([EncodeCursor(id).value]))
            == Some(ListOptions(limit, Some(id)))
  {
    NumberDecimal(limit);
    CursorRoundTrip(read, id);
  }
}
