/** The four places that reject repeated names, from the payload to the answer, and where they differ. */
module JsonPayloads {
  import opened JsonExact
  import opened JsonTrees
  import opened JsonWalk
  import opened Options

  const SCHEMA_LIMIT: nat := 65536
  const HANDLER_LIMIT: nat := 16384

  /** The nesting that the JSON scanner of Go's encoding/json allows; its token reader has no such limit. */
  const MAX_DEPTH: nat := 10000

  /** A text, as its size in bytes, whether it is UTF-8, whether the scanner calls it valid, and its tokens. */
  datatype Payload = Payload(size: nat, utf8: bool, valid: bool, tokens: Stream)

  ghost predicate ValidTree(ts: Stream, j: Json) { ts == Tokens(j) && Depth(j) <= MAX_DEPTH }

  /** What the decoder promises: balanced brackets, and a scanner that agrees with the tokens. */
  ghost predicate WellRead(p: Payload) {
    && Balanced(p.tokens, [])
    && (p.valid <==> exists j :: ValidTree(p.tokens, j))
  }

  ghost predicate Means(ts: Stream, j: Json) { ts == Tokens(j) && Unique(j) }

  /** The payload is one JSON value in which no object at any depth repeats a name. */
  ghost predicate UniqueText(p: Payload) { exists j :: Means(p.tokens, j) }

  lemma WholeWalk(ts: Stream, exact: bool)
    ensures Value(ts, exact) == Some([]) <==> (exact || Huge !in ts) && exists j :: Means(ts, j)
  {
    hide Value, Unique, Ranged, Tokens;
    WalkExact(ts, exact, []);
    if Value(ts, exact) == Some([]) {
      var j :| Spells(ts, j, []) && Readable(j, exact);
      RangedMeans(j);
      assert Tokens(j) + [] == Tokens(j);
      assert Means(ts, j);
    }
    if (exact || Huge !in ts) && exists j :: Means(ts, j) {
      var j :| Means(ts, j);
      RangedMeans(j);
      assert Tokens(j) + [] == Tokens(j);
      assert Spells(ts, j, []);
    }
  }

  predicate SchemaAnswer(p: Payload) {
    0 < p.size <= SCHEMA_LIMIT && p.utf8 && p.valid && Value(p.tokens, false) == Some([])
  }

  /** The exporter contract looks no further than the walk and the end of the text. */
  predicate ContractAnswer(p: Payload) { Value(p.tokens, false) == Some([]) }

  /** Nor does the plugin client, whose decoder keeps numbers as they are written. */
  predicate ClientAnswer(p: Payload) { Value(p.tokens, true) == Some([]) }

  predicate HandlerAnswer(p: Payload) {
    && p.utf8 && 0 < p.size <= HANDLER_LIMIT
    && p.tokens != [] && p.tokens[0] == OpenObject && Strict(p.tokens, true) == Some([])
  }

  method SchemaUnique(p: Payload) returns (ok: bool)
    ensures ok == SchemaAnswer(p)
  {
    if p.size == 0 || p.size > SCHEMA_LIMIT || !p.utf8 || !p.valid { return false; }
    var decoder := new Decoder(p.tokens, false);
    ok := decoder.WalkValue();
    if !ok { return false; }
    ok := decoder.rest == [];
  }

  method ContractUnique(p: Payload) returns (ok: bool)
    ensures ok == ContractAnswer(p)
  {
    var decoder := new Decoder(p.tokens, false);
    ok := decoder.WalkValue();
    if !ok { return false; }
    ok := decoder.rest == [];
  }

  method ClientUnique(p: Payload) returns (ok: bool)
    ensures ok == ClientAnswer(p)
  {
    var decoder := new Decoder(p.tokens, true);
    ok := decoder.WalkValue();
    if !ok { return false; }
    ok := decoder.rest == [];
  }

  method HandlerStrict(p: Payload) returns (ok: bool)
    ensures ok == HandlerAnswer(p)
  {
    if !p.utf8 || p.size == 0 || p.size > HANDLER_LIMIT { return false; }
    if p.tokens == [] || p.tokens[0] != OpenObject { return false; }
    var decoder := new Decoder(p.tokens, true);
    ok := decoder.WalkStrict();
    if !ok { return false; }
    ok := decoder.rest == [];
  }

  /** What the four answers mean. */
  lemma AnswersMean(p: Payload)
    requires WellRead(p)
    ensures ClientAnswer(p) <==> UniqueText(p)
    ensures ContractAnswer(p) <==> UniqueText(p) && Huge !in p.tokens
    ensures SchemaAnswer(p) <==>
            && 0 < p.size <= SCHEMA_LIMIT && p.utf8 && Huge !in p.tokens
            && exists j :: Means(p.tokens, j) && Depth(j) <= MAX_DEPTH
    ensures HandlerAnswer(p) <==>
            p.utf8 && 0 < p.size <= HANDLER_LIMIT && p.tokens != [] && p.tokens[0] == OpenObject && UniqueText(p)
  {
    hide Strict, Value, Tokens, Unique, Depth, Balanced;
    WholeWalk(p.tokens, true);
    WholeWalk(p.tokens, false);
    StrictAgrees(p.tokens, true, []);
    if p.valid && UniqueText(p) {
      var j :| ValidTree(p.tokens, j);
      WalksTree(j, true, []);
      assert Tokens(j) + [] == Tokens(j);
      assert Means(p.tokens, j);
    }
    if exists j :: Means(p.tokens, j) && Depth(j) <= MAX_DEPTH {
      var j :| Means(p.tokens, j) && Depth(j) <= MAX_DEPTH;
      assert ValidTree(p.tokens, j);
    }
    if UniqueText(p) {
      NoTreeIsEmpty(p);
    }
  }

  /** Within every place's limits: UTF-8, small enough for each, an object, and as deep as the scanner goes. */
  predicate WithinAllLimits(p: Payload) {
    p.utf8 && 0 < p.size <= HANDLER_LIMIT && p.valid && p.tokens != [] && p.tokens[0] == OpenObject
  }

  /** Within the limits of all, the four agree on a payload exactly if it repeats a name or no number is too large. */
  lemma AgreeIff(p: Payload)
    requires WellRead(p) && WithinAllLimits(p)
    ensures ClientAnswer(p) == HandlerAnswer(p) && ContractAnswer(p) == SchemaAnswer(p)
    ensures ClientAnswer(p) == ContractAnswer(p) <==> (UniqueText(p) ==> Huge !in p.tokens)
  {
    hide Strict, Value, Tokens, Unique, Depth, Balanced;
    AnswersMean(p);
  }

  /** `{"a":1e400}`: read by the client and the handler, refused by the schema and the exporter contract. */
  lemma HugeSeparates(p: Payload)
    requires p.tokens == [OpenObject, Str("a"), Huge, CloseObject] && p.size == 11 && p.utf8 && p.valid
    ensures WellRead(p)
    ensures ClientAnswer(p) && HandlerAnswer(p) && !SchemaAnswer(p) && !ContractAnswer(p)
  {
    var j := Object(Member("a", Beyond, NoMember));
    HugeTree();
    assert Distinct(Names(j.members));
    assert ValidTree(p.tokens, j) && Means(p.tokens, j);
    HugeBalanced();
    AnswersMean(p);
  }

  lemma HugeTree()
    ensures Tokens(Object(Member("a", Beyond, NoMember))) == [OpenObject, Str("a"), Huge, CloseObject]
  {
    assert MemberTokens(Member("a", Beyond, NoMember)) == [Str("a"), Huge];
  }

  lemma HugeBalanced()
    ensures Balanced([OpenObject, Str("a"), Huge, CloseObject], [])
  {
    var ts := [OpenObject, Str("a"), Huge, CloseObject];
    assert Balanced(ts[3..], [true]);
    assert Balanced(ts[2..], [true]) by { assert ts[2..][1..] == ts[3..]; }
    assert Balanced(ts[1..], [true]) by { assert ts[1..][1..] == ts[2..]; }
    assert [] + [true] == [true];
  }

  lemma NoTreeIsEmpty(p: Payload)
    requires UniqueText(p)
    ensures p.tokens != []
  {
    var j :| Means(p.tokens, j);
    FirstToken(j, []);
  }
}
