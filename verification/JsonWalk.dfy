/**
 Walking a token stream to reject repeated member names. Three packages hold the same recursive walk; the alert
 handler holds another, with one loop for both kinds of brackets that does not look at the closing one. The plugin
 client and the handler have their decoder keep numbers as they are written (`exact`); the other two have it convert
 them to 64-bit floats, and asking for a number beyond these is an error.
 */
module JsonWalk {
  import opened JsonTrees
  import opened Options

  type Stream = seq<Token>

  /** Whether the decoder sees another element: something follows, and it does not close a bracket. */
  predicate More(ts: Stream) {
    ts != [] && ts[0] != CloseObject && ts[0] != CloseArray
  }

  // What the walks do to a stream: the rest after one value, or nothing if the walk fails.

  function Value(ts: Stream, exact: bool): (rest: Option<Stream>)
    ensures rest.Some? ==> |rest.value| < |ts|
    decreases |ts|, 0
  {
    if ts == [] then None
    else
      match ts[0]
      case Scalar => Some(ts[1..])
      case Huge => if exact then Some(ts[1..]) else None
      case Str(_) => Some(ts[1..])
      case OpenObject => MembersOf(ts[1..], exact, {})
      case OpenArray => ItemsOf(ts[1..], exact)
      case _ => None
  }

  function ItemsOf(ts: Stream, exact: bool): (rest: Option<Stream>)
    ensures rest.Some? ==> |rest.value| < |ts|
    decreases |ts|, 1
  {
    if !More(ts) then if ts != [] && ts[0] == CloseArray then Some(ts[1..]) else None
    else
      match Value(ts, exact)
      case None => None
      case Some(rest) => ItemsOf(rest, exact)
  }

  function MembersOf(ts: Stream, exact: bool, seen: set<string>): (rest: Option<Stream>)
    ensures rest.Some? ==> |rest.value| < |ts|
    decreases |ts|, 1
  {
    if !More(ts) then if ts != [] && ts[0] == CloseObject then Some(ts[1..]) else None
    else if !ts[0].Str? || ts[0].text in seen then None
    else
      match Value(ts[1..], exact)
      case None => None
      case Some(rest) => MembersOf(rest, exact, seen + {ts[0].text})
  }

  function Strict(ts: Stream, exact: bool): (rest: Option<Stream>)
    ensures rest.Some? ==> |rest.value| < |ts|
    decreases |ts|, 0
  {
    if ts == [] then None
    else
      match ts[0]
      case Scalar => Some(ts[1..])
      case Huge => if exact then Some(ts[1..]) else None
      case Str(_) => Some(ts[1..])
      case OpenObject => StrictRest(ts[1..], exact, true, {})
      case OpenArray => StrictRest(ts[1..], exact, false, {})
      case _ => None
  }

  function StrictRest(ts: Stream, exact: bool, named: bool, seen: set<string>): (rest: Option<Stream>)
    ensures rest.Some? ==> |rest.value| < |ts|
    decreases |ts|, 1
  {
    if !More(ts) then if ts == [] then None else Some(ts[1..])
    else if named && (!ts[0].Str? || ts[0].text in seen) then None
    else
      match Strict(if named then ts[1..] else ts, exact)
      case None => None
      case Some(rest) => StrictRest(rest, exact, named, if named then seen + {ts[0].text} else seen)
  }

  // The walks themselves.

  class Decoder {
    const exact: bool
    var rest: Stream

    constructor (ts: Stream, exact: bool)
      ensures rest == ts && this.exact == exact
    {
      this.exact := exact;
      rest := ts;
    }

    predicate Fails(token: Token) { token == Bad || (token == Huge && !exact) }

    /** The next token, or nothing at the end of the text and where it cannot be read. */
    method Next() returns (token: Option<Token>)
      modifies this
      ensures token == if old(rest) == [] || Fails(old(rest)[0]) then None else Some(old(rest)[0])
      ensures rest == if token.None? then old(rest) else old(rest)[1..]
    {
      if rest == [] || Fails(rest[0]) { return None; }
      token := Some(rest[0]);
      rest := rest[1..];
    }

    method WalkValue() returns (ok: bool)
      modifies this
      ensures ok == Value(old(rest), exact).Some?
      ensures ok ==> rest == Value(old(rest), exact).value
      ensures |rest| <= |old(rest)|
      decreases |rest|
    {
      ghost var start := rest;
      var token := Next();
      if token.None? { return false; }
      match token.value
      case OpenObject =>
        var seen: set<string> := {};
        while More(rest)
          invariant Value(start, exact) == MembersOf(rest, exact, seen)
          invariant |rest| < |start|
          decreases |rest|
        {
          var key := Next();
          if key.None? { return false; }
          if !key.value.Str? || key.value.text in seen { return false; }
          seen := seen + {key.value.text};
          ok := WalkValue();
          if !ok { return false; }
        }
        var end := Next();
        return end == Some(CloseObject);
      case OpenArray =>
        while More(rest)
          invariant Value(start, exact) == ItemsOf(rest, exact)
          invariant |rest| < |start|
          decreases |rest|
        {
          ok := WalkValue();
          if !ok { return false; }
        }
        var end := Next();
        return end == Some(CloseArray);
      case CloseObject => return false;
      case CloseArray => return false;
      case _ => return true;
    }

    method WalkStrict() returns (ok: bool)
      modifies this
      ensures ok == Strict(old(rest), exact).Some?
      ensures ok ==> rest == Strict(old(rest), exact).value
      ensures |rest| <= |old(rest)|
      decreases |rest|
    {
      ghost var start := rest;
      var token := Next();
      if token.None? { return false; }
      var opening := token.value;
      if opening.Scalar? || opening.Huge? || opening.Str? { return true; }
      if opening != OpenObject && opening != OpenArray { return false; }
      var seen: set<string> := {};
      while More(rest)
        invariant Strict(start, exact) == StrictRest(rest, exact, opening == OpenObject, seen)
        invariant |rest| < |start|
        decreases |rest|
      {
        if opening == OpenObject {
          var key := Next();
          if key.None? { return false; }
          if !key.value.Str? || key.value.text in seen { return false; }
          seen := seen + {key.value.text};
        }
        ok := WalkStrict();
        if !ok { return false; }
      }
      var end := Next();
      return end.Some?;
    }
  }
}
