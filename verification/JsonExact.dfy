/**
 The walks are exact: they accept the token streams of the trees without a repeated member name, and no others. A walk
 whose decoder converts numbers also refuses every tree with a number beyond a 64-bit float.
 */
module JsonExact {
  import opened JsonTrees
  import opened JsonWalk
  import opened Options

  function When(ok: bool, rest: Stream): Option<Stream> {
    if ok then Some(rest) else None
  }

  // From the tree to the walk.

  predicate Readable(j: Json, exact: bool) { Unique(j) && (exact || Ranged(j)) }

  predicate ReadableItems(items: Items, exact: bool) { UniqueItems(items) && (exact || RangedItems(items)) }

  predicate ReadableMembers(members: Members, exact: bool) {
    UniqueMembers(members) && (exact || RangedMembers(members))
  }

  lemma {:induction false} WalksTree(j: Json, exact: bool, rest: Stream)
    ensures Value(Tokens(j) + rest, exact) == When(Readable(j, exact), rest)
    decreases j
  {
    TreeFirst(j, rest);
    hide Tokens, ItemTokens, MemberTokens, Distinct, ItemsOf, MembersOf;
    match j
    case Array(items) =>
      WalksItems(items, exact, rest);
      assert ItemTokens(items) + ([CloseArray] + rest) == ItemTokens(items) + [CloseArray] + rest;
    case Object(members) =>
      WalksMembers(members, exact, {}, rest);
      assert MemberTokens(members) + ([CloseObject] + rest) == MemberTokens(members) + [CloseObject] + rest;
    case _ =>
  }

  lemma {:induction false} FirstToken(j: Json, rest: Stream)
    ensures |Tokens(j)| > 0 && More(Tokens(j) + rest) && Tokens(j)[0] != Bad
  {}

  lemma {:induction false} WalksItems(items: Items, exact: bool, rest: Stream)
    ensures ItemsOf(ItemTokens(items) + [CloseArray] + rest, exact) == When(ReadableItems(items, exact), rest)
    decreases items
  {
    var ts := ItemTokens(items) + [CloseArray] + rest;
    match items
    case NoItem => assert ts[1..] == rest;
    case Item(head, tail) =>
      var after := ItemTokens(tail) + [CloseArray] + rest;
      assert ts == Tokens(head) + after;
      FirstToken(head, after);
      WalksTree(head, exact, after);
      WalksItems(tail, exact, rest);
  }

  predicate NewNames(members: Members, seen: set<string>) {
    Distinct(Names(members)) && forall i :: 0 <= i < |Names(members)| ==> Names(members)[i] !in seen
  }

  lemma {:induction false} NewNamesStep(members: Members, seen: set<string>)
    requires members.Member?
    ensures NewNames(members, seen) <==> members.name !in seen && NewNames(members.next, seen + {members.name})
  {
    var names, tail := Names(members), Names(members.next);
    assert names == [members.name] + tail;
    assert names[0] == members.name && names[1..] == tail;
    if NewNames(members, seen) {
      forall i | 0 <= i < |tail| ensures tail[i] !in seen + {members.name} {
        assert tail[i] == names[i + 1];
      }
      forall i, k | 0 <= i < k < |tail| ensures tail[i] != tail[k] {
        assert tail[i] == names[i + 1] && tail[k] == names[k + 1];
      }
    }
  }

  lemma {:induction false} WalksMembers(members: Members, exact: bool, seen: set<string>, rest: Stream)
    ensures MembersOf(MemberTokens(members) + [CloseObject] + rest, exact, seen)
            == When(NewNames(members, seen) && ReadableMembers(members, exact), rest)
    decreases members
  {
    var ts := MemberTokens(members) + [CloseObject] + rest;
    match members
    case NoMember => assert ts[1..] == rest;
    case Member(name, value, next) =>
      var after := MemberTokens(next) + [CloseObject] + rest;
      assert ts == [Str(name)] + (Tokens(value) + after);
      assert ts[1..] == Tokens(value) + after;
      WalksTree(value, exact, after);
      WalksMembers(next, exact, seen + {name}, rest);
      NewNamesStep(members, seen);
  }

  // From the walk to the tree.

  lemma {:induction false} TreeWalked(ts: Stream, exact: bool) returns (j: Json)
    requires Value(ts, exact).Some?
    ensures ts == Tokens(j) + Value(ts, exact).value && Readable(j, exact)
    decreases |ts|, 0
  {
    hide ItemTokens, MemberTokens, Distinct, ItemsOf, MembersOf;
    match ts[0]
    case Scalar => j := Plain;
    case Huge => j := Beyond;
    case Str(s) => j := Text(s);
    case OpenObject =>
      var members := MembersWalked(ts[1..], exact, {});
      j := Object(members);
    case OpenArray =>
      var items := ItemsWalked(ts[1..], exact);
      j := Array(items);
  }

  lemma {:induction false} ItemsWalked(ts: Stream, exact: bool) returns (items: Items)
    requires ItemsOf(ts, exact).Some?
    ensures ts == ItemTokens(items) + [CloseArray] + ItemsOf(ts, exact).value && ReadableItems(items, exact)
    decreases |ts|, 1
  {
    if !More(ts) {
      items := NoItem;
    } else {
      var head := TreeWalked(ts, exact);
      var tail := ItemsWalked(Value(ts, exact).value, exact);
      items := Item(head, tail);
      ItemFirst(ts, head, tail, Value(ts, exact).value, ItemsOf(ts, exact).value);
    }
  }

  lemma ItemFirst(ts: Stream, head: Json, tail: Items, rest: Stream, end: Stream)
    requires ts == Tokens(head) + rest && rest == ItemTokens(tail) + [CloseArray] + end
    ensures ts == ItemTokens(Item(head, tail)) + [CloseArray] + end
  {
    hide Tokens;
    assert ItemTokens(Item(head, tail)) == Tokens(head) + ItemTokens(tail);
  }

  lemma {:induction false} MembersWalked(ts: Stream, exact: bool, seen: set<string>) returns (members: Members)
    requires MembersOf(ts, exact, seen).Some?
    ensures ts == MemberTokens(members) + [CloseObject] + MembersOf(ts, exact, seen).value
    ensures NewNames(members, seen) && ReadableMembers(members, exact)
    decreases |ts|, 1
  {
    if !More(ts) {
      members := NoMember;
    } else {
      var name, rest := ts[0].text, Value(ts[1..], exact).value;
      var value := TreeWalked(ts[1..], exact);
      var next := MembersWalked(rest, exact, seen + {name});
      members := Member(name, value, next);
      NewNamesStep(members, seen);
      MemberFirst(ts, value, next, rest, MembersOf(ts, exact, seen).value);
    }
  }

  lemma MemberFirst(ts: Stream, value: Json, next: Members, rest: Stream, end: Stream)
    requires ts != [] && ts[0].Str? && ts[1..] == Tokens(value) + rest
    requires rest == MemberTokens(next) + [CloseObject] + end
    ensures ts == MemberTokens(Member(ts[0].text, value, next)) + [CloseObject] + end
  {
    hide Tokens;
    assert ts == [ts[0]] + ts[1..];
  }

  ghost predicate Spells(ts: Stream, j: Json, rest: Stream) {
    ts == Tokens(j) + rest
  }

  /**
   The walk succeeds on exactly the streams that begin with a tree without repeated names, and where the decoder
   converts numbers without a number beyond a float, and reads exactly that tree; so it fails on a malformed stream.
   */
  lemma WalkExact(ts: Stream, exact: bool, rest: Stream)
    ensures Value(ts, exact) == Some(rest) <==> exists j :: Spells(ts, j, rest) && Readable(j, exact)
  {
    if Value(ts, exact) == Some(rest) {
      var j := TreeWalked(ts, exact);
      assert Spells(ts, j, rest);
    }
    if exists j :: Spells(ts, j, rest) && Readable(j, exact) {
      var j :| Spells(ts, j, rest) && Readable(j, exact);
      WalksTree(j, exact, rest);
    }
  }

  /** A number beyond a float is in the tree if and only if it is among its tokens. */
  lemma {:induction false} RangedMeans(j: Json)
    ensures Ranged(j) <==> Huge !in Tokens(j)
    decreases j
  {
    match j
    case Plain =>
    case Beyond =>
    case Text(_) =>
    case Array(items) => RangedItemsMeans(items);
    case Object(members) => RangedMembersMeans(members);
  }

  lemma {:induction false} RangedItemsMeans(items: Items)
    ensures RangedItems(items) <==> Huge !in ItemTokens(items)
    decreases items
  {
    if items.Item? {
      RangedMeans(items.head);
      RangedItemsMeans(items.tail);
    }
  }

  lemma {:induction false} RangedMembersMeans(members: Members)
    ensures RangedMembers(members) <==> Huge !in MemberTokens(members)
    decreases members
  {
    if members.Member? {
      RangedMeans(members.value);
      RangedMembersMeans(members.next);
    }
  }

  /** The first token of a tree, and what follows it. */
  lemma TreeFirst(j: Json, rest: Stream)
    ensures var ts := Tokens(j) + rest;
            && ts != []
            && (j.Plain? ==> ts[0] == Scalar && ts[1..] == rest)
            && (j.Beyond? ==> ts[0] == Huge && ts[1..] == rest)
            && (j.Text? ==> ts[0] == Str(j.text) && ts[1..] == rest)
            && (j.Array? ==> ts[0] == OpenArray && ts[1..] == ItemTokens(j.items) + ([CloseArray] + rest))
            && (j.Object? ==> ts[0] == OpenObject && ts[1..] == MemberTokens(j.members) + ([CloseObject] + rest))
  {
    hide ItemTokens, MemberTokens;
  }

  /** A token stream begins with at most one tree, whatever names it repeats. */
  lemma {:induction false} OneTree(j: Json, k: Json, rest: Stream, rest': Stream)
    requires Tokens(j) + rest == Tokens(k) + rest'
    ensures j == k && rest == rest'
    decreases j
  {
    TreeFirst(j, rest);
    TreeFirst(k, rest');
    hide Tokens, ItemTokens, MemberTokens;
    if j.Array? {
      OneItems(j.items, k.items, rest, rest');
    } else if j.Object? {
      OneMembers(j.members, k.members, rest, rest');
    }
  }

  lemma ItemsFirst(items: Items, rest: Stream)
    ensures var ts := ItemTokens(items) + ([CloseArray] + rest);
            (items.Item? <==> ts[0] != CloseArray)
            && (items.Item? ==> ts == Tokens(items.head) + (ItemTokens(items.tail) + ([CloseArray] + rest)))
            && (items.NoItem? ==> ts[1..] == rest)
  {
    if items.Item? {
      FirstToken(items.head, ItemTokens(items.tail) + ([CloseArray] + rest));
    }
  }

  lemma {:induction false} OneItems(items: Items, items': Items, rest: Stream, rest': Stream)
    requires ItemTokens(items) + ([CloseArray] + rest) == ItemTokens(items') + ([CloseArray] + rest')
    ensures items == items' && rest == rest'
    decreases items
  {
    ItemsFirst(items, rest);
    ItemsFirst(items', rest');
    hide Tokens, ItemTokens;
    if items.Item? {
      OneTree(items.head, items'.head, ItemTokens(items.tail) + ([CloseArray] + rest),
              ItemTokens(items'.tail) + ([CloseArray] + rest'));
      OneItems(items.tail, items'.tail, rest, rest');
    }
  }

  lemma MembersFirst(members: Members, rest: Stream)
    ensures var ts := MemberTokens(members) + ([CloseObject] + rest);
            && (members.NoMember? ==> ts[0] == CloseObject && ts[1..] == rest)
            && (members.Member? ==>
                  ts[0] == Str(members.name)
                  && ts[1..] == Tokens(members.value) + (MemberTokens(members.next) + ([CloseObject] + rest)))
  {
    hide Tokens;
    if members.Member? {
      assert MemberTokens(members) == [Str(members.name)] + Tokens(members.value) + MemberTokens(members.next);
    }
  }

  lemma {:induction false} OneMembers(members: Members, members': Members, rest: Stream, rest': Stream)
    requires MemberTokens(members) + ([CloseObject] + rest) == MemberTokens(members') + ([CloseObject] + rest')
    ensures members == members' && rest == rest'
    decreases members
  {
    MembersFirst(members, rest);
    MembersFirst(members', rest');
    hide Tokens, MemberTokens;
    if members.Member? {
      OneTree(members.value, members'.value, MemberTokens(members.next) + ([CloseObject] + rest),
              MemberTokens(members'.next) + ([CloseObject] + rest'));
      OneMembers(members.next, members'.next, rest, rest');
    }
  }

  // The handler's walk, on what a decoder hands out: it never lets a bracket close another kind of bracket.

  /** Which brackets are open, outermost first: true for an object. */
  predicate Balanced(ts: Stream, open: seq<bool>) {
    if ts == [] then true
    else
      match ts[0]
      case OpenObject => Balanced(ts[1..], open + [true])
      case OpenArray => Balanced(ts[1..], open + [false])
      case CloseObject => open != [] && open[|open| - 1] && Balanced(ts[1..], open[..|open| - 1])
      case CloseArray => open != [] && !open[|open| - 1] && Balanced(ts[1..], open[..|open| - 1])
      case _ => Balanced(ts[1..], open)
  }

  /** Not looking at the closing bracket makes no difference on a balanced stream. */
  lemma {:induction false} StrictAgrees(ts: Stream, exact: bool, open: seq<bool>)
    requires Balanced(ts, open)
    ensures Strict(ts, exact) == Value(ts, exact)
    ensures Value(ts, exact).Some? ==> Balanced(Value(ts, exact).value, open)
    decreases |ts|, 0
  {
    if ts != [] {
      if ts[0] == OpenObject {
        StrictMembersAgree(ts[1..], exact, {}, open);
      } else if ts[0] == OpenArray {
        StrictItemsAgree(ts[1..], exact, open);
      }
    }
  }

  lemma {:induction false} StrictItemsAgree(ts: Stream, exact: bool, open: seq<bool>)
    requires Balanced(ts, open + [false])
    ensures StrictRest(ts, exact, false, {}) == ItemsOf(ts, exact)
    ensures ItemsOf(ts, exact).Some? ==> Balanced(ItemsOf(ts, exact).value, open)
    decreases |ts|, 1
  {
    assert (open + [false])[..|open|] == open;
    if More(ts) {
      StrictAgrees(ts, exact, open + [false]);
      if Value(ts, exact).Some? {
        StrictItemsAgree(Value(ts, exact).value, exact, open);
      }
    }
  }

  lemma {:induction false} StrictMembersAgree(ts: Stream, exact: bool, seen: set<string>, open: seq<bool>)
    requires Balanced(ts, open + [true])
    ensures StrictRest(ts, exact, true, seen) == MembersOf(ts, exact, seen)
    ensures MembersOf(ts, exact, seen).Some? ==> Balanced(MembersOf(ts, exact, seen).value, open)
    decreases |ts|, 1
  {
    assert (open + [true])[..|open|] == open;
    if More(ts) && ts[0].Str? {
      StrictAgrees(ts[1..], exact, open + [true]);
      if Value(ts[1..], exact).Some? {
        StrictMembersAgree(Value(ts[1..], exact).value, exact, seen + {ts[0].text}, open);
      }
    }
  }

  /** On an unbalanced stream the two walks differ. */
  lemma StrictNeedsBalance(exact: bool)
    ensures var ts := [OpenObject, CloseArray]; Strict(ts, exact) == Some([]) && Value(ts, exact) == None
  {
    var ts := [OpenObject, CloseArray];
    assert ts[1..] == [CloseArray] && [CloseArray][1..] == [];
  }
}
