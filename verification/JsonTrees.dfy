/** JSON texts as trees, and as the token streams a decoder reads them from (sections 2 to 5 of RFC 8259). */
module JsonTrees {

  /**
   `Huge` is a number beyond the range of a 64-bit float, and `Scalar` any other number, a boolean or null. `Bad`
   stands for text the decoder cannot read: asking for it is an error.
   */
  datatype Token = Scalar | Huge | Str(text: string) | OpenObject | CloseObject | OpenArray | CloseArray | Bad

  datatype Json = Plain | Beyond | Text(text: string) | Array(items: Items) | Object(members: Members)
  datatype Items = NoItem | Item(head: Json, tail: Items)
  datatype Members = NoMember | Member(name: string, value: Json, next: Members)

  function Tokens(j: Json): seq<Token> {
    match j
    case Plain => [Scalar]
    case Beyond => [Huge]
    case Text(s) => [Str(s)]
    case Array(items) => [OpenArray] + ItemTokens(items) + [CloseArray]
    case Object(members) => [OpenObject] + MemberTokens(members) + [CloseObject]
  }

  function ItemTokens(items: Items): seq<Token> {
    match items
    case NoItem => []
    case Item(head, tail) => Tokens(head) + ItemTokens(tail)
  }

  function MemberTokens(members: Members): seq<Token> {
    match members
    case NoMember => []
    case Member(name, value, next) => [Str(name)] + Tokens(value) + MemberTokens(next)
  }

  function Names(members: Members): seq<string> {
    match members
    case NoMember => []
    case Member(name, _, next) => [name] + Names(next)
  }

  predicate Distinct(names: seq<string>) {
    forall i, j :: 0 <= i < j < |names| ==> names[i] != names[j]
  }

  /** No object at any depth repeats a member name. */
  predicate Unique(j: Json) {
    match j
    case Plain => true
    case Beyond => true
    case Text(_) => true
    case Array(items) => UniqueItems(items)
    case Object(members) => Distinct(Names(members)) && UniqueMembers(members)
  }

  predicate UniqueItems(items: Items) {
    items.NoItem? || (Unique(items.head) && UniqueItems(items.tail))
  }

  predicate UniqueMembers(members: Members) {
    members.NoMember? || (Unique(members.value) && UniqueMembers(members.next))
  }

  /** No number at any depth is beyond a 64-bit float. */
  predicate Ranged(j: Json) {
    match j
    case Plain => true
    case Beyond => false
    case Text(_) => true
    case Array(items) => RangedItems(items)
    case Object(members) => RangedMembers(members)
  }

  predicate RangedItems(items: Items) {
    items.NoItem? || (Ranged(items.head) && RangedItems(items.tail))
  }

  predicate RangedMembers(members: Members) {
    members.NoMember? || (Ranged(members.value) && RangedMembers(members.next))
  }

  function Max(a: nat, b: nat): nat { if a >= b then a else b }

  function Depth(j: Json): nat {
    match j
    case Plain => 0
    case Beyond => 0
    case Text(_) => 0
    case Array(items) => 1 + ItemsDepth(items)
    case Object(members) => 1 + MembersDepth(members)
  }

  function ItemsDepth(items: Items): nat {
    if items.NoItem? then 0 else Max(Depth(items.head), ItemsDepth(items.tail))
  }

  function MembersDepth(members: Members): nat {
    if members.NoMember? then 0 else Max(Depth(members.value), MembersDepth(members.next))
  }
}
