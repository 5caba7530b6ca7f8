/** The shapes of the identifiers that cross the business event boundary. */
module Identifiers {
  predicate LowerHex(c: char) { '0' <= c <= '9' || 'a' <= c <= 'f' }

  predicate ValidUuid(v: string) {
    && |v| == 36
    && (forall i :: 0 <= i < 36 ==> if i in {8, 13, 18, 23} then v[i] == '-' else LowerHex(v[i]))
    && '1' <= v[14] <= '5'
    && v[19] in {'8', '9', 'a', 'b'}
  }

  predicate ValidText(v: string, maximum: nat) {
    0 < |v| <= maximum && forall i :: 0 <= i < |v| ==> '!' <= v[i] <= '~'
  }
}
