/** String comparison as the platform's `localeCompare` provides it. */
module Collations {

  ghost predicate LawfulCollation(compare: (string, string) -> int) {
    && (forall a, b :: compare(a, b) < 0 <==> compare(b, a) > 0)
    && (forall a, b, c :: compare(a, b) <= 0 && compare(b, c) <= 0 ==> compare(a, c) <= 0)
  }

  /** A total preorder on strings that may tie on distinct strings. */
  type Collation = compare: (string, string) -> int | LawfulCollation(compare)
    witness (a: string, b: string) => 0
}
