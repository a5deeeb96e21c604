/** What is assumed of `left.localeCompare(right)`, which is otherwise left abstract. */
module Collation {
  import opened Strings

  type Collate = (Text, Text) -> int

  /** It answers with opposite signs when its arguments are exchanged. */
  ghost predicate Signed(collate: Collate) {
    forall a: Text, b: Text :: collate(a, b) < 0 <==> collate(b, a) > 0
  }

  /** Besides, it is transitive; it may equate different texts. */
  ghost predicate Preordered(collate: Collate) {
    && Signed(collate)
    && forall a: Text, b: Text, c: Text :: collate(a, b) <= 0 && collate(b, c) <= 0 ==> collate(a, c) <= 0
  }

  /** Besides, it never equates two different texts. */
  ghost predicate Linear(collate: Collate) {
    && Preordered(collate)
    && forall a: Text, b: Text :: collate(a, b) == 0 <==> a == b
  }

  /** Comparing texts first and numbers among equals is transitive, and settles on equality of both. */
  lemma TextThenNumber(collate: Collate, a: Text, m: int, b: Text, n: int, c: Text, k: int)
    requires Preordered(collate)
    ensures Then(collate(a, b), m - n) <= 0 && Then(collate(b, c), n - k) <= 0 ==> Then(collate(a, c), m - k) <= 0
    ensures Then(collate(a, b), m - n) <= 0 && Then(collate(b, a), n - m) <= 0 ==> m == n
    ensures Then(collate(a, b), m - n) > 0 ==> Then(collate(b, a), n - m) <= 0
  {
    assert collate(c, a) <= 0 && collate(a, b) <= 0 ==> collate(c, b) <= 0;
    assert collate(b, c) <= 0 && collate(c, a) <= 0 ==> collate(b, a) <= 0;
  }

  /** `first || second` on comparison results. */
  function Then(first: int, second: int): int {
    if first != 0 then first else second
  }
}
