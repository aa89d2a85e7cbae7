/** The two orders on texts: code-unit order and locale comparison. */
module Collations {
  import opened JsText
  import opened Sorting

  /** `localeCompare`, taken as a comparison that is 0 only on equal texts. */
  type Collation = (Text, Text) -> int

  ghost predicate StrictCollation(loc: Collation) {
    && (forall a, b :: loc(a, b) == 0 <==> a == b)
    && (forall a, b :: loc(a, b) < 0 <==> loc(b, a) > 0)
    && (forall a, b, c :: loc(a, b) <= 0 && loc(b, c) <= 0 ==> loc(a, c) <= 0)
  }

  lemma CollationIsTotal(loc: Collation, a: Text, b: Text)
    requires StrictCollation(loc)
    ensures loc(a, b) <= 0 || loc(b, a) <= 0
    ensures loc(a, b) <= 0 && loc(b, a) <= 0 <==> a == b
  {
    assert loc(a, b) < 0 <==> loc(b, a) > 0;
    assert loc(b, a) < 0 <==> loc(a, b) > 0;
    assert loc(a, b) == 0 <==> a == b;
    assert loc(b, a) == 0 <==> a == b;
  }

  lemma LexIsTotalOrder()
    ensures TotalOrder(LexLe)
  {
    forall a, b
      ensures LexLe(a, b) || LexLe(b, a)
      ensures LexLe(a, b) && LexLe(b, a) ==> a == b
    {
      LexTotal(a, b);
      if LexLe(a, b) && LexLe(b, a) {
        LexAntisymmetric(a, b);
      }
    }
    forall a, b, c | LexLe(a, b) && LexLe(b, c)
      ensures LexLe(a, c)
    {
      LexTransitive(a, b, c);
    }
  }
}
