/** The `empty` predicate (src/checker/empty.rs): stateless, it passes blank values. */
module EmptyCheck {
  import opened Strings

  /** `Empty::test`: the value is blank once trimmed, that is, it is made of whitespace only. */
  function Test(value: string): (r: bool)
    ensures r <==> AllWhitespace(value)
  {
    Trim(value) == []
  }
}
