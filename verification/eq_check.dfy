/** The `eq` predicate (src/checker/eq.rs): one parameter, compared after trimming. */
module EqCheck {
  import opened Common
  import opened Strings

  datatype Eq = Eq(expected: string)

  function New(): Eq {
    Eq("")
  }

  /** The parameter slot is still empty. */
  predicate ExpectMore(e: Eq) {
    e.expected == []
  }

  /** `Eq::add_param`: stores the parameter while the slot is empty; refused afterwards,
      leaving the stored expectation as it was. */
  function AddParam(e: Eq, param: string): Progress<Eq> {
    if e.expected == [] then Ok(Eq(param)) else Refused
  }

  /** `Eq::test`. */
  function Test(e: Eq, value: string): bool {
    Trim(e.expected) == Trim(value)
  }

  /** The slot protocol: a parameter is taken exactly while one is expected, a taken
      parameter is stored as given, and a stored non-empty parameter closes the slot. */
  lemma AddParamProtocol(e: Eq, param: string)
    ensures !AddParam(e, param).Aborted?
    ensures AddParam(e, param).Ok? <==> ExpectMore(e)
    ensures AddParam(e, param).Ok? ==> AddParam(e, param).value.expected == param
    ensures AddParam(e, param).Ok? ==> (ExpectMore(AddParam(e, param).value) <==> param == [])
  {
  }

  /** Whitespace around the value or around the expectation never changes the verdict. */
  lemma TestIgnoresPadding(e: Eq, value: string, pre: string, post: string)
    requires AllWhitespace(pre) && AllWhitespace(post)
    ensures Test(e, pre + value + post) == Test(e, value)
    ensures Test(Eq(pre + e.expected + post), value) == Test(e, value)
  {
    TrimPadded(pre, value, post);
    TrimPadded(pre, e.expected, post);
  }
}
