/** The folds `CheckObj` makes over its root checkers (src/checker.rs:236-305). */
module CheckSet {
  import opened Common
  import opened Checkers
  import Dataset

  /** `CheckObj::test`: the roots are tried in order and the first one that does not pass
      decides (a panic ends the run); with every root passing, the set passes. */
  function TestAll(cs: seq<Checker>, value: string, fo: FloatOracle): Verdict
    decreases |cs|
  {
    if cs == [] then Pass
    else
      var v := Test(cs[0], value, fo);
      if v != Pass then v else TestAll(cs[1..], value, fo)
  }

  /** `CheckObj::test_on_all_load`: every root passes its full-load test. */
  predicate TestAllOnLoad(cs: seq<Checker>, value: string, ds: Dataset.Dataset) {
    forall k :: 0 <= k < |cs| ==> TestOnAllLoad(cs[k], value, ds)
  }

  /** `CheckObj::need_full_load`: some root asks for every workbook to be loaded. */
  predicate AnyNeedsFullLoad(cs: seq<Checker>) {
    exists k :: 0 <= k < |cs| && NeedFullLoad(cs[k])
  }

  /** `CheckObj::is_all_ready`: no root expects a parameter or a child. */
  predicate AllReady(cs: seq<Checker>) {
    forall k :: 0 <= k < |cs| ==> !ExpectMore(cs[k])
  }

  /** The set passes exactly when every root passes: it is the conjunction of the roots. */
  lemma {:induction false} TestAllConjunction(cs: seq<Checker>, value: string, fo: FloatOracle)
    ensures TestAll(cs, value, fo) == Pass <==> forall k :: 0 <= k < |cs| ==> Test(cs[k], value, fo) == Pass
    decreases |cs|
  {
    if cs != [] {
      TestAllConjunction(cs[1..], value, fo);
      assert forall k :: 1 <= k < |cs| ==> cs[k] == cs[1..][k - 1];
    }
  }

  /** When the set does not pass, its verdict is that of the first root that does not
      pass, every root before it passing. */
  lemma {:induction false} TestAllFirstFailure(cs: seq<Checker>, value: string, fo: FloatOracle)
    requires TestAll(cs, value, fo) != Pass
    ensures exists k :: 0 <= k < |cs| && Test(cs[k], value, fo) == TestAll(cs, value, fo)
                        && forall j :: 0 <= j < k ==> Test(cs[j], value, fo) == Pass
    decreases |cs|
  {
    if Test(cs[0], value, fo) == Pass {
      TestAllFirstFailure(cs[1..], value, fo);
      var k :| 0 <= k < |cs[1..]| && Test(cs[1..][k], value, fo) == TestAll(cs[1..], value, fo)
               && forall j :: 0 <= j < k ==> Test(cs[1..][j], value, fo) == Pass;
      assert Test(cs[k + 1], value, fo) == TestAll(cs, value, fo);
      forall j | 0 <= j < k + 1
        ensures Test(cs[j], value, fo) == Pass
      {
        if j > 0 {
          assert cs[j] == cs[1..][j - 1];
        }
      }
    } else {
      assert Test(cs[0], value, fo) == TestAll(cs, value, fo);
    }
  }

  /** The empty set is the "no constraint" sentinel: it passes every value, passes every
      full-load test, and never asks for a full load. */
  lemma EmptySetAcceptsAll(value: string, fo: FloatOracle, ds: Dataset.Dataset)
    ensures TestAll([], value, fo) == Pass
    ensures TestAllOnLoad([], value, ds)
    ensures !AnyNeedsFullLoad([])
    ensures AllReady([])
  {
  }
}
