/** The `range` predicate (src/checker/range.rs): two parameters, the inclusive bounds. */
module RangeCheck {
  import opened Common
  import opened Strings
  import opened Numbers

  datatype Range = Range(fieldType: string, start: string, end: string)

  function New(fieldType: string): Range {
    Range(fieldType, "", "")
  }

  /** A bound is still missing. */
  predicate ExpectMore(r: Range) {
    r.start == [] || r.end == []
  }

  /** `Range::add_param`: fills `start`, then `end`; refused once both are set. */
  function AddParam(r: Range, param: string): Progress<Range> {
    if r.start == [] then Ok(r.(start := param))
    else if r.end == [] then Ok(r.(end := param))
    else Refused
  }

  /** `Range::is_in_range::<i32>`: value, start and end are parsed (an `unwrap` panic if
      any of them is not an `i32` numeral), then compared inclusively. */
  function InRangeI32(r: Range, value: string): Verdict {
    match (ParseI32(value), ParseI32(r.start), ParseI32(r.end))
    case (Some(v), Some(s), Some(e)) => if v < s || v > e then Fail else Pass
    case _ => Panic
  }

  /** `Range::test`: a blank value fails; a `float` column is compared as `f32` (by the
      oracle), else an `int` column as `i32`; any other type fails. */
  function Test(r: Range, value: string, fo: FloatOracle): Verdict {
    if Trim(value) == [] then Fail
    else if Contains(r.fieldType, "float") then fo.Ask(Between(r.start, r.end, value))
    else if Contains(r.fieldType, "int") then InRangeI32(r, value)
    else Fail
  }

  /** The slot protocol: parameters fill `start` then `end`, exactly while one is missing. */
  lemma AddParamProtocol(r: Range, param: string)
    ensures !AddParam(r, param).Aborted?
    ensures AddParam(r, param).Ok? <==> ExpectMore(r)
    ensures AddParam(r, param).Ok? && r.start == [] ==> AddParam(r, param).value == Range(r.fieldType, param, r.end)
    ensures AddParam(r, param).Ok? && r.start != [] ==> AddParam(r, param).value == Range(r.fieldType, r.start, param)
  {
  }

  /** Two non-empty parameters given to a fresh `range` become its bounds, in order, and
      complete it. */
  lemma TwoParamsComplete(fieldType: string, a: string, b: string)
    requires a != [] && b != []
    ensures AddParam(New(fieldType), a) == Ok(Range(fieldType, a, ""))
    ensures AddParam(Range(fieldType, a, ""), b) == Ok(Range(fieldType, a, b))
    ensures !ExpectMore(Range(fieldType, a, b))
  {
  }

  /** On an integer column the predicate is interval membership: for bounds and a value in
      the `i32` range, spelled in decimal, it passes iff `start <= v <= end`. */
  lemma IntegerMeaning(fieldType: string, s: int, e: int, v: int, fo: FloatOracle)
    requires !Contains(fieldType, "float") && Contains(fieldType, "int")
    requires I32_MIN <= s <= I32_MAX && I32_MIN <= e <= I32_MAX && I32_MIN <= v <= I32_MAX
    ensures Test(Range(fieldType, Format(s), Format(e)), Format(v), fo)
            == (if s <= v <= e then Pass else Fail)
  {
    ParseFormat(s);
    ParseFormat(e);
    ParseFormat(v);
    IntegerVerdict(fieldType, Format(s), Format(e), Format(v), fo, s, e, v);
  }

  /** On an integer column, bounds and value that parse are compared inclusively. */
  lemma IntegerVerdict(fieldType: string, start: string, end: string, value: string, fo: FloatOracle,
                       s: int, e: int, v: int)
    requires !Contains(fieldType, "float") && Contains(fieldType, "int")
    requires ParseI32(start) == Some(s) && ParseI32(end) == Some(e) && ParseI32(value) == Some(v)
    ensures Test(Range(fieldType, start, end), value, fo) == if s <= v <= e then Pass else Fail
  {
    var r := Range(fieldType, start, end);
    assert InRangeI32(r, value) == if s <= v <= e then Pass else Fail;
    ParsedIsNotBlank(value);
  }

  /** A pass is never spurious: outside a float column it needs three parsed numbers with
      the value between the bounds. */
  lemma PassMeansInside(r: Range, value: string, fo: FloatOracle)
    requires Test(r, value, fo) == Pass
    ensures Trim(value) != []
    ensures Contains(r.fieldType, "float") || (Contains(r.fieldType, "int")
            && ParseI32(value).Some? && ParseI32(r.start).Some? && ParseI32(r.end).Some?
            && ParseI32(r.start).value <= ParseI32(value).value <= ParseI32(r.end).value)
  {
  }
}
