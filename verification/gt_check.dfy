/** The ordering predicates `gt` and `ge` (src/checker/gt.rs, `Generic<_GT>` and
    `Generic<_GE>`) and their mirrors `lt` and `le`, which share the same generic shape:
    one parameter, the bound, compared with the value in the column's number domain. */
module GtCheck {
  import opened Common
  import opened Strings
  import opened Numbers

  datatype Generic = Generic(order: Order, fieldType: string, base: string)

  function New(order: Order, fieldType: string): Generic {
    Generic(order, fieldType, "")
  }

  /** The bound is still missing. */
  predicate ExpectMore(g: Generic) {
    g.base == []
  }

  /** `Generic::add_param`: the first parameter becomes the bound; later ones are refused. */
  function AddParam(g: Generic, param: string): Progress<Generic> {
    if g.base == [] then Ok(g.(base := param)) else Refused
  }

  /** The comparison an order stands for, with the bound on the left as the source writes it. */
  predicate Holds(order: Order, base: int, v: int) {
    match order
    case Gt => base < v
    case Ge => base <= v
    case Lt => v < base
    case Le => v <= base
  }

  /** `TypeGreater::check_condition`: a column type naming `float` is compared as `f32` (by
      the oracle), else one naming `int` as `i32`, where a bound or a value that does not
      parse is an `unwrap` panic; any other type fails. */
  function CheckCondition(order: Order, fieldType: string, base: string, value: string,
                          fo: FloatOracle): Verdict
  {
    if Contains(fieldType, "float") then fo.Ask(Compare(order, base, value))
    else if Contains(fieldType, "int") then
      match (ParseI32(base), ParseI32(value))
      case (Some(b), Some(v)) => if Holds(order, b, v) then Pass else Fail
      case _ => Panic
    else Fail
  }

  /** `Generic::test`: a blank value fails before any comparison. */
  function Test(g: Generic, value: string, fo: FloatOracle): Verdict {
    if Trim(value) == [] then Fail else CheckCondition(g.order, g.fieldType, g.base, value, fo)
  }

  /** The slot protocol: the bound is taken exactly while it is missing, and a taken
      non-empty bound closes the slot. */
  lemma AddParamProtocol(g: Generic, param: string)
    ensures !AddParam(g, param).Aborted?
    ensures AddParam(g, param).Ok? <==> ExpectMore(g)
    ensures AddParam(g, param).Ok? ==> AddParam(g, param).value == Generic(g.order, g.fieldType, param)
    ensures AddParam(g, param).Ok? ==> (ExpectMore(AddParam(g, param).value) <==> param == [])
  {
  }

  /** On an integer column the predicate means what its name says: for every bound and value
      in the `i32` range, spelled in decimal, the verdict is the comparison itself. */
  lemma IntegerMeaning(order: Order, fieldType: string, b: int, v: int, fo: FloatOracle)
    requires !Contains(fieldType, "float") && Contains(fieldType, "int")
    requires I32_MIN <= b <= I32_MAX && I32_MIN <= v <= I32_MAX
    ensures Test(Generic(order, fieldType, Format(b)), Format(v), fo)
            == (if Holds(order, b, v) then Pass else Fail)
  {
    ParseFormat(b);
    ParseFormat(v);
    IntegerVerdict(order, fieldType, Format(b), Format(v), fo, b, v);
  }

  /** A pass is never spurious: it comes from the float comparison, or from an integer
      column whose bound and value both parse and satisfy the comparison. */
  lemma PassMeansHolds(g: Generic, value: string, fo: FloatOracle)
    requires Test(g, value, fo) == Pass
    ensures Trim(value) != []
    ensures Contains(g.fieldType, "float") || (Contains(g.fieldType, "int")
            && ParseI32(g.base).Some? && ParseI32(value).Some?
            && Holds(g.order, ParseI32(g.base).value, ParseI32(value).value))
  {
  }

  /** On an integer column a non-blank value that is not an `i32` numeral panics, whatever
      the bound. */
  lemma MalformedValuePanics(g: Generic, value: string, fo: FloatOracle)
    requires !Contains(g.fieldType, "float") && Contains(g.fieldType, "int")
    requires Trim(value) != [] && ParseI32(value).None?
    ensures Test(g, value, fo) == Panic
  {
  }

  /** On an integer column, whenever bound and value both parse, the verdict is the
      comparison of the parsed numbers (so `gt` and `le`, `ge` and `lt` are complements). */
  lemma IntegerVerdict(order: Order, fieldType: string, base: string, value: string, fo: FloatOracle, b: int, v: int)
    requires !Contains(fieldType, "float") && Contains(fieldType, "int")
    requires ParseI32(base) == Some(b) && ParseI32(value) == Some(v)
    ensures Test(Generic(order, fieldType, base), value, fo) == if Holds(order, b, v) then Pass else Fail
  {
    ParsedIsNotBlank(value);
  }
}
