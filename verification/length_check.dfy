/** The `len` predicate (src/checker/length.rs): two `i32` parameters, the inclusive
    bounds of a length, both unset (`-1`) at the start. */
module LengthCheck {
  import opened Common
  import opened Strings
  import opened Numbers

  datatype Len = Len(fieldType: string, lenMin: int, lenMax: int)

  function New(fieldType: string): Len {
    Len(fieldType, -1, -1)
  }

  /** A bound is still unset (negative). */
  predicate ExpectMore(l: Len) {
    l.lenMin < 0 || l.lenMax < 0
  }

  /** `Len::add_param`: the first unset bound, minimum first, is parsed as an `i32`; a
      parameter that does not parse is an `unwrap` panic. Refused once both are set. */
  function AddParam(l: Len, param: string): Progress<Len> {
    if l.lenMin < 0 then
      match ParseI32(param)
      case Some(n) => Ok(l.(lenMin := n))
      case None => Aborted
    else if l.lenMax < 0 then
      match ParseI32(param)
      case Some(n) => Ok(l.(lenMax := n))
      case None => Aborted
    else Refused
  }

  /** The length `test` measures: for a string or localize column the UTF-8 byte length,
      for an array column (`[]`) the number of comma-separated segments, each read through
      Rust's `usize as i32` cast; other columns have none. */
  function Measure(fieldType: string, value: string): Option<int> {
    if Contains(fieldType, "string") || Contains(fieldType, "localize") then Some(AsI32(Utf8Len(value)))
    else if Contains(fieldType, "[]") then Some(AsI32(Count(value, ',') + 1))
    else None
  }

  /** `Len::test`: the measured length lies between the bounds, both inclusive. The value
      is not trimmed, and a blank value is measured like any other. */
  function Test(l: Len, value: string): bool {
    match Measure(l.fieldType, value)
    case Some(n) => l.lenMin <= n <= l.lenMax
    case None => false
  }

  /** The slot protocol: a parameter is taken exactly while a bound is unset; it sets the
      minimum first; a malformed one panics. */
  lemma AddParamProtocol(l: Len, param: string)
    ensures AddParam(l, param).Refused? <==> !ExpectMore(l)
    ensures AddParam(l, param).Aborted? <==> ExpectMore(l) && ParseI32(param).None?
    ensures AddParam(l, param).Ok? && l.lenMin < 0 ==> AddParam(l, param).value == Len(l.fieldType, ParseI32(param).value, l.lenMax)
    ensures AddParam(l, param).Ok? && l.lenMin >= 0 ==> AddParam(l, param).value == Len(l.fieldType, l.lenMin, ParseI32(param).value)
  {
  }

  /** A parameter `-1` leaves its slot unset, so the next parameter fills the minimum:
      after `"-1"` and then `"5"` the minimum is 5 and the maximum is still expected. */
  lemma MinusOneIsUnset(fieldType: string)
    ensures AddParam(New(fieldType), "-1") == Ok(New(fieldType))
    ensures AddParam(New(fieldType), "5") == Ok(Len(fieldType, 5, -1))
    ensures ExpectMore(Len(fieldType, 5, -1))
  {
    assert ParseI32("-1") == Some(-1) by { ParseFormat(-1); }
    assert ParseI32("5") == Some(5) by { ParseFormat(5); }
  }

  /** On a string column shorter than 2^31 bytes the predicate is a bound on the byte
      length. */
  lemma StringMeaning(l: Len, value: string)
    requires Contains(l.fieldType, "string") || Contains(l.fieldType, "localize")
    requires Utf8Len(value) <= I32_MAX
    ensures Test(l, value) <==> l.lenMin <= Utf8Len(value) <= l.lenMax
  {
    AsI32Small(Utf8Len(value));
  }

  /** On an array column with fewer than 2^31 elements the predicate is a bound on the
      number of elements, the segments that `split(",")` yields. */
  lemma ArrayMeaning(l: Len, value: string)
    requires !Contains(l.fieldType, "string") && !Contains(l.fieldType, "localize")
    requires Contains(l.fieldType, "[]")
    requires |value| < I32_MAX
    ensures Test(l, value) <==> l.lenMin <= |Split(value, ',')| <= l.lenMax
  {
    CountBound(value, ',');
    AsI32Small(Count(value, ',') + 1);
  }

  lemma {:induction false} CountBound(s: string, c: char)
    ensures Count(s, c) <= |s|
    decreases |s|
  {
    if s != [] {
      CountBound(s[1..], c);
    }
  }

  /** Past 2^31 bytes the `usize as i32` cast wraps: a value of 2^32 UTF-8 bytes measures 0. */
  lemma WrapAround(fieldType: string, value: string)
    requires Contains(fieldType, "string")
    requires Utf8Len(value) == 0x1_0000_0000
    ensures Measure(fieldType, value) == Some(0)
    ensures Test(Len(fieldType, 0, 10), value)
  {
  }
}
