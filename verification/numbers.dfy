/** Rust's `str::parse::<i32>` and the `usize as i32` cast, on unbounded integers. */
module Numbers {
  import opened Common
  import opened Strings

  const I32_MIN: int := -0x8000_0000
  const I32_MAX: int := 0x7fff_ffff

  predicate IsDigit(c: char) {
    '0' <= c <= '9'
  }

  /** The value of a non-empty string of decimal digits; `None` when it is empty or holds
      anything else. */
  function Natural(s: string): (r: Option<nat>)
    ensures r.Some? ==> s != [] && IsDigit(s[0]) && IsDigit(s[|s| - 1])
    decreases |s|
  {
    if s == [] || !IsDigit(s[|s| - 1]) then None
    else
      var d := s[|s| - 1] as int - '0' as int;
      if |s| == 1 then Some(d)
      else match Natural(s[..|s| - 1])
           case Some(n) => Some(10 * n + d)
           case None => None
  }

  /** Rust's `str::parse::<i32>`: an optional `+` or `-`, then one or more ASCII digits, and
      a value inside the `i32` range; anything else (spaces, a decimal point, an empty
      string, a lone sign, an overflow) is an error, `None` here. */
  function ParseI32(s: string): (r: Option<int>)
    ensures r.Some? ==> I32_MIN <= r.value <= I32_MAX
    ensures r.Some? ==> s != [] && (IsDigit(s[0]) || s[0] == '+' || s[0] == '-') && IsDigit(s[|s| - 1])
  {
    if s == [] then None
    else
      var digits := if s[0] == '+' || s[0] == '-' then s[1..] else s;
      match Natural(digits)
      case None => None
      case Some(m) =>
        var n: int := if s[0] == '-' then -(m as int) else m;
        if I32_MIN <= n <= I32_MAX then Some(n) else None
  }

  function DigitChar(d: nat): (c: char)
    requires d < 10
    ensures IsDigit(c) && c as int - '0' as int == d
  {
    ('0' as int + d) as char
  }

  /** The shortest decimal spelling of a natural number. */
  function Decimal(n: nat): (s: string)
    ensures s != [] && IsDigit(s[0])
    decreases n
  {
    if n < 10 then [DigitChar(n)] else Decimal(n / 10) + [DigitChar(n % 10)]
  }

  /** The decimal spelling of an integer, with a leading `-` when it is negative. */
  function Format(n: int): string {
    if n < 0 then "-" + Decimal(-n) else Decimal(n)
  }

  /** Reading back a decimal spelling gives the number. */
  lemma {:induction false} NaturalDecimal(n: nat)
    ensures Natural(Decimal(n)) == Some(n)
    decreases n
  {
    if n >= 10 {
      NaturalDecimal(n / 10);
      var s := Decimal(n);
      assert s[..|s| - 1] == Decimal(n / 10);
    }
  }

  /** Parsing is the inverse of printing on the whole `i32` range. */
  lemma ParseFormat(n: int)
    requires I32_MIN <= n <= I32_MAX
    ensures ParseI32(Format(n)) == Some(n)
  {
    var s := Format(n);
    if n < 0 {
      var d := Decimal(-n);
      NaturalDecimal(-n);
      assert s == "-" + d;
      assert s[0] == '-' && s[1..] == d;
    } else {
      var d := Decimal(n);
      NaturalDecimal(n);
      assert s == d;
      assert s[0] != '-' && s[0] != '+';
    }
  }

  /** A numeral is never blank: it starts with a digit or a sign. */
  lemma ParsedIsNotBlank(s: string)
    requires ParseI32(s).Some?
    ensures Trim(s) != []
  {
    NotBlank(s);
  }

  /** Rust's `usize as i32`: the low 32 bits read as a two's-complement number. */
  function AsI32(n: nat): (r: int)
    ensures I32_MIN <= r <= I32_MAX
    ensures (r - n) % 0x1_0000_0000 == 0
  {
    var m := n % 0x1_0000_0000;
    if m <= I32_MAX then m else m - 0x1_0000_0000
  }

  /** The cast is the identity on the non-negative `i32` range. */
  lemma AsI32Small(n: nat)
    requires n <= I32_MAX
    ensures AsI32(n) == n
  {
  }
}
