/** Pieces the Lua, Python and SQL generators share (src/generator/lua_generator.rs,
    src/generator/python_generator.rs, src/generator/sql_generator.rs): the default for a
    blank cell, the indentation helper, the bracket rewriting of array cells, and what it
    means for a quoted text to read back as the cell it was written from. */
module Literals {
  import opened Strings

  /** `type_default_value` of the Lua, Python and SQL generators: a cell that is not blank
      is kept; a blank one becomes `0` for `int` and `float`, `''` for `string`, and
      `unknown` (`nil` in Lua, `None` in Python and SQL) for any other type. */
  function TypeDefaultValue(t: string, v: string, unknown: string): (r: string)
    ensures Trim(v) != [] ==> r == v
    ensures Trim(v) == [] && t !in {"int", "float", "string"} ==> r == unknown
    ensures Trim(v) == [] && t in {"int", "float", "string"} ==> Trim(r) != []
  {
    if Trim(v) != [] then v
    else if t == "int" || t == "float" then NotBlank("0"); "0"
    else if t == "string" then NotBlank("''"); "''"
    else unknown
  }

  /** For a type naming an array (it holds `[`) a blank cell gets the unknown value. */
  lemma ArrayDefault(t: string, v: string, unknown: string)
    requires '[' in t
    ensures TypeDefaultValue(t, v, unknown) == if Trim(v) != [] then v else unknown
  {
    assert t != "int" && t != "float" && t != "string" by {
      assert '[' !in "int" && '[' !in "float" && '[' !in "string";
    }
  }

  /** `get_space_str` of the Lua and Python generators: starts empty and appends one space
      while counting the number down to zero. */
  method GetSpaceStr(spaceNum: nat) returns (space: string)
    ensures |space| == spaceNum
    ensures forall i :: 0 <= i < |space| ==> space[i] == ' '
  {
    space := "";
    var num := spaceNum;
    while num > 0
      invariant 0 <= num <= spaceNum
      invariant |space| == spaceNum - num
      invariant forall i :: 0 <= i < |space| ==> space[i] == ' '
    {
      space := space + " ";
      num := num - 1;
    }
  }

  /** The array rewriting of the Lua and Python generators: `[` becomes `{` and `]`
      becomes `}`, so no square bracket is left. */
  function Braces(v: string): (r: string)
    ensures '[' !in r && ']' !in r
  {
    var open := Replace(v, "[", "{");
    ReplaceRemoves(v, '[', "{");
    ReplaceKeepsOut(open, "]", "}", '[');
    ReplaceRemoves(open, ']', "}");
    Replace(open, "]", "}")
  }

  /** `normalize_key_value` of the Lua, Python and SQL generators: a key cell of a column
      whose type mentions `string` is written between `open` and `close` with one space on
      each side, so that once trimmed it is exactly the delimited text; any other key cell
      is written as it is. */
  function QuotedKey(t: string, v: string, open: string, close: string): (r: string)
    requires open != [] && !IsWhitespace(open[0])
    requires close != [] && !IsWhitespace(close[|close| - 1])
    ensures !Contains(t, "string") ==> r == v
    ensures Contains(t, "string") ==> Trim(r) == open + v + close && |r| == |open + v + close| + 2
    ensures Contains(t, "string") ==> r[0] == ' ' && r[|r| - 1] == ' ' && r[1..|r| - 1] == open + v + close
  {
    if Contains(t, "string") then
      var s := open + v + close;
      assert s[0] == open[0] && s[|s| - 1] == close[|close| - 1];
      TrimOfTrimmed(s);
      TrimPadded(" ", s, " ");
      " " + s + " "
    else v
  }

  /** The first occurrence of `close` in `s` is the suffix of `s`. */
  predicate ClosesAtEnd(s: string, close: string) {
    EndsWith(s, close) && forall k :: 0 <= k < |s| - |close| ==> !OccursAt(s, close, k)
  }

  /** `s` is `v` between the delimiters `open` and `close`, and a reader that stops at the
      first `close` after `open` reads exactly `v` (escape sequences are not considered). */
  predicate Delimits(s: string, open: string, close: string, v: string) {
    s == open + v + close && ClosesAtEnd(v + close, close)
  }

  /** A one-line quoted form: no newline or carriage return inside. */
  predicate ShortLiteral(s: string, q: char, v: string) {
    Delimits(s, [q], [q], v) && '\n' !in v && '\r' !in v
  }

  /** A closing delimiter made of one repeated character is found first at the end of
      `v + close` exactly when `v` does not contain it and does not end with that character
      (which would start the closing delimiter early). */
  lemma RepeatedCloser(v: string, close: string, x: char)
    requires close != [] && forall i :: 0 <= i < |close| ==> close[i] == x
    ensures ClosesAtEnd(v + close, close) <==> !Contains(v, close) && (v == [] || v[|v| - 1] != x)
  {
    var s := v + close;
    assert s[|s| - |close|..] == close;
    if Contains(v, close) {
      var k :| 0 <= k <= |v| && OccursAt(v, close, k);
      assert s[k..k + |close|] == v[k..k + |close|];
      assert OccursAt(s, close, k);
    }
    if v != [] && v[|v| - 1] == x {
      var k := |v| - 1;
      assert s[k..k + |close|] == close by {
        forall i | 0 <= i < |close|
          ensures s[k + i] == close[i]
        {
          if i == 0 {
            assert s[k] == v[k];
          } else {
            assert s[k + i] == close[i - 1];
          }
        }
      }
      assert OccursAt(s, close, k);
    }
    if !Contains(v, close) && (v == [] || v[|v| - 1] != x) {
      forall k | 0 <= k < |s| - |close|
        ensures !OccursAt(s, close, k)
      {
        if k + |close| <= |v| {
          assert v[k..k + |close|] == s[k..k + |close|];
          assert !OccursAt(v, close, k);
        } else {
          assert s[|v| - 1] == v[|v| - 1];
          assert s[k..k + |close|][|v| - 1 - k] == s[|v| - 1];
        }
      }
    }
  }

  /** A quote character closes a short form at the end exactly when the text does not
      hold it. */
  lemma ShortCloser(v: string, q: char)
    ensures ClosesAtEnd(v + [q], [q]) <==> q !in v
  {
    RepeatedCloser(v, [q], q);
    ContainsChar(v, q);
  }

  /** A text can be written in the one-line form with quote `q` exactly when it holds
      neither `q` nor a line break, and then the form is `q v q`. */
  lemma ShortLiteralIff(s: string, q: char, v: string)
    ensures ShortLiteral(s, q, v) <==> s == [q] + v + [q] && q !in v && '\n' !in v && '\r' !in v
  {
    ShortCloser(v, q);
  }
}
