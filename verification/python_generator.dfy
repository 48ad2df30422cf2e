/** The value normalisers of the Python generator (src/generator/python_generator.rs): how
    a cell is written into a Python dict literal. */
module PythonGenerator {
  import opened Strings
  import opened Literals

  /** The Python default for a blank cell (`type_default_value`, unknown types give `None`). */
  function DefaultValue(t: string, v: string): (r: string)
    ensures Trim(v) != [] ==> r == v
    ensures Trim(v) == [] ==> r in {"0", "''", "None"}
  {
    TypeDefaultValue(t, v, "None")
  }

  /** `normalize_key_value`: a key of a `string` column becomes ` '''v''' `. */
  function NormalizeKeyValue(t: string, v: string): (r: string)
    ensures !Contains(t, "string") ==> r == v
    ensures Contains(t, "string") ==> Trim(r) == "'''" + v + "'''"
    ensures Contains(t, "string") ==> |r| >= 2 && r[0] == ' ' && r[|r| - 1] == ' '
  {
    QuotedKey(t, v, "'''", "'''")
  }

  /** The triple-quoted key reads back as the cell exactly when the cell holds no `'''` and
      does not end with `'`. */
  lemma KeyReadsBack(t: string, v: string)
    requires Contains(t, "string")
    ensures Delimits(Trim(NormalizeKeyValue(t, v)), "'''", "'''", v)
        <==> !Contains(v, "'''") && (v == [] || v[|v| - 1] != '\'')
  {
    RepeatedCloser(v, "'''", '\'');
  }

  /** A line break: `\n` or `\r`. */
  predicate HasNewLine(v: string) {
    Contains(v, "\n") || Contains(v, "\r")
  }

  /** The three string forms the generator tries, each read back by Python as `v`: `"v"` or
      `'v'` on one line, or `'''v'''`. Python has other forms (escapes, `"""v"""`) that the
      generator never writes. */
  predicate Readable(s: string, v: string) {
    ShortLiteral(s, '"', v) || ShortLiteral(s, '\'', v) || Delimits(s, "'''", "'''", v)
  }

  /** The quoting choice for `string` cells: double quotes, then single quotes, then triple
      single quotes, which is taken whatever the cell holds. */
  function StringLiteral(v: string): string {
    if !Contains(v, "\"") && !HasNewLine(v) then "\"" + v + "\""
    else if !Contains(v, "'") && !HasNewLine(v) then "'" + v + "'"
    else "'''" + v + "'''"
  }

  /** What `normalize_nonkey_value` writes for a cell of type `t`; it never fails. */
  function NonkeyValue(t: string, v: string): string {
    if Contains(t, "[]") then DefaultValue(t, Braces(v))
    else if Contains(t, "string") then StringLiteral(v)
    else DefaultValue(t, v)
  }

  /** `normalize_nonkey_value`: sets one flag per character class the cell holds, then picks
      the first quoting the flags allow. */
  method NormalizeNonkeyValue(t: string, v: string) returns (r: string)
    ensures r == NonkeyValue(t, v)
  {
    if Contains(t, "[]") {
      var value := Replace(Replace(v, "[", "{"), "]", "}");
      return DefaultValue(t, value);
    }
    if Contains(t, "string") {
      var doubleQuote := false;
      var singleQuote := false;
      var hasNewLine := false;
      if Contains(v, "'") {
        singleQuote := true;
      }
      if Contains(v, "\"") {
        doubleQuote := true;
      }
      if Contains(v, "\n") || Contains(v, "\r") {
        hasNewLine := true;
      }
      if !doubleQuote && !hasNewLine {
        return "\"" + v + "\"";
      }
      if !singleQuote && !hasNewLine {
        return "'" + v + "'";
      }
      return "'''" + v + "'''";
    }
    return DefaultValue(t, v);
  }

  /** The chosen quoting reads back as the cell exactly when a one-line form fits or the
      cell can sit inside triple quotes (no `'''`, no trailing `'`). */
  lemma StringLiteralReadsBack(v: string)
    ensures Readable(StringLiteral(v), v)
        <==> (('"' !in v || '\'' !in v) && '\n' !in v && '\r' !in v)
             || (!Contains(v, "'''") && (v == [] || v[|v| - 1] != '\''))
  {
    ContainsChar(v, '\n');
    ContainsChar(v, '\r');
    ContainsChar(v, '"');
    ContainsChar(v, '\'');
    var s := StringLiteral(v);
    ShortLiteralIff(s, '"', v);
    ShortLiteralIff(s, '\'', v);
    RepeatedCloser(v, "'''", '\'');
  }

  /** Unlike the Lua generator, which panics, a cell that none of the three forms the
      generator tries can hold is still written: `"x'` comes out as `'''"x''''`, which does
      not read back. */
  lemma UnreadableCellWritten()
    ensures NonkeyValue("string", "\"x'") == "'''\"x''''"
    ensures forall s :: !Readable(s, "\"x'")
  {
    var v := "\"x'";
    assert Contains("string", "string") by {
      assert OccursAt("string", "string", 0);
    }
    assert !Contains("string", "[]") by {
      ContainsChar("string", '[');
      if Contains("string", "[]") {
        ContainsFirst("string", "[]");
      }
    }
    assert Contains(v, "\"") by {
      assert OccursAt(v, "\"", 0);
    }
    assert Contains(v, "'") by {
      assert OccursAt(v, "'", 2);
    }
    RepeatedCloser(v, "'''", '\'');
    forall s
      ensures !Readable(s, v)
    {
      ShortLiteralIff(s, '"', v);
      ShortLiteralIff(s, '\'', v);
    }
  }

  /** An array cell has its square brackets turned into braces and then gets the default;
      the array test comes first, so a `string[]` column is never quoted. */
  lemma ArraysUseBraces(t: string, v: string)
    requires Contains(t, "[]")
    ensures NonkeyValue(t, v) == (if Trim(Braces(v)) != [] then Braces(v) else "None")
    ensures '[' !in NonkeyValue(t, v) && ']' !in NonkeyValue(t, v)
  {
    ContainsFirst(t, "[]");
    var b := Braces(v);
    assert '[' !in b && ']' !in b;
    assert '[' !in "None" && ']' !in "None";
    ArrayDefault(t, b, "None");
    assert NonkeyValue(t, v) == DefaultValue(t, b);
  }

  /** A `localize` column whose type does not mention `string` is not quoted: a non-blank
      cell is written raw and a blank one becomes `None`. */
  lemma LocalizeNotQuoted(t: string, v: string)
    requires Contains(t, "localize") && !Contains(t, "string") && !Contains(t, "[]")
    ensures Trim(v) != [] ==> NonkeyValue(t, v) == v
    ensures Trim(v) == [] ==> NonkeyValue(t, v) == "None"
  {
    assert t != "string";
    if t == "int" || t == "float" {
      ContainsFirst(t, "localize");
    }
  }
}
