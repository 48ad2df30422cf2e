/** The value normalisers of the Lua generator (src/generator/lua_generator.rs): how a field
    name and a cell are written into a Lua table constructor. */
module LuaGenerator {
  import opened Common
  import opened Strings
  import opened Literals

  /** The Lua reserved words `transfer_lua_keyword` escapes. */
  const Reserved: set<string> := {"function", "end", "do", "for", "if", "else", "elseif", "then", "while"}

  /** `transfer_lua_keyword`: a field name that is one of the reserved words is written as an
      indexed key `['word']`; any other name is kept. The result is never a reserved word. */
  function TransferLuaKeyword(word: string): (r: string)
    ensures r !in Reserved
    ensures r == word || r == "['" + word + "']"
    ensures r == word <==> word !in Reserved
  {
    if word in Reserved then
      assert ("['" + word + "']")[0] == '[';
      "['" + word + "']"
    else word
  }

  /** Two names that hold no `[` are written the same only when they are the same name. */
  lemma TransferInjective(a: string, b: string)
    requires '[' !in a && '[' !in b
    requires TransferLuaKeyword(a) == TransferLuaKeyword(b)
    ensures a == b
  {
    assert ("['" + a + "']")[0] == '[';
    assert ("['" + b + "']")[0] == '[';
    if a in Reserved && b in Reserved {
      var ra := TransferLuaKeyword(a);
      assert ra[2..|ra| - 2] == a;
      assert ra[2..|ra| - 2] == b;
    }
  }

  /** A reserved word is escaped and a name holding `[` may look like an escaped one:
      `end` and `['end']` are written the same. */
  lemma EscapedNameCollides()
    ensures TransferLuaKeyword("end") == TransferLuaKeyword("['end']")
  {
    assert "['end']" !in Reserved;
  }

  /** The Lua default for a blank cell (`type_default_value`, unknown types give `nil`). */
  function DefaultValue(t: string, v: string): (r: string)
    ensures Trim(v) != [] ==> r == v
    ensures Trim(v) == [] ==> r in {"0", "''", "nil"}
  {
    TypeDefaultValue(t, v, "nil")
  }

  /** `normalize_key_value`: a key of a `string` column becomes ` [[v]] `. */
  function NormalizeKeyValue(t: string, v: string): (r: string)
    ensures !Contains(t, "string") ==> r == v
    ensures Contains(t, "string") ==> Trim(r) == "[[" + v + "]]"
    ensures Contains(t, "string") ==> |r| >= 2 && r[0] == ' ' && r[|r| - 1] == ' '
  {
    QuotedKey(t, v, "[[", "]]")
  }

  /** The long-bracket key reads back as the cell exactly when the cell holds no `]]` and
      does not end with `]`. */
  lemma KeyReadsBack(t: string, v: string)
    requires Contains(t, "string")
    ensures Delimits(Trim(NormalizeKeyValue(t, v)), "[[", "]]", v)
        <==> !Contains(v, "]]") && (v == [] || v[|v| - 1] != ']')
  {
    RepeatedCloser(v, "]]", ']');
  }

  /** A line break: `\n` or `\r`. */
  predicate HasNewLine(v: string) {
    Contains(v, "\n") || Contains(v, "\r")
  }

  /** The three string forms the generator tries, each read back by Lua as `v`: `"v"` or
      `'v'` on one line, or the long bracket `[[v]]`. Lua has other forms (escapes, long
      brackets of a higher level such as `[=[v]=]`) that the generator never writes. */
  predicate Readable(s: string, v: string) {
    ShortLiteral(s, '"', v) || ShortLiteral(s, '\'', v) || Delimits(s, "[[", "]]", v)
  }

  /** The quoting choice for `string` and `localize` cells: double quotes, then single
      quotes, then long brackets; a cell none of them can hold makes the generator panic. */
  function StringLiteral(v: string): Outcome<string> {
    if !Contains(v, "\"") && !HasNewLine(v) then Returned("\"" + v + "\"")
    else if !Contains(v, "'") && !HasNewLine(v) then Returned("'" + v + "'")
    else if !(Contains(v, "]]") || EndsWith(v, "]")) then Returned("[[" + v + "]]")
    else Panicked
  }

  /** What `normalize_nonkey_value` writes for a cell of type `t`. */
  function NonkeyValue(t: string, v: string): Outcome<string> {
    if Contains(t, "[]") then Returned(DefaultValue(t, Braces(v)))
    else if Contains(t, "string") || Contains(t, "localize") then StringLiteral(v)
    else Returned(DefaultValue(t, v))
  }

  /** `normalize_nonkey_value`: sets one flag per character class the cell holds, then picks
      the first quoting the flags allow. */
  method NormalizeNonkeyValue(t: string, v: string) returns (r: Outcome<string>)
    ensures r == NonkeyValue(t, v)
  {
    if Contains(t, "[]") {
      var value := Replace(Replace(v, "[", "{"), "]", "}");
      return Returned(DefaultValue(t, value));
    }
    if Contains(t, "string") || Contains(t, "localize") {
      var doubleQuote := false;
      var singleQuote := false;
      var rightBrace := false;
      var hasNewLine := false;
      if Contains(v, "'") {
        singleQuote := true;
      }
      if Contains(v, "\"") {
        doubleQuote := true;
      }
      if Contains(v, "]]") || EndsWith(v, "]") {
        rightBrace := true;
      }
      if Contains(v, "\n") || Contains(v, "\r") {
        hasNewLine := true;
      }
      if !doubleQuote && !hasNewLine {
        return Returned("\"" + v + "\"");
      }
      if !singleQuote && !hasNewLine {
        return Returned("'" + v + "'");
      }
      if !rightBrace {
        return Returned("[[" + v + "]]");
      }
      return Panicked;
    }
    return Returned(DefaultValue(t, v));
  }

  /** A line break held by the cell, as a character. */
  lemma NewLineChars(v: string)
    ensures HasNewLine(v) <==> '\n' in v || '\r' in v
  {
    ContainsChar(v, '\n');
    ContainsChar(v, '\r');
  }

  /** Whatever quoting is chosen reads back as the cell, and the generator panics exactly
      when none of the three forms it tries reads back as the cell. */
  lemma StringLiteralReadsBack(v: string)
    ensures StringLiteral(v).Returned? ==> Readable(StringLiteral(v).value, v)
    ensures StringLiteral(v).Panicked? <==> forall s :: !Readable(s, v)
  {
    NewLineChars(v);
    ContainsChar(v, '"');
    ContainsChar(v, '\'');
    ShortLiteralIff("\"" + v + "\"", '"', v);
    ShortLiteralIff("'" + v + "'", '\'', v);
    RepeatedCloser(v, "]]", ']');
    assert EndsWith(v, "]") <==> v != [] && v[|v| - 1] == ']' by {
      if v != [] {
        assert v[|v| - 1..] == [v[|v| - 1]];
      }
    }
    if StringLiteral(v).Panicked? {
      forall s
        ensures !Readable(s, v)
      {
        ShortLiteralIff(s, '"', v);
        ShortLiteralIff(s, '\'', v);
      }
    } else {
      assert Readable(StringLiteral(v).value, v);
    }
  }

  /** An array cell has its square brackets turned into braces and then gets the default;
      the array test comes first, so a `string[]` column is never quoted. */
  lemma ArraysUseBraces(t: string, v: string)
    requires Contains(t, "[]")
    ensures NonkeyValue(t, v) == Returned(if Trim(Braces(v)) != [] then Braces(v) else "nil")
    ensures '[' !in NonkeyValue(t, v).value && ']' !in NonkeyValue(t, v).value
  {
    ContainsFirst(t, "[]");
    var b := Braces(v);
    assert '[' !in b && ']' !in b;
    assert '[' !in "nil" && ']' !in "nil";
    ArrayDefault(t, b, "nil");
    assert NonkeyValue(t, v) == Returned(DefaultValue(t, b));
  }
}
