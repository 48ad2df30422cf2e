/** The value normaliser of the JSON generator (src/generator/json_generator.rs:32-103):
    how one cell is written into the JSON output according to its column type. */
module JsonGenerator {
  import opened Strings

  /** `replace_json_br`: drop every carriage return, turn every escaped newline (a backslash
      followed by `n`) into a real one, then write every newline escaped. */
  function ReplaceJsonBr(s: string): (r: string)
    ensures '\r' !in r && '\n' !in r
  {
    var noCr := Replace(s, "\r", "");
    var unescaped := Replace(noCr, "\\n", "\n");
    ReplaceRemoves(s, '\r', "");
    ReplaceKeepsOut(noCr, "\\n", "\n", '\r');
    ReplaceKeepsOut(unescaped, "\n", "\\n", '\r');
    ReplaceRemoves(unescaped, '\n', "\\n");
    Replace(unescaped, "\n", "\\n")
  }

  /** Text without carriage returns, newlines or escaped newlines is written as it is. */
  lemma CleanTextUnchanged(s: string)
    requires '\r' !in s && '\n' !in s && !Contains(s, "\\n")
    ensures ReplaceJsonBr(s) == s
  {
    ContainsChar(s, '\r');
    ReplaceAbsent(s, "\r", "");
    ReplaceAbsent(s, "\\n", "\n");
    ContainsChar(s, '\n');
    ReplaceAbsent(s, "\n", "\\n");
  }

  /** Writing twice is writing once: the escaped newlines of the output are read back and
      escaped again, and nothing else changes. */
  lemma Idempotent(s: string)
    ensures ReplaceJsonBr(ReplaceJsonBr(s)) == ReplaceJsonBr(s)
  {
    var t := ReplaceJsonBr(s);
    ContainsChar(t, '\r');
    ReplaceAbsent(t, "\r", "");
    ReplaceBack(t, "\\n", '\n');
  }

  /** `JsonGenerator::type_default_value`: a cell that is not blank is kept as it is; a
      blank cell becomes `0` for the number types, `""` for `string` and `nil` for any other
      type, so the result is never blank. */
  function TypeDefaultValue(t: string, v: string): (r: string)
    ensures Trim(v) != [] ==> r == v
    ensures Trim(v) == [] ==> r in {"0", "\"\"", "nil"}
    ensures Trim(r) != []
  {
    if Trim(v) != [] then v
    else if t == "int" || t == "float" || t == "long" then NotBlank("0"); "0"
    else if t == "string" then NotBlank("\"\""); "\"\""
    else NotBlank("nil"); "nil"
  }

  /** The cell of an array column with every `[` and `]` removed. */
  function StripBrackets(value: string): (r: string)
    ensures '[' !in r && ']' !in r
  {
    var noOpen := Replace(value, "[", "");
    ReplaceRemoves(value, '[', "");
    ReplaceKeepsOut(noOpen, "]", "", '[');
    ReplaceRemoves(noOpen, ']', "");
    Replace(noOpen, "]", "")
  }

  /** The elements of an array cell: its bracket-free text split at every comma. */
  function Elements(value: string): (r: seq<string>)
    ensures |r| == Count(StripBrackets(value), ',') + 1
    ensures forall k :: 0 <= k < |r| ==> '[' !in r[k] && ']' !in r[k] && ',' !in r[k]
  {
    var s := StripBrackets(value);
    SplitKeepsOut(s, ',', '[');
    SplitKeepsOut(s, ',', ']');
    Split(s, ',')
  }

  /** One element of a string array: written bare when it already holds a double quote,
      quoted otherwise. */
  function QuoteElement(c: string): string {
    if Contains(c, "\"") then ReplaceJsonBr(c) else "\"" + ReplaceJsonBr(c) + "\""
  }

  /** Every element of a string array, written. */
  function QuoteAll(cs: seq<string>): (r: seq<string>)
    ensures |r| == |cs|
    ensures forall k :: 0 <= k < |r| ==> r[k] == QuoteElement(cs[k])
    decreases |cs|
  {
    if cs == [] then [] else QuoteAll(cs[..|cs| - 1]) + [QuoteElement(cs[|cs| - 1])]
  }

  /** What `normalize_values` writes, as the code reads. A `string` scalar is always
      quoted: the check for a double quote at line 79 looks at the output built so far,
      which is still empty. */
  function Normalized(fieldType: string, value: string): string {
    if Contains(fieldType, "string") then
      if Contains(fieldType, "[]") then "[" + Join(",", QuoteAll(Elements(value))) + "]"
      else "\"" + ReplaceJsonBr(value) + "\""
    else if Contains(fieldType, "[]") then "[" + Join(",", Elements(value)) + "]"
    else TypeDefaultValue(fieldType, value)
  }

  /** What line 79 evidently means: a `string` scalar is treated like one element of a
      string array, written bare when it already holds a double quote. */
  function NormalizedIntended(fieldType: string, value: string): string {
    if Contains(fieldType, "string") && !Contains(fieldType, "[]") then QuoteElement(value)
    else Normalized(fieldType, value)
  }

  /** `JsonGenerator::normalize_values`: builds the output piece by piece. It never fails. */
  method NormalizeValues(fieldType: string, value: string) returns (r: string)
    ensures r == Normalized(fieldType, value)
  {
    r := "";
    if Contains(fieldType, "string") {
      if Contains(fieldType, "[]") {
        r := WriteStringArray(value);
      } else {
        if Contains(r, "\"") {
          r := ReplaceJsonBr(value);
        } else {
          r := r + "\"";
          r := r + ReplaceJsonBr(value);
          r := r + "\"";
          Enclosed("", "\"", ReplaceJsonBr(value));
        }
      }
    } else if Contains(fieldType, "[]") {
      r := WritePlainArray(value);
    } else {
      r := TypeDefaultValue(fieldType, value);
    }
  }

  /** The `string[]` arm of `normalize_values`: the elements are appended in order, with a
      `,` prefix after the first. */
  method WriteStringArray(value: string) returns (r: string)
    ensures r == "[" + Join(",", QuoteAll(Elements(value))) + "]"
  {
    var content := Elements(value);
    r := WriteQuoted(content);
  }

  /** The loop of the `string[]` arm over the elements. */
  method WriteQuoted(content: seq<string>) returns (r: string)
    ensures r == "[" + Join(",", QuoteAll(content)) + "]"
  {
    r := "[";
    var prefix := "";
    var k := 0;
    while k < |content|
      invariant 0 <= k <= |content|
      invariant prefix == if k == 0 then "" else ","
      invariant r == "[" + Join(",", QuoteAll(content[..k]))
    {
      var item := QuoteElement(content[k]);
      assert content[..k + 1][..k] == content[..k];
      assert QuoteAll(content[..k + 1]) == QuoteAll(content[..k]) + [item];
      AppendJoined("[", QuoteAll(content[..k]), prefix, item);
      r := AppendElement(r, prefix, content[k]);
      prefix := ",";
      k := k + 1;
    }
    assert content[..k] == content;
    r := r + "]";
  }

  /** Appending the prefix and one more element to a comma-joined list joins the longer
      list. */
  lemma AppendJoined(head: string, parts: seq<string>, prefix: string, x: string)
    requires prefix == if parts == [] then "" else ","
    ensures head + Join(",", parts) + prefix + x == head + Join(",", parts + [x])
  {
    JoinSnoc(",", parts, x);
    var j := Join(",", parts);
    if parts == [] {
      assert j == [] && prefix == [];
      assert head + j + prefix == head;
    } else {
      assert (head + j + prefix) + x == head + (j + prefix + x);
    }
  }

  /** One iteration of the `string[]` loop: the prefix, then the element bare when it
      holds a double quote and between double quotes otherwise. */
  method AppendElement(r0: string, prefix: string, c: string) returns (r: string)
    ensures r == r0 + prefix + QuoteElement(c)
  {
    r := r0 + prefix;
    if Contains(c, "\"") {
      r := r + ReplaceJsonBr(c);
    } else {
      r := r + "\"";
      r := r + ReplaceJsonBr(c);
      r := r + "\"";
      Enclosed(r0 + prefix, "\"", ReplaceJsonBr(c));
    }
  }

  /** Appending a quote, a text and a quote appends the quoted text. */
  lemma Enclosed(a: string, q: string, m: string)
    ensures a + q + m + q == a + (q + m + q)
  {
  }

  /** The arm of `normalize_values` for other arrays: the elements are appended as they
      are, with a `,` prefix after the first. */
  method WritePlainArray(value: string) returns (r: string)
    ensures r == "[" + Join(",", Elements(value)) + "]"
  {
    r := "[";
    var prefix := "";
    var content := Elements(value);
    var k := 0;
    while k < |content|
      invariant 0 <= k <= |content|
      invariant prefix == if k == 0 then "" else ","
      invariant r == "[" + Join(",", content[..k])
    {
      assert content[..k + 1] == content[..k] + [content[k]];
      AppendJoined("[", content[..k], prefix, content[k]);
      r := r + prefix;
      r := r + content[k];
      prefix := ",";
      k := k + 1;
    }
    assert content[..k] == content;
    r := r + "]";
  }

  /** An array cell is written between one pair of brackets, with one element per comma
      of its bracket-free text plus one. */
  lemma ArrayShape(fieldType: string, value: string)
    requires Contains(fieldType, "[]")
    ensures var r := Normalized(fieldType, value);
            |r| >= 2 && r[0] == '[' && r[|r| - 1] == ']'
    ensures |Elements(value)| == Count(StripBrackets(value), ',') + 1
  {
  }

  /** A plain (non-string) array cell comes out as its text with every bracket removed,
      between one new pair of brackets: splitting and joining at the commas restores it. */
  lemma PlainArrayText(fieldType: string, value: string)
    requires !Contains(fieldType, "string") && Contains(fieldType, "[]")
    ensures Normalized(fieldType, value) == "[" + StripBrackets(value) + "]"
  {
    SplitJoin(StripBrackets(value), ',');
  }

  /** A cell of a column that is neither a string nor an array goes through the default:
      kept when not blank, never blank itself. */
  lemma ScalarDefault(fieldType: string, value: string)
    requires !Contains(fieldType, "string") && !Contains(fieldType, "[]")
    ensures Trim(value) != [] ==> Normalized(fieldType, value) == value
    ensures Trim(Normalized(fieldType, value)) != []
  {
  }

  /** A `string` scalar is written between double quotes, whatever it holds. */
  lemma StringScalar(fieldType: string, value: string)
    requires Contains(fieldType, "string") && !Contains(fieldType, "[]")
    ensures Normalized(fieldType, value) == "\"" + ReplaceJsonBr(value) + "\""
  {
  }

  /** A `string[]` cell with one element is that element, written, between brackets. */
  lemma StringArrayOfOne(fieldType: string, value: string)
    requires Contains(fieldType, "string") && Contains(fieldType, "[]") && Elements(value) == [value]
    ensures Normalized(fieldType, value) == "[" + QuoteElement(value) + "]"
  {
    assert QuoteAll([value]) == QuoteAll([]) + [QuoteElement(value)];
  }

  /** The type names of the examples below, as `contains` sees them. */
  lemma StringTypes()
    ensures Contains("string", "string") && !Contains("string", "[]")
    ensures Contains("string[]", "string") && Contains("string[]", "[]")
  {
    assert OccursAt("string", "string", 0);
    assert OccursAt("string[]", "string", 0);
    assert OccursAt("string[]", "[]", 6);
    if Contains("string", "[]") {
      ContainsFirst("string", "[]");
    }
  }

  /** The text `"a"`, quotes included, has nothing to escape. */
  lemma QuotedTextClean()
    ensures ReplaceJsonBr("\"a\"") == "\"a\""
    ensures Contains("\"a\"", "\"")
  {
    if Contains("\"a\"", "\\n") {
      ContainsFirst("\"a\"", "\\n");
    }
    CleanTextUnchanged("\"a\"");
    assert OccursAt("\"a\"", "\"", 0);
  }

  /** The text `"a"` is an array cell with one element, itself. */
  lemma QuotedTextSingleElement()
    ensures StripBrackets("\"a\"") == "\"a\"" && Elements("\"a\"") == ["\"a\""]
  {
    var q := "\"a\"";
    assert q[0] == '"' && q[1] == 'a' && q[2] == '"' && |q| == 3;
    assert '[' !in q && ']' !in q && ',' !in q;
    ContainsChar(q, '[');
    ContainsChar(q, ']');
    ReplaceAbsent(q, "[", "");
    ReplaceAbsent(q, "]", "");
    SplitNoSeparator(q, ',');
  }

  /** As written, a `string` cell that already holds its quotes, `"a"`, is quoted a second
      time into `""a""`, which is not valid JSON, while the same text as the one element of
      a `string[]` cell is written bare. */
  lemma ScalarQuotedTwice()
    ensures Normalized("string", "\"a\"") == "\"" + "\"a\"" + "\""
    ensures Normalized("string[]", "\"a\"") == "[" + "\"a\"" + "]"
  {
    var q := "\"a\"";
    StringTypes();
    QuotedTextClean();
    QuotedTextSingleElement();
    StringScalar("string", q);
    StringArrayOfOne("string[]", q);
    assert QuoteElement(q) == q;
  }

  /** With the intended check, a `string` cell is written exactly as the one element of a
      `string[]` cell holding the same text: the array form is the scalar form between
      brackets. */
  lemma ScalarMatchesSingletonArray(value: string)
    requires '[' !in value && ']' !in value && ',' !in value
    ensures NormalizedIntended("string[]", value) == "[" + NormalizedIntended("string", value) + "]"
  {
    StringTypes();
    ContainsChar(value, '[');
    ContainsChar(value, ']');
    ReplaceAbsent(value, "[", "");
    ReplaceAbsent(value, "]", "");
    SplitNoSeparator(value, ',');
    assert QuoteAll([value]) == QuoteAll([]) + [QuoteElement(value)];
  }

  /** A text without the separator splits into itself alone. */
  lemma {:induction false} SplitNoSeparator(s: string, sep: char)
    requires sep !in s
    ensures Split(s, sep) == [s]
    decreases |s|
  {
    if s != [] {
      SplitNoSeparator(s[1..], sep);
      assert [s[0]] + s[1..] == s;
    }
  }

  /** The intended writer never doubles the quotes of `"a"`. */
  lemma IntendedKeepsQuotes()
    ensures NormalizedIntended("string", "\"a\"") == "\"a\""
  {
    StringTypes();
    QuotedTextClean();
  }
}
