/** The value normalisers and the table definition of the SQL generator
    (src/generator/sql_generator.rs). */
module SqlGenerator {
  import opened Strings
  import opened Literals
  import Xlsx

  /** The SQL default for a blank cell (`type_default_value`, unknown types give `None`). */
  function DefaultValue(t: string, v: string): (r: string)
    ensures Trim(v) != [] ==> r == v
    ensures Trim(v) == [] ==> r in {"0", "''", "None"}
  {
    TypeDefaultValue(t, v, "None")
  }

  /** `normalize_key_value`: a key of a `string` column becomes ` '''v''' `. */
  function NormalizeKeyValue(t: string, v: string): (r: string)
    ensures !Contains(t, "string") ==> r == v
    ensures Contains(t, "string") ==> Trim(r) == "'''" + v + "'''"
    ensures Contains(t, "string") ==> |r| >= 2 && r[0] == ' ' && r[|r| - 1] == ' '
  {
    QuotedKey(t, v, "'''", "'''")
  }

  /** `normalize_nonkey_value`: an array cell is put between single quotes as it is; a
      `string` cell between double quotes unless it holds one, and otherwise between single
      quotes (the last two branches of the source write the same); anything else gets the
      default. It never fails. */
  function NormalizeNonkeyValue(t: string, v: string): (r: string)
    ensures Contains(t, "[]") ==> r == "'" + v + "'"
    ensures !Contains(t, "[]") && Contains(t, "string") ==> |r| == |v| + 2 && r[1..|r| - 1] == v
    ensures !Contains(t, "[]") && Contains(t, "string") ==> r[0] == r[|r| - 1] && r[0] in {'"', '\''}
  {
    if Contains(t, "[]") then "'" + v + "'"
    else if Contains(t, "string") then
      if !Contains(v, "\"") then "\"" + v + "\""
      else "'" + v + "'"
    else DefaultValue(t, v)
  }

  /** A `string` cell is written between the quote it does not hold when it lacks one of
      them; a cell holding both quotes is written `'v'`, which ends at its first `'`. */
  lemma StringQuoting(t: string, v: string)
    requires !Contains(t, "[]") && Contains(t, "string")
    ensures '"' !in v ==> NormalizeNonkeyValue(t, v) == "\"" + v + "\""
    ensures '"' !in v ==> ShortLiteral(NormalizeNonkeyValue(t, v), '"', v) || HasLineBreak(v)
    ensures '"' in v && '\'' !in v ==> ClosesAtEnd(v + "'", "'") && NormalizeNonkeyValue(t, v) == "'" + v + "'"
    ensures '"' in v && '\'' in v ==> !ClosesAtEnd(v + "'", "'") && NormalizeNonkeyValue(t, v) == "'" + v + "'"
  {
    ContainsChar(v, '"');
    ShortLiteralIff("\"" + v + "\"", '"', v);
    ShortCloser(v, '\'');
  }

  /** A line break: `\n` or `\r`. */
  predicate HasLineBreak(v: string) {
    '\n' in v || '\r' in v
  }

  /** An array cell reads back from its quotes exactly when it holds no `'`. */
  lemma ArrayCellsQuoted(t: string, v: string)
    requires Contains(t, "[]")
    ensures Delimits(NormalizeNonkeyValue(t, v), "'", "'", v) <==> '\'' !in v
  {
    ShortCloser(v, '\'');
  }

  /** `xlsxtype_to_mysqltype`: the column type for an exact type name. */
  function XlsxTypeToMysqlType(t: string): (r: string)
    ensures r in {"INT(11)", "BIGINT(20)", "DOUBLE", "text"}
  {
    if t == "int" then "INT(11)"
    else if t == "long" then "BIGINT(20)"
    else if t == "float" then "DOUBLE"
    else "text"
  }

  /** Only the three exact numeric names get a numeric column type, each its own; every
      other name, `string` and `int[]` included, is stored as `text`. */
  lemma MysqlTypes(t: string, u: string)
    ensures XlsxTypeToMysqlType(t) == "text" <==> t !in {"int", "long", "float"}
    ensures XlsxTypeToMysqlType(t) == XlsxTypeToMysqlType(u) != "text" ==> t == u
  {
  }

  /** The two header lines of the table definition. */
  function Header(table: string): string {
    "DROP TABLE IF EXISTS `" + table + "`;\n" + "CREATE TABLE `" + table + "` (\n"
  }

  /** The column line of one field, ` NOT NULL` for a key field. */
  function ColumnLine(f: Xlsx.TabField): string {
    "`" + f.fieldName + "` " + XlsxTypeToMysqlType(f.fieldType)
    + (if Xlsx.IsKeyField(f) then " NOT NULL" else "")
  }

  /** One column line per field, in field order. */
  function ColumnLines(fields: seq<Xlsx.TabField>): (r: seq<string>)
    ensures |r| == |fields|
    ensures forall i :: 0 <= i < |r| ==> r[i] == ColumnLine(fields[i])
    decreases |fields|
  {
    if fields == [] then []
    else ColumnLines(fields[..|fields| - 1]) + [ColumnLine(fields[|fields| - 1])]
  }

  /** The back-quoted names of the key fields, in field order. */
  function KeyNames(fields: seq<Xlsx.TabField>): seq<string>
    decreases |fields|
  {
    if fields == [] then []
    else
      var last := fields[|fields| - 1];
      KeyNames(fields[..|fields| - 1]) + (if Xlsx.IsKeyField(last) then ["`" + last.fieldName + "`"] else [])
  }

  /** The column lines, indented and separated by `,` and a line break. */
  function Columns(fields: seq<Xlsx.TabField>): string {
    if fields == [] then "" else "  " + Join(",\n  ", ColumnLines(fields))
  }

  /** The primary-key clause, present only for a positive key count. */
  function PrimaryKey(fields: seq<Xlsx.TabField>, keyNum: int): string {
    if keyNum > 0 then ",\n" + ("  PRIMARY KEY(" + Join(",", KeyNames(fields)) + ")") else ""
  }

  /** The whole table definition. */
  function CreateTableSql(table: string, fields: seq<Xlsx.TabField>, keyNum: int): string {
    Header(table) + Columns(fields) + PrimaryKey(fields, keyNum) + "\n);\n"
  }

  /** `get_create_table_sql`: appends one column line per field and collects the key names
      on the way; `keyNum` is the workbook's key count. */
  method GetCreateTableSql(table: string, fields: seq<Xlsx.TabField>, keyNum: int) returns (createSql: string)
    ensures createSql == CreateTableSql(table, fields, keyNum)
  {
    createSql := "DROP TABLE IF EXISTS `" + table + "`;\n";
    createSql := createSql + "CREATE TABLE `" + table + "` (\n";
    var opening := if keyNum > 0 then "  PRIMARY KEY(" else "";
    var prikeyStr := opening;
    var prifx := "  ";
    var keyPrefix := "";
    for k := 0 to |fields|
      invariant createSql == Header(table) + Columns(fields[..k])
      invariant prifx == if k == 0 then "  " else ",\n  "
      invariant prikeyStr == opening + Join(",", KeyNames(fields[..k]))
      invariant keyPrefix == if KeyNames(fields[..k]) == [] then "" else ","
    {
      var field := fields[k];
      var isKey := Xlsx.IsKeyField(field);
      var fieldSql := prifx + ColumnLine(field);
      AppendColumn(fields, k);
      Regroup(Header(table), Columns(fields[..k]), prifx, ColumnLine(field));
      createSql := createSql + fieldSql;
      prifx := ",\n  ";
      AppendKey(fields, k);
      if isKey {
        var entry := keyPrefix + "`" + field.fieldName + "`";
        assert Join(",", KeyNames(fields[..k + 1])) == Join(",", KeyNames(fields[..k])) + entry;
        Cat(opening, Join(",", KeyNames(fields[..k])), entry);
        prikeyStr := prikeyStr + entry;
        keyPrefix := ",";
      }
    }
    assert fields[..|fields|] == fields;
    ghost var body := createSql;
    if keyNum > 0 {
      createSql := createSql + ",\n";
      prikeyStr := prikeyStr + ")";
      createSql := createSql + prikeyStr;
      assert PrimaryKey(fields, keyNum) == ",\n" + prikeyStr;
      Cat(body, ",\n", prikeyStr);
    }
    assert createSql == body + PrimaryKey(fields, keyNum);
    createSql := createSql + "\n);\n";
  }

  /** The definition starts with the two header lines and ends with the closing line. */
  lemma CreateTableFrame(table: string, fields: seq<Xlsx.TabField>, keyNum: int)
    ensures var r := CreateTableSql(table, fields, keyNum);
      |Header(table)| <= |r| && r[..|Header(table)|] == Header(table) && EndsWith(r, "\n);\n")
  {
    Framed(Header(table), Columns(fields) + PrimaryKey(fields, keyNum), "\n);\n");
  }

  /** A text built as `head + middle + tail` starts with `head` and ends with `tail`. */
  lemma Framed(head: string, middle: string, tail: string)
    ensures var r := head + middle + tail;
      |head| <= |r| && r[..|head|] == head && EndsWith(r, tail)
  {
    var r := head + middle + tail;
    assert r[..|head|] == head;
    assert r[|r| - |tail|..] == tail;
  }

  /** The primary-key clause sits between the columns and the closing line exactly when the
      key count is positive; the key names are listed whatever the count says. */
  lemma PrimaryKeyClause(table: string, fields: seq<Xlsx.TabField>, keyNum: int)
    ensures keyNum <= 0 ==> CreateTableSql(table, fields, keyNum) == Header(table) + Columns(fields) + "\n);\n"
    ensures keyNum > 0 ==>
              CreateTableSql(table, fields, keyNum)
              == Header(table) + Columns(fields) + ",\n" + "  PRIMARY KEY(" + Join(",", KeyNames(fields)) + ")"
                 + "\n);\n"
  {
    var front := Header(table) + Columns(fields);
    if keyNum > 0 {
      var names := Join(",", KeyNames(fields));
      assert PrimaryKey(fields, keyNum) == ",\n" + ("  PRIMARY KEY(" + names + ")");
      Unnest(front, ",\n", "  PRIMARY KEY(", names, ")");
    } else {
      assert PrimaryKey(fields, keyNum) == "";
      assert front + "" == front;
    }
  }

  /** A column line ends with ` NOT NULL` exactly when its field is a key field. */
  lemma NotNullIffKey(f: Xlsx.TabField)
    ensures EndsWith(ColumnLine(f), " NOT NULL") <==> Xlsx.IsKeyField(f)
  {
    var line := ColumnLine(f);
    var ty := XlsxTypeToMysqlType(f.fieldType);
    if !Xlsx.IsKeyField(f) {
      assert line == "`" + f.fieldName + "` " + ty + "";
      assert line[|line| - 1] == ty[|ty| - 1];
      assert ty[|ty| - 1] != 'L';
    }
  }

  /** The key list holds the back-quoted name of every key field and nothing else. */
  lemma {:induction false} KeyNamesExact(fields: seq<Xlsx.TabField>)
    ensures forall i :: 0 <= i < |fields| && Xlsx.IsKeyField(fields[i]) ==>
              "`" + fields[i].fieldName + "`" in KeyNames(fields)
    ensures forall x :: x in KeyNames(fields) ==>
              exists i :: 0 <= i < |fields| && Xlsx.IsKeyField(fields[i]) && x == "`" + fields[i].fieldName + "`"
    decreases |fields|
  {
    if fields != [] {
      var pre := fields[..|fields| - 1];
      KeyNamesExact(pre);
      assert forall i :: 0 <= i < |pre| ==> pre[i] == fields[i];
    }
  }

  /** Concatenation is associative. */
  lemma Cat(a: string, b: string, c: string)
    ensures (a + b) + c == a + (b + c)
  {
  }

  /** Appending a text made of three pieces is appending the pieces in order. */
  lemma Reassociate(x: string, a: string, b: string, c: string)
    ensures x + (a + b + c) == x + a + b + c
  {
    Cat(x, a + b, c);
    Cat(x, a, b);
  }

  /** A nested clause appended to a text is the text followed by its pieces in order. */
  lemma Unnest(x: string, a: string, b: string, n: string, c: string)
    ensures x + (a + (b + n + c)) == x + a + b + n + c
  {
    Cat(x, a, b + n + c);
    Cat(x + a, b + n, c);
    Cat(x + a, b, n);
  }

  /** Appending two pieces one after the other is appending their concatenation. */
  lemma Regroup(a: string, b: string, c: string, d: string)
    ensures (a + b) + (c + d) == a + (b + c + d)
  {
  }

  /** One more field adds its column line after the separator. */
  lemma AppendColumn(fields: seq<Xlsx.TabField>, k: nat)
    requires k < |fields|
    ensures Columns(fields[..k + 1])
         == Columns(fields[..k]) + (if k == 0 then "  " else ",\n  ") + ColumnLine(fields[k])
  {
    var pre := fields[..k];
    var line := ColumnLine(fields[k]);
    assert fields[..k + 1] == pre + [fields[k]];
    assert (pre + [fields[k]])[..k] == pre;
    assert ColumnLines(fields[..k + 1]) == ColumnLines(pre) + [line];
    JoinSnoc(",\n  ", ColumnLines(pre), line);
    if k == 0 {
      assert Columns(fields[..k + 1]) == "  " + line;
      assert Columns(pre) == "";
      assert "" + "  " == "  ";
    } else {
      var j := Join(",\n  ", ColumnLines(pre));
      assert Columns(fields[..k + 1]) == "  " + (j + ",\n  " + line);
      assert Columns(pre) == "  " + j;
      Reassociate("  ", j, ",\n  ", line);
    }
  }

  /** One more field adds its back-quoted name to the key list when it is a key. */
  lemma AppendKey(fields: seq<Xlsx.TabField>, k: nat)
    requires k < |fields|
    ensures KeyNames(fields[..k + 1])
         == KeyNames(fields[..k]) + (if Xlsx.IsKeyField(fields[k]) then ["`" + fields[k].fieldName + "`"] else [])
    ensures !Xlsx.IsKeyField(fields[k]) ==> KeyNames(fields[..k + 1]) == KeyNames(fields[..k])
    ensures Xlsx.IsKeyField(fields[k]) ==>
              Join(",", KeyNames(fields[..k + 1]))
              == Join(",", KeyNames(fields[..k]))
                 + ((if KeyNames(fields[..k]) == [] then "" else ",") + "`" + fields[k].fieldName + "`")
  {
    KeyNamesStep(fields, k);
    if Xlsx.IsKeyField(fields[k]) {
      var ks, x := KeyNames(fields[..k]), "`" + fields[k].fieldName + "`";
      assert KeyNames(fields[..k + 1]) == ks + [x];
      CommaSnoc(ks, x);
    }
  }

  /** One more part in a comma-separated list adds a comma before it unless the list was
      empty. */
  lemma CommaSnoc(parts: seq<string>, x: string)
    ensures Join(",", parts + [x]) == Join(",", parts) + ((if parts == [] then "" else ",") + x)
  {
    JoinSnoc(",", parts, x);
    if parts == [] {
      assert "" + x == x;
    } else {
      assert Join(",", parts) + "," + x == Join(",", parts) + ("," + x);
    }
  }

  /** The key list of one more field is the previous list, plus that field's back-quoted
      name when it is a key. */
  lemma KeyNamesStep(fields: seq<Xlsx.TabField>, k: nat)
    requires k < |fields|
    ensures KeyNames(fields[..k + 1])
         == KeyNames(fields[..k]) + (if Xlsx.IsKeyField(fields[k]) then ["`" + fields[k].fieldName + "`"] else [])
  {
    assert fields[..k + 1][..k] == fields[..k];
  }
}
