/** The loaded workbooks (src/xlsx.rs): a field description with its compiled check set, a
    table (`XLSX`) of fields and rows that grows as it is read, and the set of all tables
    (`ALLXLSX`) with the two scans that the `expect` check relies on: the lookup `has_field`
    and the global pass `check_xlsx_valid`. */
module Xlsx {
  import opened Common
  import opened Strings
  import Dataset
  import Checkers
  import opened CheckSet
  import ExpectFieldCheck

  /** `XlsTabField`. The `CheckObj` it owns is represented by its list of roots. */
  datatype TabField = TabField(fieldName: string, fieldType: string, fieldIndex: nat, rowIndex: nat,
                               checks: seq<Checkers.Checker>, condition: string, clientServer: string,
                               fieldCnName: string)

  /** `XlsTabField::new`: every text empty, both indices zero, no constraint. */
  function NewField(): (f: TabField)
    ensures IsInvalidField(f) && !IsKeyField(f)
    ensures forall value, fo :: IsValid(f, value, fo) == Pass
  {
    TabField("", "", 0, 0, [], "", "", "")
  }

  /** `XlsTabField::is_key_field`: the name contains `KEY`, `Keys` or `KeyId`, or is one of
      `id`, `Id`, `ID`. The comparison is case-sensitive. */
  predicate IsKeyField(f: TabField) {
    Contains(f.fieldName, "KEY") || Contains(f.fieldName, "Keys") || Contains(f.fieldName, "KeyId")
    || f.fieldName == "id" || f.fieldName == "Id" || f.fieldName == "ID"
  }

  /** `XlsTabField::is_remark_field`: the client/server marker is `none`; the export target
      is not consulted. */
  predicate IsRemarkField(f: TabField, target: string) {
    f.clientServer == "none"
  }

  /** `XlsTabField::is_invalid_field`: the name or the type is missing. */
  predicate IsInvalidField(f: TabField) {
    f.fieldName == [] || f.fieldType == []
  }

  /** `XlsTabField::is_valid`: the field's check set, unchanged; it passes exactly when
      every root passes. */
  function IsValid(f: TabField, value: string, fo: FloatOracle): (r: Verdict)
    ensures r == Pass <==> forall k :: 0 <= k < |f.checks| ==> Checkers.Test(f.checks[k], value, fo) == Pass
  {
    TestAllConjunction(f.checks, value, fo);
    TestAll(f.checks, value, fo)
  }

  /** `XlsTabField::need_full_load`: some root of the check set is an `expect`. */
  function NeedFullLoad(f: TabField): (r: bool)
    ensures r <==> exists k :: 0 <= k < |f.checks| && f.checks[k].Expect?
  {
    AnyNeedsFullLoad(f.checks)
  }

  /** `XlsTabField::is_valid_on_all_load`: every root passes its full-load test. */
  function IsValidOnAllLoad(f: TabField, value: string, ds: Dataset.Dataset): (r: bool)
    ensures r <==> forall k :: 0 <= k < |f.checks| ==> Checkers.TestOnAllLoad(f.checks[k], value, ds)
  {
    TestAllOnLoad(f.checks, value, ds)
  }

  /** What `parse_from_file` does with the compiled condition of a field: a check set that
      compiled replaces the field's, a condition that did not compile leaves the field's
      check set as it was, and a panic while compiling ends the load. */
  function AdoptChecks(f: TabField, compiled: Progress<seq<Checkers.Checker>>): (r: Outcome<TabField>)
    ensures compiled.Aborted? <==> r.Panicked?
    ensures compiled.Ok? ==> r == Returned(f.(checks := compiled.value))
    ensures compiled.Refused? ==> r == Returned(f)
  {
    match compiled
    case Ok(cs) => Returned(f.(checks := cs))
    case Refused => Returned(f)
    case Aborted => Panicked
  }

  /** A new field whose condition does not compile keeps no constraint at all: it accepts
      every value, never asks for a full load and passes the full-load test. */
  lemma FailedConditionAcceptsAll(value: string, fo: FloatOracle, ds: Dataset.Dataset)
    ensures AdoptChecks(NewField(), Refused).Returned?
    ensures var f := AdoptChecks(NewField(), Refused).value;
            IsValid(f, value, fo) == Pass && !NeedFullLoad(f) && IsValidOnAllLoad(f, value, ds)
  {
    EmptySetAcceptsAll(value, fo, ds);
  }

  /** A field constrained by a complete `expect(tab, name)` is valid on the full load
      exactly for the values found in column `name` of table `tab`, and it is one of the
      fields `check_xlsx_valid` scans. */
  lemma ExpectFieldMeaning(f: TabField, tab: string, name: string, value: string, ds: Dataset.Dataset)
    requires tab != [] && name != []
    requires f.checks == [Checkers.Expect(ExpectFieldCheck.ExpectField(tab, name))]
    ensures NeedFullLoad(f)
    ensures IsValidOnAllLoad(f, value, ds) <==> Dataset.HasField(ds, tab, name, value)
  {
    assert f.checks[0].Expect?;
  }

  /** A name holding `KEY` anywhere makes a key field, whatever surrounds it. */
  lemma KeyBySubstring(f: TabField, pre: string, post: string)
    requires f.fieldName == pre + "KEY" + post
    ensures IsKeyField(f)
  {
    assert f.fieldName[|pre|..|pre| + 3] == "KEY";
    assert OccursAt(f.fieldName, "KEY", |pre|);
  }

  /** Without a capital `K` in the name, only the exact names `id`, `Id` and `ID` are keys
      (so `ids`, `iD` or `key` are not). */
  lemma KeyWithoutCapitalK(f: TabField)
    requires 'K' !in f.fieldName
    ensures IsKeyField(f) <==> f.fieldName in {"id", "Id", "ID"}
  {
    if Contains(f.fieldName, "KEY") {
      ContainsFirst(f.fieldName, "KEY");
    }
    if Contains(f.fieldName, "Keys") {
      ContainsFirst(f.fieldName, "Keys");
    }
    if Contains(f.fieldName, "KeyId") {
      ContainsFirst(f.fieldName, "KeyId");
    }
  }

  /** A field with no name or no type is invalid whatever else it holds; a field is a
      remark exactly when its marker is `none`, for every target. */
  lemma FieldFilters(f: TabField, target: string, other: string)
    ensures f.fieldName == [] ==> IsInvalidField(f)
    ensures f.fieldType == [] ==> IsInvalidField(f)
    ensures IsRemarkField(f, target) <==> IsRemarkField(f, other)
  {
  }

  // ---------------------------------------------------------------------------------------
  // Tables.

  /** The contents of one table once it is moved into `ALLXLSX`. */
  datatype Workbook = Workbook(fields: seq<TabField>, values: seq<seq<string>>)

  /** The field names of a table, in column order. */
  function FieldNames(fields: seq<TabField>): (names: seq<string>)
    ensures |names| == |fields|
    ensures forall i :: 0 <= i < |fields| ==> names[i] == fields[i].fieldName
  {
    if fields == [] then [] else [fields[0].fieldName] + FieldNames(fields[1..])
  }

  /** `XLSX`: the fields of a table and its rows of cell strings. */
  class XLSX {
    var fields: seq<TabField>
    var values: seq<seq<string>>

    /** `XLSX::new`. */
    constructor ()
      ensures fields == [] && values == []
    {
      fields := [];
      values := [];
    }

    /** `XLSX::add_field`: append a field. */
    method AddField(field: TabField)
      modifies this
      ensures fields == old(fields) + [field]
      ensures values == old(values)
    {
      fields := fields + [field];
    }

    /** `XLSX::add_row`: append a row. */
    method AddRow(row: seq<string>)
      modifies this
      ensures values == old(values) + [row]
      ensures fields == old(fields)
    {
      values := values + [row];
    }

    /** `XLSX::field_num`. */
    function FieldNum(): nat
      reads this
    {
      |fields|
    }

    function Contents(): Workbook
      reads this
    {
      Workbook(fields, values)
    }
  }

  /** The cell in column `i` of a row, if the row is that long (`value.get(i)`). */
  function CellAt(row: seq<string>, i: nat): (r: Option<string>)
    ensures r.Some? <==> i < |row|
  {
    if i < |row| then Some(row[i]) else None
  }

  /** The verdict of `check_xlsx_valid`: success, or the first offending cell with what the
      error message reports about it (table, field name, line number, cell, condition). */
  datatype Validation =
    | Valid
    | Invalid(table: string, field: string, line: nat, value: Option<string>, condition: string)

  /** Cell `(k, i)` of a table breaks its field's full-load constraint: field `i` needs a
      full load and row `k` has no column `i`, or its cell fails the full-load test. */
  predicate Offends(w: Workbook, i: int, k: int, ds: Dataset.Dataset) {
    0 <= i < |w.fields| && 0 <= k < |w.values| && NeedFullLoad(w.fields[i])
    && !(i < |w.values[k]| && IsValidOnAllLoad(w.fields[i], w.values[k][i], ds))
  }

  /** No cell of a table breaks a full-load constraint. */
  predicate WorkbookValid(w: Workbook, ds: Dataset.Dataset) {
    forall i, k :: 0 <= i < |w.fields| && 0 <= k < |w.values| ==> !Offends(w, i, k, ds)
  }

  /** What the error reports for cell `(k, i)`: the line is the row's position in the sheet,
      where contents start at the fifth line. */
  function Report(table: string, w: Workbook, i: nat, k: nat): (r: Validation)
    requires i < |w.fields| && k < |w.values|
    ensures r.Invalid? && r.line == 5 + k && r.field == w.fields[i].fieldName
  {
    Invalid(table, w.fields[i].fieldName, 5 + k, CellAt(w.values[k], i), w.fields[i].condition)
  }

  /** `(i, k)` is the first offending cell of the table in the scan order of
      `check_xlsx_valid`: field by field, and row by row within a field. */
  predicate FirstOffence(w: Workbook, i: int, k: int, ds: Dataset.Dataset) {
    Offends(w, i, k, ds)
    && (forall i', k' :: 0 <= i' < i && 0 <= k' < |w.values| ==> !Offends(w, i', k', ds))
    && (forall k' :: 0 <= k' < k ==> !Offends(w, i, k', ds))
  }

  /** The loop of `has_field` over one table: the fields in order, and for each field
      named `field` its column row by row, looking for a cell equal to the value once both
      are trimmed. */
  method FindInTable(xlsx: Workbook, field: string, value: string) returns (r: bool)
    ensures r <==> Dataset.TableHolds(Dataset.Table(FieldNames(xlsx.fields), xlsx.values), field, value)
  {
    var t := Dataset.Table(FieldNames(xlsx.fields), xlsx.values);
    var trimmed := Trim(value);
    var i := 0;
    while i < |xlsx.fields|
      invariant 0 <= i <= |xlsx.fields|
      invariant forall c :: 0 <= c < i && t.fieldNames[c] == field ==> !Dataset.ColumnHolds(t, c, value)
    {
      if xlsx.fields[i].fieldName == field {
        var k := FindInColumn(t, i, value, trimmed);
        if k < |t.rows| {
          assert t.fieldNames[i] == field && Dataset.ColumnHolds(t, i, value);
          return true;
        }
      }
      ScanStep(t, field, value, i);
      i := i + 1;
    }
    return false;
  }

  /** The scan of `has_field` moves past column `i` once that column is ruled out. */
  lemma ScanStep(t: Dataset.Table, field: string, value: string, i: nat)
    requires i < |t.fieldNames|
    requires forall c :: 0 <= c < i && t.fieldNames[c] == field ==> !Dataset.ColumnHolds(t, c, value)
    requires t.fieldNames[i] == field ==> !Dataset.ColumnHolds(t, i, value)
    ensures forall c :: 0 <= c < i + 1 && t.fieldNames[c] == field ==> !Dataset.ColumnHolds(t, c, value)
  {
  }

  /** The scan of one column moves past row `k` once that row is ruled out. */
  lemma RowStep(t: Dataset.Table, column: nat, value: string, k: nat)
    requires forall k' :: 0 <= k' < k ==> !Dataset.CellMatches(t, k', column, value)
    requires !Dataset.CellMatches(t, k, column, value)
    ensures forall k' :: 0 <= k' < k + 1 ==> !Dataset.CellMatches(t, k', column, value)
  {
  }

  /** The inner loop of `has_field`: the first row whose cell in `column` equals the value
      once both are trimmed, or the number of rows when there is none. */
  method FindInColumn(t: Dataset.Table, column: nat, value: string, trimmed: string) returns (k: nat)
    requires trimmed == Trim(value)
    ensures k <= |t.rows|
    ensures k < |t.rows| <==> Dataset.ColumnHolds(t, column, value)
    ensures k < |t.rows| ==> Dataset.CellMatches(t, k, column, value)
  {
    k := 0;
    while k < |t.rows|
      invariant k <= |t.rows|
      invariant forall k' :: 0 <= k' < k ==> !Dataset.CellMatches(t, k', column, value)
    {
      if column < |t.rows[k]| && Trim(t.rows[k][column]) == trimmed {
        assert Dataset.CellMatches(t, k, column, value);
        return;
      }
      RowStep(t, column, value, k);
      k := k + 1;
    }
  }

  /** `ALLXLSX`: every loaded table, by name. */
  class ALLXLSX {
    var all: map<string, Workbook>

    /** `ALLXLSX::new`. */
    constructor ()
      ensures all == map[]
    {
      all := map[];
    }

    /** `ALLXLSX::add`: the table is moved in under its name, replacing any table of the
        same name; the other tables stay. */
    method Add(name: string, file: XLSX)
      modifies this
      ensures all == old(all)[name := file.Contents()]
      ensures name in all && all[name] == file.Contents()
      ensures forall n :: n in old(all) && n != name ==> n in all && all[n] == old(all)[n]
    {
      all := all[name := file.Contents()];
    }

    /** The tables as the `expect` check sees them: field names and rows. */
    function View(): Dataset.Dataset
      reads this
    {
      map n | n in all :: Dataset.Table(FieldNames(all[n].fields), all[n].values)
    }

    /** Every loaded table is free of offending cells. */
    predicate AllValid()
      reads this
    {
      forall n :: n in all ==> WorkbookValid(all[n], View())
    }

    /** `ALLXLSX::has_field`: looks table `file` up and scans it with `FindInTable`. It is
        the lookup `Dataset.HasField` on `View()`, and false for a table never added. */
    method HasField(file: string, field: string, value: string) returns (r: bool)
      ensures r == Dataset.HasField(View(), file, field, value)
      ensures file !in all ==> !r
    {
      if file !in all {
        return false;
      }
      var xlsx := all[file];
      assert View()[file] == Dataset.Table(FieldNames(xlsx.fields), xlsx.values);
      r := FindInTable(xlsx, field, value);
    }

    /** The scan of one table: fields in order, and for each field that needs a full load
        its rows in order; the first offending cell is reported. */
    method CheckWorkbook(name: string) returns (r: Validation)
      requires name in all
      ensures r.Valid? <==> WorkbookValid(all[name], View())
      ensures r.Invalid? ==> exists i, k :: FirstOffence(all[name], i, k, View())
                                          && r == Report(name, all[name], i, k)
    {
      var ds := View();
      var xlsx := all[name];
      var i := 0;
      while i < |xlsx.fields|
        invariant 0 <= i <= |xlsx.fields|
        invariant forall i', k' :: 0 <= i' < i && 0 <= k' < |xlsx.values| ==> !Offends(xlsx, i', k', ds)
      {
        var field := xlsx.fields[i];
        if NeedFullLoad(field) {
          var k := 0;
          while k < |xlsx.values|
            invariant 0 <= k <= |xlsx.values|
            invariant forall k' :: 0 <= k' < k ==> !Offends(xlsx, i, k', ds)
          {
            var cell := CellAt(xlsx.values[k], i);
            if !(cell.Some? && IsValidOnAllLoad(field, cell.value, ds)) {
              assert FirstOffence(xlsx, i, k, ds);
              return Report(name, xlsx, i, k);
            }
            k := k + 1;
          }
          assert forall k' :: 0 <= k' < |xlsx.values| ==> !Offends(xlsx, i, k', ds);
        }
        i := i + 1;
      }
      return Valid;
    }

    /** `ALLXLSX::check_xlsx_valid`: every table is scanned (in the map's iteration order,
        which the model leaves open) and the first offending cell found is reported. It
        succeeds exactly when no table has an offending cell. */
    method CheckXlsxValid() returns (r: Validation)
      ensures r.Valid? <==> AllValid()
      ensures r.Invalid? ==> r.table in all
                             && exists i, k :: FirstOffence(all[r.table], i, k, View())
                                               && r == Report(r.table, all[r.table], i, k)
    {
      var todo := all.Keys;
      while todo != {}
        invariant todo <= all.Keys
        invariant forall n :: n in all && n !in todo ==> WorkbookValid(all[n], View())
        decreases todo
      {
        var name :| name in todo;
        r := CheckWorkbook(name);
        if r.Invalid? {
          return r;
        }
        todo := todo - {name};
      }
      return Valid;
    }
  }
}
