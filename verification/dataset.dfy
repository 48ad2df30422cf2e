/** The view of the loaded workbooks that the `expect` check consults: per table, the field
    names in column order and the rows of cell strings. */
module Dataset {
  import opened Strings

  datatype Table = Table(fieldNames: seq<string>, rows: seq<seq<string>>)

  type Dataset = map<string, Table>

  /** Cell `(row, column)` of the table exists and, trimmed, equals the trimmed value. */
  predicate CellMatches(t: Table, row: int, column: int, value: string) {
    0 <= row < |t.rows| && 0 <= column < |t.rows[row]| && Trim(t.rows[row][column]) == Trim(value)
  }

  /** Some row of the table holds, in `column`, a cell matching the value. */
  predicate ColumnHolds(t: Table, column: int, value: string) {
    exists row :: 0 <= row < |t.rows| && CellMatches(t, row, column, value)
  }

  /** Some column whose field name is `field` holds the value. */
  predicate TableHolds(t: Table, field: string, value: string) {
    exists column :: 0 <= column < |t.fieldNames| && t.fieldNames[column] == field && ColumnHolds(t, column, value)
  }

  /** The existence lookup behind `expect(tab, field)`: table `tab` is loaded, and some column
      whose field name is `field` holds, in some row, a cell whose trimmed text equals the
      trimmed value. */
  predicate HasField(ds: Dataset, tab: string, field: string, value: string) {
    tab in ds && TableHolds(ds[tab], field, value)
  }
}
