/** The `expect` predicate (src/checker/expect_field.rs): the value must occur in a field
    of another table. It is the one predicate that needs every workbook loaded. */
module ExpectFieldCheck {
  import opened Common
  import opened Strings
  import Dataset

  datatype ExpectField = ExpectField(tab: string, field: string)

  function New(): ExpectField {
    ExpectField("", "")
  }

  /** The table or the field name is still missing. */
  predicate ExpectMore(e: ExpectField) {
    e.tab == [] || e.field == []
  }

  /** A parameter with its single quotes removed, as `add_param` stores it. */
  function Unquote(param: string): (r: string)
    ensures '\'' !in r
  {
    ReplaceRemoves(param, '\'', "");
    Replace(param, "'", "")
  }

  /** `ExpectField::add_param`: fills `tab`, then `field`, each unquoted; refused once
      both are set. */
  function AddParam(e: ExpectField, param: string): Progress<ExpectField> {
    if e.tab == [] then Ok(e.(tab := Unquote(param)))
    else if e.field == [] then Ok(e.(field := Unquote(param)))
    else Refused
  }

  /** `ExpectField::test_on_all_load`: an incomplete `expect` passes; otherwise the
      value must be found in field `field` of table `tab`. */
  function TestOnAllLoad(e: ExpectField, value: string, ds: Dataset.Dataset): bool {
    if e.tab == [] || e.field == [] then true else Dataset.HasField(ds, e.tab, e.field, value)
  }

  /** The slot protocol: parameters fill the table then the field, exactly while one is
      missing, and what is stored never holds a single quote. */
  lemma AddParamProtocol(e: ExpectField, param: string)
    ensures !AddParam(e, param).Aborted?
    ensures AddParam(e, param).Ok? <==> ExpectMore(e)
    ensures AddParam(e, param).Ok? && '\'' !in e.tab && '\'' !in e.field ==>
              '\'' !in AddParam(e, param).value.tab && '\'' !in AddParam(e, param).value.field
  {
  }

  /** A quoted table name such as `'Item'` is stored without its quotes. */
  lemma QuotedName()
    ensures AddParam(New(), "'Item'") == Ok(ExpectField("Item", ""))
  {
    assert Replace("'Item'", "'", "") == "Item";
  }

  /** A parameter made only of quotes leaves its slot empty, so the next one fills it. */
  lemma QuotesOnlyLeaveSlotEmpty(e: ExpectField)
    requires e.tab == []
    ensures AddParam(e, "''") == Ok(e)
  {
    assert Replace("''", "'", "") == "";
  }

  /** A complete `expect` passes exactly the values that occur in the named field. */
  lemma CompleteMeaning(e: ExpectField, value: string, ds: Dataset.Dataset)
    requires !ExpectMore(e)
    ensures TestOnAllLoad(e, value, ds) <==> Dataset.HasField(ds, e.tab, e.field, value)
  {
  }
}
