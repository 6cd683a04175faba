# Datamart column type validation, modelled in Dafny

This project models the core of a data-quality check over two datamart
tables (`card_transaction_summary` and `pix_transaction_summary`). The check
reads the most recent rows of each table and tests every value against its
column's expected SQL type name. It then sends notification events: one
success event when every value conforms, otherwise one failure event per
offending value.

The repository holds two byte-identical copies of the code:
`datamart-tables-data-type-validation-project/data_loaders/datamart_data_type_validation.py`
and `datamart-tables-data-type-validation/data_validation.py`. One model
serves both, and the table below cites either copy, at the same lines.

Modules:

- `Options` (`options.dfy`): an `Option` datatype for the dictionary lookup.
- `PyValues` (`py_values.dfy`): the Python values a fetched cell can hold, and
  the `isinstance` tests the check uses. `bool` is a subclass of `int` and
  `datetime` a subclass of `date`, and the model keeps both relations. Floats,
  Decimals, dates and datetimes are opaque tags, because the code only tests
  their type.
- `TypeValidation` (`type_validation.dfy`): `validate_type`. The validator
  table's keys are the closed enumeration `SqlType`, each registered under its
  name (`TypeName`), and the map `TypeValidators` holds the table's keys.
  `LookupType` is the dictionary lookup on a string name.
  `ValidateType` applies the looked-up validator, and returns false for a name
  that is not a key.
- `DataTypeScan` (`data_type_scan.dfy`): `validate_data_types`. It builds the
  SELECT statement (text plus the bound `limit`). The method
  `ValidateDataTypes` is the nested scan loop, proved equal to the function
  `ScanViolations`. Lemmas characterise that function cell by cell through the
  row-major list of failing positions. Like the source function, the method's
  `limit` parameter defaults to 1000 (`DefaultLimit`).
- `TableUpdates` (`table_updates.dfy`): the body of `check_table_updates`.
  It holds the table configuration, the concatenation of per-table violations
  in configuration order, and the event decision.

The source file as written does not parse. Inside `check_table_updates`, the
`tables_columns` literal (lines 85-118) starts at column 0, so the function's
body ends at its docstring. The indented `try:` at line 119 is then an
indentation error. The model takes lines 119-134 as the evident body of
`check_table_updates`. It passes the configuration in as a parameter, and the
configured tables are the constant `TablesColumns`.

`validate_type` tests `isinstance(v, int)`, which accepts `True` and `False`.
A bool therefore passes 'integer', 'smallint', 'bigint' and 'numeric', and the
model keeps this (`SubclassInstances`).

## Model

| member | source | states |
|---|---|---|
| `TypeValidation.LookupTypeRoundTrip` | datamart-tables-data-type-validation-project/data_loaders/datamart_data_type_validation.py:58-70 | looking up any registered type name finds that name's own validator |
| `TypeValidation.LookupTypeSound` | datamart-tables-data-type-validation-project/data_loaders/datamart_data_type_validation.py:70 | a lookup succeeds if and only if the name is a key of the table, and then yields the validator registered under exactly that name |
| `TypeValidation.ValidateKnownName` | datamart-tables-data-type-validation/data_validation.py:58-70 | validating against a registered name applies that name's validator |
| `TypeValidation.UnknownNameRejects` | datamart-tables-data-type-validation-project/data_loaders/datamart_data_type_validation.py:70 | a name that is not a key of the table rejects every value (fail-closed, no error) |
| `TypeValidation.StringTypes` | datamart-tables-data-type-validation-project/data_loaders/datamart_data_type_validation.py:59-60 | 'character varying' and 'text' each accept a value if and only if it is a string |
| `TypeValidation.IntegerTypes` | datamart-tables-data-type-validation-project/data_loaders/datamart_data_type_validation.py:61-63 | 'integer' accepts exactly ints and bools; 'smallint' accepts an int v iff -32768 <= v <= 32767 and 'bigint' iff -9223372036854775808 <= v <= 9223372036854775807; both accept every bool |
| `TypeValidation.IntegerRangeBounds` | datamart-tables-data-type-validation/data_validation.py:62-63 | both range checks are inclusive: each bound passes, and one beyond either bound fails |
| `TypeValidation.IntegerWidthsNest` | datamart-tables-data-type-validation-project/data_loaders/datamart_data_type_validation.py:61-64 | smallint-valid implies bigint-valid, bigint-valid implies integer-valid, and integer-valid implies numeric-valid |
| `TypeValidation.NumericType` | datamart-tables-data-type-validation-project/data_loaders/datamart_data_type_validation.py:64 | 'numeric' accepts a value iff it is an int, bool, float or Decimal; strings, dates, datetimes and None fail |
| `TypeValidation.FloatTypes` | datamart-tables-data-type-validation-project/data_loaders/datamart_data_type_validation.py:65-66 | 'real' and 'double precision' accept a value iff it is a float, so ints, bools and Decimals fail |
| `TypeValidation.DateTypes` | datamart-tables-data-type-validation-project/data_loaders/datamart_data_type_validation.py:67-68 | 'date' accepts exactly dates and datetimes; 'timestamp without time zone' accepts exactly datetimes |
| `TypeValidation.SubclassInstances` | datamart-tables-data-type-validation/data_validation.py:61-68 | a bool passes 'integer', 'smallint', 'bigint' and 'numeric', a datetime passes 'date', and a plain date fails 'timestamp without time zone' |
| `TypeValidation.NoneRejected` | datamart-tables-data-type-validation/data_validation.py:58-70 | None fails every expected-type name, known or unknown |
| `DataTypeScan.JoinSplitRoundTrip` | datamart-tables-data-type-validation-project/data_loaders/datamart_data_type_validation.py:42 | splitting `', '.join(names)` at ", " gives back the names, in order, for a non-empty list of names none of which contains a comma |
| `DataTypeScan.QuerySelectsColumns` | datamart-tables-data-type-validation-project/data_loaders/datamart_data_type_validation.py:42-43 | the query is "SELECT " + list + " FROM " + table + " ORDER BY ref_date DESC LIMIT %s", its select list splits back into exactly the configured column names in declared order, and its only parameter is `limit` |
| `DataTypeScan.ValidateDataTypes` | datamart-tables-data-type-validation-project/data_loaders/datamart_data_type_validation.py:39-54 | the nested row and column loops, with the append of each row's errors, issue the SELECT statement and return exactly `ScanViolations` of the fetched rows |
| `DataTypeScan.FailingColumnsExact` | datamart-tables-data-type-validation-project/data_loaders/datamart_data_type_validation.py:47-50 | the columns a row reports are exactly those whose value fails the column's expected type, in strictly ascending position order |
| `DataTypeScan.CellErrorsAt` | datamart-tables-data-type-validation/data_validation.py:46-50 | the k-th error of a row names the k-th failing column, with that column's name, the row's value there and the expected type |
| `DataTypeScan.ScanViolationsAt` | datamart-tables-data-type-validation-project/data_loaders/datamart_data_type_validation.py:45-54 | the k-th violation is (table, column, value, expected type, full row) of the k-th failing cell in row-major order, and there are no other entries |
| `DataTypeScan.FailingPositionsExact` | datamart-tables-data-type-validation/data_validation.py:45-50 | the failing positions are exactly the set of failing cells, ordered strictly by row and then by column declaration order |
| `DataTypeScan.ScanCountsFailingCells` | datamart-tables-data-type-validation-project/data_loaders/datamart_data_type_validation.py:45-54 | the scan returns exactly as many entries as there are failing cells |
| `DataTypeScan.ScanEmptyIffAllValid` | datamart-tables-data-type-validation/data_validation.py:45-54 | the scan returns an empty list if and only if every cell passes its column's expected type |
| `TableUpdates.CheckTableUpdates` | datamart-tables-data-type-validation-project/data_loaders/datamart_data_type_validation.py:119-134 | the extend loop and the notify loop issue one SELECT per table in configuration order, with the default limit, and send exactly `NotificationEvents` of the concatenated violations |
| `TableUpdates.EventsDecision` | datamart-tables-data-type-validation-project/data_loaders/datamart_data_type_validation.py:125-134 | no violations gives exactly one event, ("validation_success", 1); otherwise there is one ("validation_error_" + table + "_" + column, 0) event per violation, in order, and no success event |
| `TableUpdates.SuccessIffNoViolations` | datamart-tables-data-type-validation/data_validation.py:125-134 | the success event, and any event with status 1, is sent if and only if there are no violations |
| `TableUpdates.AllViolationsCount` | datamart-tables-data-type-validation-project/data_loaders/datamart_data_type_validation.py:121-124 | the concatenated list has one entry per failing cell, summed over all tables |
| `TableUpdates.AllViolationsBlocks` | datamart-tables-data-type-validation-project/data_loaders/datamart_data_type_validation.py:122-124 | each table's violations form one contiguous block, placed right after the violations of the tables configured before it |
| `TableUpdates.RunOutcome` | datamart-tables-data-type-validation/data_validation.py:121-134 | a run sends only the success event when no cell of any table fails; otherwise it sends as many status-0 events as there are failing cells |
| `TableUpdates.CardColumnsWellFormed` | datamart-tables-data-type-validation-project/data_loaders/datamart_data_type_validation.py:86-102 | every expected type of `card_transaction_summary` has a validator, and the table has a `ref_date` column |
| `TableUpdates.PixColumnsWellFormed` | datamart-tables-data-type-validation-project/data_loaders/datamart_data_type_validation.py:103-117 | every expected type of `pix_transaction_summary` has a validator, and the table has a `ref_date` column |
| `TableUpdates.CardNamesCommaFree` | datamart-tables-data-type-validation-project/data_loaders/datamart_data_type_validation.py:86-102 | no column name of `card_transaction_summary` contains a comma |
| `TableUpdates.PixNamesCommaFree` | datamart-tables-data-type-validation-project/data_loaders/datamart_data_type_validation.py:103-117 | no column name of `pix_transaction_summary` contains a comma |
| `TableUpdates.ConfigWellFormed` | datamart-tables-data-type-validation-project/data_loaders/datamart_data_type_validation.py:85-118 | every configured expected type has a validator, every configured table has the `ref_date` column the query orders by, and no configured column name contains a comma, so `QuerySelectsColumns` applies to both tables |

## Left out

- `connect_to_postgres` (lines 17-37) is not modelled. It covers the psycopg2 connection, the secret lookup for its credentials, and closing the connection on every exit path.
- `cursor.execute` and `fetchall` are not modelled. The model returns the statement it would issue, and the fetched rows are an input. How the database orders by `ref_date` and applies `LIMIT` is the database's behaviour, so the model does not bound the number of rows by `limit`.
- `ValidateDataTypes` requires each fetched row to have one value per configured column. That is what the SELECT returns, so the `IndexError` a shorter row would raise is not modelled.
- A Python dict cannot hold duplicate column names, but the column sequence of the model may. Nothing proved depends on the names being distinct.
- `send_event_to_notifier` (lines 72-81) is not modelled. Events are an output list, so the HTTP POST, its response and the swallowed `RequestException` are out of scope.
- Logging (lines 10, 29, 32, 37, 79, 81, 129-132, 136) is left out; it does not affect any result.
- The `psycopg2.Error` log-and-re-raise path (lines 135-137) is left out; it is an I/O error channel.
- The mage_ai decorators, `data_loader` and `test_output` (lines 12-15, 139-150) are left out; they are framework glue around the constant `{'status': 200}`.
- Float and Decimal values carry no payload, because the code only tests their type.
- Datetimes with and without a time zone are one tag. `isinstance(v, datetime)` does not tell them apart either.
- QuerySelectsColumns: stated only for a non-empty column map whose names contain no comma. Only then does the select list split back into the names without ambiguity.
