/**
 * The evident intent of `check_table_updates`: scan every configured table in
 * configuration order, concatenate the violations, and decide the
 * notification events: one success event when there is no violation,
 * otherwise one failure event per violation named after its table and column.
 *
 * As written the source file does not parse: the table configuration is
 * dedented to column 0 inside the function, so the function's body ends at
 * its docstring and the indented `try:` that follows is an indentation error.
 * This module models the statements after the configuration as that body.
 */
module TableUpdates {
  import opened PyValues
  import opened TypeValidation
  import opened DataTypeScan

  /** A configured table: its schema-qualified name and its ordered column map. */
  datatype TableSpec = TableSpec(name: string, columns: seq<Column>)

  /** An event handed to the notifier: its name and status (1 success, 0 failure). */
  datatype Event = Event(name: string, status: int)

  const SuccessEvent: Event := Event("validation_success", 1)

  /** The columns of `datamart_test_main.card_transaction_summary`, in declared order. */
  const CardTransactionColumns: seq<Column> := [
    ("transaction_id", "integer"),
    ("seller_id", "integer"),
    ("seller_name", "character varying"),
    ("buyer_id", "integer"),
    ("buyer_name", "character varying"),
    ("buyer_email", "character varying"),
    ("transaction_date", "date"),
    ("transaction_time", "timestamp without time zone"),
    ("transaction_amount", "numeric"),
    ("card_number", "character varying"),
    ("card_type", "character varying"),
    ("payment_status", "text"),
    ("authorization_code", "character varying"),
    ("installments", "integer"),
    ("ref_date", "date")
  ]

  /** The columns of `datamart_test_main.pix_transaction_summary`, in declared order. */
  const PixTransactionColumns: seq<Column> := [
    ("transaction_id", "integer"),
    ("seller_id", "integer"),
    ("seller_name", "character varying"),
    ("buyer_id", "integer"),
    ("buyer_name", "character varying"),
    ("buyer_email", "character varying"),
    ("transaction_date", "date"),
    ("transaction_time", "timestamp without time zone"),
    ("transaction_amount", "numeric"),
    ("pix_key", "character varying"),
    ("payment_status", "text"),
    ("reference_code", "character varying"),
    ("ref_date", "date")
  ]

  /** The tables and expected column types the check is configured with. */
  const TablesColumns: seq<TableSpec> := [
    TableSpec("datamart_test_main.card_transaction_summary", CardTransactionColumns),
    TableSpec("datamart_test_main.pix_transaction_summary", PixTransactionColumns)
  ]

  /** `fetched[i]` holds the rows read for `tables[i]`, each the width of its column map. */
  predicate FetchedFor(tables: seq<TableSpec>, fetched: seq<seq<seq<Value>>>) {
    |fetched| == |tables|
    && forall i :: 0 <= i < |tables| ==> RowsFit(tables[i].columns, fetched[i])
  }

  /** The violation list of each table, in configuration order. */
  function TableViolations(tables: seq<TableSpec>, fetched: seq<seq<seq<Value>>>): seq<seq<Violation>>
    requires FetchedFor(tables, fetched)
  {
    seq(|tables|, i requires 0 <= i < |tables| =>
      ScanViolations(tables[i].name, tables[i].columns, fetched[i]))
  }

  /** `blocks[0] + blocks[1] + ...`, the list that extending by each block in turn builds. */
  function Flatten<T>(blocks: seq<seq<T>>): seq<T> {
    if |blocks| == 0 then []
    else Flatten(blocks[..|blocks| - 1]) + blocks[|blocks| - 1]
  }

  /** The violations of all tables, concatenated in configuration order. */
  function AllViolations(tables: seq<TableSpec>, fetched: seq<seq<seq<Value>>>): seq<Violation>
    requires FetchedFor(tables, fetched)
  {
    Flatten(TableViolations(tables, fetched))
  }

  lemma FlattenExtend<T>(blocks: seq<seq<T>>, i: nat)
    requires i < |blocks|
    ensures Flatten(blocks[..i + 1]) == Flatten(blocks[..i]) + blocks[i]
  {
    assert blocks[..i + 1][..i] == blocks[..i];
  }

  /** Block `i` sits in the flattened list right after the blocks before it. */
  lemma {:induction false} FlattenBlock<T>(blocks: seq<seq<T>>, i: nat)
    requires i < |blocks|
    ensures var start := |Flatten(blocks[..i])|;
      start + |blocks[i]| <= |Flatten(blocks)|
      && Flatten(blocks)[start..start + |blocks[i]|] == blocks[i]
  {
    var n := |blocks| - 1;
    if i < n {
      assert blocks[..n][..i] == blocks[..i];
      FlattenBlock(blocks[..n], i);
    }
  }

  lemma TableViolationsPrefix(tables: seq<TableSpec>, fetched: seq<seq<seq<Value>>>, i: nat)
    requires FetchedFor(tables, fetched) && i <= |tables|
    ensures FetchedFor(tables[..i], fetched[..i])
    ensures TableViolations(tables[..i], fetched[..i]) == TableViolations(tables, fetched)[..i]
  {
  }

  /** `f"validation_error_{table}_{column}"` */
  function ErrorEventName(v: Violation): string {
    "validation_error_" + v.table + "_" + v.column
  }

  function ErrorEvents(violations: seq<Violation>): seq<Event> {
    seq(|violations|, k requires 0 <= k < |violations| => Event(ErrorEventName(violations[k]), 0))
  }

  /** The events a run sends for its concatenated violations. */
  function NotificationEvents(violations: seq<Violation>): seq<Event> {
    if |violations| > 0 then ErrorEvents(violations) else [SuccessEvent]
  }

  /** The SELECT statements a run issues, one per table in configuration order. */
  function Queries(tables: seq<TableSpec>): seq<Statement> {
    seq(|tables|, i requires 0 <= i < |tables| => SelectStatement(tables[i].name, tables[i].columns, DefaultLimit))
  }

  lemma QueriesExtend(tables: seq<TableSpec>, i: nat)
    requires i < |tables|
    ensures Queries(tables[..i + 1])
      == Queries(tables[..i]) + [SelectStatement(tables[i].name, tables[i].columns, DefaultLimit)]
  {
    assert tables[..i + 1][..i] == tables[..i];
  }

  lemma ErrorEventsExtend(violations: seq<Violation>, k: nat)
    requires k < |violations|
    ensures ErrorEvents(violations[..k + 1])
      == ErrorEvents(violations[..k]) + [Event(ErrorEventName(violations[k]), 0)]
  {
  }

  /**
   * Scans every table with the default limit, extending one violation list,
   * then sends one failure event per violation, or the success event.
   */
  method CheckTableUpdates(tables: seq<TableSpec>, fetched: seq<seq<seq<Value>>>)
    returns (queries: seq<Statement>, events: seq<Event>)
    requires FetchedFor(tables, fetched)
    ensures queries == Queries(tables)
    ensures events == NotificationEvents(AllViolations(tables, fetched))
  {
    queries := [];
    var validationErrors: seq<Violation> := [];
    ghost var blocks := TableViolations(tables, fetched);
    for i := 0 to |tables|
      invariant queries == Queries(tables[..i])
      invariant validationErrors == Flatten(blocks[..i])
    {
      var query, errors := ValidateDataTypes(tables[i].name, tables[i].columns, fetched[i]);
      queries := queries + [query];
      validationErrors := validationErrors + errors;
      QueriesExtend(tables, i);
      FlattenExtend(blocks, i);
    }
    assert tables[..|tables|] == tables && blocks[..|tables|] == blocks;
    events := [];
    if |validationErrors| > 0 {
      for k := 0 to |validationErrors|
        invariant events == ErrorEvents(validationErrors[..k])
      {
        var v := validationErrors[k];
        events := events + [Event("validation_error_" + v.table + "_" + v.column, 0)];
        ErrorEventsExtend(validationErrors, k);
      }
      assert validationErrors[..|validationErrors|] == validationErrors;
    } else {
      events := events + [SuccessEvent];
    }
  }

  // ---------------------------------------------------------------------------
  // Properties of the decision
  // ---------------------------------------------------------------------------

  /**
   * No violation: exactly one event, the success event with status 1.
   * Otherwise: one status-0 event per violation, in order, named from its
   * table and column, and no success event (every failure event has
   * status 0, the success event status 1).
   */
  lemma EventsDecision(violations: seq<Violation>)
    ensures violations == [] ==> NotificationEvents(violations) == [Event("validation_success", 1)]
    ensures violations != [] ==>
      |NotificationEvents(violations)| == |violations|
      && SuccessEvent !in NotificationEvents(violations)
      && forall k :: 0 <= k < |violations| ==>
           NotificationEvents(violations)[k]
             == Event("validation_error_" + violations[k].table + "_" + violations[k].column, 0)
  {
  }

  /** The success event is sent if and only if no table has a violation. */
  lemma SuccessIffNoViolations(violations: seq<Violation>)
    ensures SuccessEvent in NotificationEvents(violations) <==> violations == []
    ensures (exists e :: e in NotificationEvents(violations) && e.status == 1) <==> violations == []
  {
  }

  /** The number of failing cells over all tables. */
  ghost function TotalFailingCells(tables: seq<TableSpec>, fetched: seq<seq<seq<Value>>>): nat
    requires FetchedFor(tables, fetched)
  {
    if |tables| == 0 then 0
    else
      var i := |tables| - 1;
      TotalFailingCells(tables[..i], fetched[..i]) + |FailingCells(tables[i].columns, fetched[i])|
  }

  /** The concatenated list has one entry per failing cell of any table. */
  lemma {:induction false} AllViolationsCount(tables: seq<TableSpec>, fetched: seq<seq<seq<Value>>>)
    requires FetchedFor(tables, fetched)
    ensures |AllViolations(tables, fetched)| == TotalFailingCells(tables, fetched)
  {
    if |tables| > 0 {
      var n := |tables| - 1;
      var blocks := TableViolations(tables, fetched);
      AllViolationsCount(tables[..n], fetched[..n]);
      TableViolationsPrefix(tables, fetched, n);
      FlattenExtend(blocks, n);
      assert blocks[..n + 1] == blocks;
      ScanCountsFailingCells(tables[n].name, tables[n].columns, fetched[n]);
    }
  }

  /** Table `i`'s violations sit in the concatenation right after those of the tables before it. */
  lemma {:induction false} AllViolationsBlocks(tables: seq<TableSpec>, fetched: seq<seq<seq<Value>>>, i: nat)
    requires FetchedFor(tables, fetched) && i < |tables|
    ensures var before := AllViolations(tables[..i], fetched[..i]);
      var block := ScanViolations(tables[i].name, tables[i].columns, fetched[i]);
      |before| + |block| <= |AllViolations(tables, fetched)|
      && AllViolations(tables, fetched)[|before|..|before| + |block|] == block
  {
    TableViolationsPrefix(tables, fetched, i);
    FlattenBlock(TableViolations(tables, fetched), i);
  }

  /**
   * A run over the fetched rows sends one event per failing cell of any
   * table, all with status 0, or just the success event when no cell fails.
   */
  lemma RunOutcome(tables: seq<TableSpec>, fetched: seq<seq<seq<Value>>>)
    requires FetchedFor(tables, fetched)
    ensures var events := NotificationEvents(AllViolations(tables, fetched));
      (TotalFailingCells(tables, fetched) == 0 ==> events == [SuccessEvent])
      && (TotalFailingCells(tables, fetched) > 0 ==>
            |events| == TotalFailingCells(tables, fetched)
            && forall k :: 0 <= k < |events| ==> events[k].status == 0)
  {
    AllViolationsCount(tables, fetched);
    EventsDecision(AllViolations(tables, fetched));
  }

  /**
   * A column map fit for the scan: every expected-type name has a validator
   * and the `ref_date` column the query orders by is present.
   */
  predicate ColumnsWellFormed(columns: seq<Column>) {
    (forall c :: 0 <= c < |columns| ==> LookupType(columns[c].1).Some?)
    && exists c :: 0 <= c < |columns| && columns[c].0 == "ref_date"
  }

  /** No column name contains a comma, so the select list splits back into the names. */
  predicate NamesCommaFree(columns: seq<Column>) {
    forall c :: 0 <= c < |columns| ==> NoComma(columns[c].0)
  }

  lemma CardColumnsWellFormed()
    ensures ColumnsWellFormed(CardTransactionColumns)
  {
    assert CardTransactionColumns[14].0 == "ref_date";
  }

  lemma PixColumnsWellFormed()
    ensures ColumnsWellFormed(PixTransactionColumns)
  {
    assert PixTransactionColumns[12].0 == "ref_date";
  }

  lemma CardNamesCommaFree()
    ensures NamesCommaFree(CardTransactionColumns)
  {
  }

  lemma PixNamesCommaFree()
    ensures NamesCommaFree(PixTransactionColumns)
  {
  }

  /** Every configured table's column map is well formed and its names are comma-free. */
  lemma ConfigWellFormed()
    ensures forall i :: 0 <= i < |TablesColumns| ==>
      ColumnsWellFormed(TablesColumns[i].columns) && NamesCommaFree(TablesColumns[i].columns)
  {
    CardColumnsWellFormed();
    PixColumnsWellFormed();
    CardNamesCommaFree();
    PixNamesCommaFree();
  }
}
