/**
 The inside of a batch: the names a statement may call, the budgets that all statements
 share, and the loop over the statements. What the server answers is arbitrary. Text is a
 sequence of bytes.
 */
module Execution {
  import opened Wrappers
  import opened Policy
  import opened PolicyMeaning
  import opened PolicySoundness

  // ---------------------------------------------------------------------- localFunctions

  /** The names of an islet's own functions are permitted, except those of catalog routines,
      which are all marked as such. */
  function LocalFunctions(reserved: set<string>, rows: seq<string>): Local {
    map n | n in reserved + (set r | r in rows) :: n !in reserved
  }

  /** A name is permitted exactly if the schema has it and it is no catalog routine's, and marked
      exactly if it is. */
  lemma LocalFunctionsExact(reserved: set<string>, rows: seq<string>, n: string)
    ensures var names := LocalFunctions(reserved, rows);
            && (n in names && names[n] <==> n in rows && n !in reserved)
            && (n in names && !names[n] <==> n in reserved)
  {
    assert n in rows <==> n in set r | r in rows;
  }

  /** `localFunctions`: fill the map from the reserved names, then from the catalog query. */
  method CollectLocalFunctions(reserved: set<string>, rows: seq<string>) returns (names: Local)
    ensures names == LocalFunctions(reserved, rows)
    ensures forall n :: (n in names && names[n] <==> n in rows && n !in reserved)
                        && (n in names && !names[n] <==> n in reserved)
  {
    names := map[];
    var left := reserved;
    while left != {}
      invariant left <= reserved
      invariant names == map n | n in reserved - left :: false
      decreases left
    {
      var name :| name in left;
      names := names[name := false];
      left := left - {name};
    }
    for i := 0 to |rows|
      invariant names == LocalFunctions(reserved, rows[..i])
    {
      assert rows[..i + 1] == rows[..i] + [rows[i]];
      if rows[i] !in reserved {
        names := names[rows[i] := true];
      }
    }
    assert rows[..|rows|] == rows;
    forall n ensures (n in names && names[n] <==> n in rows && n !in reserved)
                     && (n in names && !names[n] <==> n in reserved)
    {
      LocalFunctionsExact(reserved, rows, n);
    }
  }

  /** Whatever functions the schema holds, and however they came to be called what they are
      called: no accepted statement calls or defines a catalog routine outside the allowlist. */
  lemma CatalogRoutinesAreNeverCalled(c: Checker, sql: string, reserved: set<string>, rows: seq<string>, name: string)
    requires Fair(c.order) && name in reserved && name !in c.rules.builtins
    requires Check(c, sql, LocalFunctions(reserved, rows)) == None
    ensures forall n <- Nodes(c.rules, JObject(c.rules.parser(sql).value), 0) ::
              && (n.key in {"FuncCall", "CreateTrigStmt", "CreateFunctionStmt"} ==> NameOf(n.value) != name)
              && (n.key == "funcname" ==> LastName(Names(n.value)) != name)
  {
    hide Check, Nodes, Names, NameOf;
    CatalogNamesStayOut(c, sql, LocalFunctions(reserved, rows), name);
  }

  // ------------------------------------------------------------------------------- query

  type Value = Option<string>
  type Row = seq<Value>

  /** An error that `classify` recognises gets the index of its statement, others do not. */
  datatype Fault = Fault(classified: bool)

  /** What the server sends for one statement: an error at once, or columns, rows and perhaps
      an error in the end. */
  datatype Reply =
    | Failed(cause: Fault)
    | Stream(columns: seq<string>, rows: seq<Row>, fault: Option<Fault>)

  datatype QueryResult = QueryResult(columns: seq<string>, rows: seq<Row>, truncated: bool, complete: bool)

  /** A row too many is wrapped; columns that leave no budget give the bare error. */
  datatype QueryError = RowLimit | ColumnLimit | Server(fault: Fault)

  function ColumnCost(columns: seq<string>): nat {
    if columns == [] then 0 else |columns[0]| + 4 + ColumnCost(columns[1..])
  }

  function ValueCost(v: Value): nat {
    1 + if v.Some? then |v.value| else 0
  }

  function RowCost(row: Row): nat {
    if row == [] then 0 else ValueCost(row[0]) + RowCost(row[1..])
  }

  function RowsCost(rows: seq<Row>): nat {
    if rows == [] then 0 else RowCost(rows[0]) + RowsCost(rows[1..])
  }

  lemma {:induction false} ColumnCostNext(columns: seq<string>, i: nat)
    requires i < |columns|
    ensures ColumnCost(columns[..i + 1]) == ColumnCost(columns[..i]) + |columns[i]| + 4
  {
    if i == 0 {
      assert columns[..1] == [columns[0]] && columns[..1][1..] == [];
    } else {
      ColumnCostNext(columns[1..], i - 1);
      assert columns[1..][..i] == columns[..i + 1][1..] && columns[1..][..i - 1] == columns[..i][1..];
    }
  }

  lemma {:induction false} RowCostNext(row: Row, i: nat)
    requires i < |row|
    ensures RowCost(row[..i + 1]) == RowCost(row[..i]) + ValueCost(row[i])
  {
    if i == 0 {
      assert row[..1] == [row[0]] && row[..1][1..] == [];
    } else {
      RowCostNext(row[1..], i - 1);
      assert row[1..][..i] == row[..i + 1][1..] && row[1..][..i - 1] == row[..i][1..];
    }
  }

  lemma {:induction false} RowsCostSplit(rows: seq<Row>, i: nat)
    requires i <= |rows|
    ensures RowsCost(rows) == RowsCost(rows[..i]) + RowsCost(rows[i..])
  {
    if i == 0 {
      assert rows[..0] == [] && rows[0..] == rows;
    } else {
      RowsCostSplit(rows[1..], i - 1);
      assert rows[1..][..i - 1] == rows[..i][1..] && rows[1..][i - 1..] == rows[i..];
    }
  }

  lemma RowsCostNext(rows: seq<Row>, i: nat)
    requires i < |rows|
    ensures RowsCost(rows[..i + 1]) == RowsCost(rows[..i]) + RowCost(rows[i])
  {
    RowsCostSplit(rows[..i + 1], i);
    assert rows[..i + 1][..i] == rows[..i] && rows[..i + 1][i..] == [rows[i]];
    assert RowsCost([rows[i]]) == RowCost(rows[i]) + RowsCost([rows[i]][1..]);
  }

  /** The values of some rows, one after the other. */
  function Flat(rows: seq<Row>): seq<Value> {
    if rows == [] then [] else rows[0] + Flat(rows[1..])
  }

  /** The texts of some values, put together; a NULL has none. */
  function TextOfValues(values: seq<Value>): string {
    if values == [] then [] else values[0].GetOr("") + TextOfValues(values[1..])
  }

  function Joined(texts: seq<string>): string {
    if texts == [] then [] else texts[0] + Joined(texts[1..])
  }

  /** What some rows weigh: one for each value, and the length of all their text. */
  function Weight(rows: seq<Row>): nat {
    |Flat(rows)| + |TextOfValues(Flat(rows))|
  }

  lemma {:induction false} RowCostPlain(row: Row)
    ensures RowCost(row) == |row| + |TextOfValues(row)|
  {
    if row != [] {
      RowCostPlain(row[1..]);
    }
  }

  lemma {:induction false} TextOfBoth(a: seq<Value>, b: seq<Value>)
    ensures TextOfValues(a + b) == TextOfValues(a) + TextOfValues(b)
  {
    if a == [] {
      assert a + b == b;
    } else {
      assert (a + b)[0] == a[0] && (a + b)[1..] == a[1..] + b;
      TextOfBoth(a[1..], b);
    }
  }

  lemma {:induction false} RowsCostPlain(rows: seq<Row>)
    ensures RowsCost(rows) == Weight(rows)
  {
    if rows != [] {
      RowCostPlain(rows[0]);
      TextOfBoth(rows[0], Flat(rows[1..]));
      RowsCostPlain(rows[1..]);
    }
  }

  lemma {:induction false} ColumnCostPlain(columns: seq<string>)
    ensures ColumnCost(columns) == |Joined(columns)| + 4 * |columns|
  {
    if columns != [] {
      ColumnCostPlain(columns[1..]);
    }
  }

  /** What a reply would cost if all of it were kept. */
  function ReplyRows(reply: Reply): nat {
    if reply.Failed? then 0 else |reply.rows|
  }

  function ReplyBytes(reply: Reply): nat {
    if reply.Failed? then 0 else ColumnCost(reply.columns) + RowsCost(reply.rows)
  }

  predicate Clean(reply: Reply) {
    reply.Stream? && reply.fault.None?
  }

  /** The error that the server ends a reply with. */
  function ServerFault(reply: Reply): Option<Fault> {
    if reply.Failed? then Some(reply.cause) else reply.fault
  }

  /** All that a reply holds. */
  function Received(reply: Reply): QueryResult {
    if reply.Failed? then QueryResult([], [], false, false)
    else QueryResult(reply.columns, reply.rows, false, reply.fault.None?)
  }

  /** The two counters that the statements of a batch share. */
  class Budget {
    var rowsLeft: int
    var bytesLeft: int

    constructor (rows: int, bytes: int)
      ensures rowsLeft == rows && bytesLeft == bytes
    {
      rowsLeft, bytesLeft := rows, bytes;
    }
  }

  method MeasureRow(row: Row) returns (size: nat)
    ensures size == RowCost(row)
  {
    size := 0;
    for i := 0 to |row|
      invariant size == RowCost(row[..i])
    {
      RowCostNext(row, i);
      size := size + ValueCost(row[i]);
    }
    assert row[..|row|] == row;
  }

  /** What one query makes of its reply, given what was left of the budgets. */
  predicate QueryOk(reply: Reply, rows: int, bytes: int, result: QueryResult, err: Option<QueryError>, rows': int,
                    bytes': int) {
    && 0 <= rows' && |result.rows| == rows - rows'
    && (result.rows != [] ==> RowsCost(result.rows) <= bytes)
    && match err
       case None =>
         && Clean(reply) && result == Received(reply)
         && rows' == rows - ReplyRows(reply) && bytes' == bytes - ReplyBytes(reply) && bytes' >= 0
       case Some(Server(fault)) => ServerFault(reply) == Some(fault) && result == Received(reply).(complete := false)
       case Some(RowLimit) =>
         && reply.Stream? && |result.rows| < |reply.rows|
         && result == QueryResult(reply.columns, reply.rows[..|result.rows|], true, false)
         && (rows' == 0 || ColumnCost(reply.columns) + RowsCost(reply.rows[..|result.rows| + 1]) > bytes)
       case Some(ColumnLimit) =>
         && Clean(reply) && reply.rows == [] && ColumnCost(reply.columns) > bytes
         && result == QueryResult(reply.columns, [], true, false)
  }

  /** `query`: columns first, then row by row while both budgets last. */
  method RunQuery(reply: Reply, budget: Budget) returns (result: QueryResult, err: Option<QueryError>)
    requires budget.rowsLeft >= 0
    modifies budget
    ensures QueryOk(reply, old(budget.rowsLeft), old(budget.bytesLeft), result, err, budget.rowsLeft, budget.bytesLeft)
  {
    result := QueryResult([], [], false, false);
    if reply.Failed? {
      return result, Some(Server(reply.cause));
    }
    ghost var rows, bytes := budget.rowsLeft, budget.bytesLeft;
    for i := 0 to |reply.columns|
      invariant budget.rowsLeft == rows && budget.bytesLeft == bytes - ColumnCost(reply.columns[..i])
      invariant result == QueryResult(reply.columns[..i], [], false, false)
    {
      ColumnCostNext(reply.columns, i);
      budget.bytesLeft := budget.bytesLeft - (|reply.columns[i]| + 4);
      result := result.(columns := result.columns + [reply.columns[i]]);
    }
    assert reply.columns[..|reply.columns|] == reply.columns;
    for i := 0 to |reply.rows|
      invariant budget.rowsLeft == rows - i >= 0
      invariant budget.bytesLeft == bytes - ColumnCost(reply.columns) - RowsCost(reply.rows[..i])
      invariant i > 0 ==> budget.bytesLeft >= 0
      invariant result == QueryResult(reply.columns, reply.rows[..i], false, false)
    {
      RowsCostNext(reply.rows, i);
      var size := MeasureRow(reply.rows[i]);
      if budget.rowsLeft <= 0 || size > budget.bytesLeft {
        result := result.(truncated := true);
        return result, Some(RowLimit);
      }
      result := result.(rows := result.rows + [reply.rows[i]]);
      budget.rowsLeft := budget.rowsLeft - 1;
      budget.bytesLeft := budget.bytesLeft - size;
    }
    assert reply.rows[..|reply.rows|] == reply.rows;
    if reply.fault.Some? {
      return result, Some(Server(reply.fault.value));
    }
    if budget.bytesLeft < 0 {
      result := result.(truncated := true);
      return result, Some(ColumnLimit);
    }
    result := result.(complete := true);
    err := None;
  }

  /** One query stays within the budgets exactly when its whole reply does. */
  lemma QueryExact(reply: Reply, rows: int, bytes: int, result: QueryResult, err: Option<QueryError>, rows': int,
                   bytes': int)
    requires 0 <= rows && Clean(reply) && QueryOk(reply, rows, bytes, result, err, rows', bytes')
    ensures err.None? <==> ReplyRows(reply) <= rows && ReplyBytes(reply) <= bytes
    ensures err.None? <==> FitBudgets([reply], rows, bytes)
    ensures err.Some? ==> err.value == RowLimit || err.value == ColumnLimit
  {
    if err == Some(RowLimit) {
      RowsCostSplit(reply.rows, |result.rows| + 1);
    }
    SumsPlain([reply]);
    assert [reply][..0] == [];
    assert SumRows([reply]) == ReplyRows(reply) && SumBytes([reply]) == ReplyBytes(reply) by {
      SumsNext([reply], 0);
      assert [reply][..1] == [reply];
    }
  }

  // ----------------------------------------------------------------------------- execute

  datatype FailureKind = CatalogQuery | PolicyViolation(violation: Violation) | QueryFault | ResultLimit

  /** The error of a batch, and the statement it is attributed to if it carries one. */
  datatype BatchError = BatchError(kind: FailureKind, statement: Option<nat>)

  function SumRows(replies: seq<Reply>): nat {
    if replies == [] then 0 else SumRows(replies[..|replies| - 1]) + ReplyRows(replies[|replies| - 1])
  }

  function SumBytes(replies: seq<Reply>): nat {
    if replies == [] then 0 else SumBytes(replies[..|replies| - 1]) + ReplyBytes(replies[|replies| - 1])
  }

  function HandedBack(results: seq<QueryResult>): nat {
    if results == [] then 0 else HandedBack(results[..|results| - 1]) + |results[|results| - 1].rows|
  }

  lemma SumsNext(replies: seq<Reply>, i: nat)
    requires i < |replies|
    ensures SumRows(replies[..i + 1]) == SumRows(replies[..i]) + ReplyRows(replies[i])
    ensures SumBytes(replies[..i + 1]) == SumBytes(replies[..i]) + ReplyBytes(replies[i])
  {
    assert replies[..i + 1][..i] == replies[..i];
  }

  lemma {:induction false} SumsGrow(replies: seq<Reply>, i: nat)
    requires i <= |replies|
    ensures SumRows(replies[..i]) <= SumRows(replies) && SumBytes(replies[..i]) <= SumBytes(replies)
    decreases |replies| - i
  {
    if i == |replies| {
      assert replies[..i] == replies;
    } else {
      SumsNext(replies, i);
      SumsGrow(replies, i + 1);
    }
  }

  /** The rows of some replies, and their columns. */
  function AllRows(replies: seq<Reply>): seq<Row> {
    if replies == [] then []
    else AllRows(replies[..|replies| - 1]) + Received(replies[|replies| - 1]).rows
  }

  function AllColumns(replies: seq<Reply>): seq<string> {
    if replies == [] then []
    else AllColumns(replies[..|replies| - 1]) + Received(replies[|replies| - 1]).columns
  }

  function AllHandedBack(results: seq<QueryResult>): seq<Row> {
    if results == [] then [] else AllHandedBack(results[..|results| - 1]) + results[|results| - 1].rows
  }

  lemma {:induction false} FlatOfBoth(a: seq<Row>, b: seq<Row>)
    ensures Flat(a + b) == Flat(a) + Flat(b)
  {
    if a == [] {
      assert a + b == b;
    } else {
      assert (a + b)[0] == a[0] && (a + b)[1..] == a[1..] + b;
      FlatOfBoth(a[1..], b);
    }
  }

  lemma WeightOfBoth(a: seq<Row>, b: seq<Row>)
    ensures Weight(a + b) == Weight(a) + Weight(b)
  {
    FlatOfBoth(a, b);
    TextOfBoth(Flat(a), Flat(b));
  }

  lemma {:induction false} JoinedOfBoth(a: seq<string>, b: seq<string>)
    ensures Joined(a + b) == Joined(a) + Joined(b)
  {
    if a == [] {
      assert a + b == b;
    } else {
      assert (a + b)[0] == a[0] && (a + b)[1..] == a[1..] + b;
      JoinedOfBoth(a[1..], b);
    }
  }

  lemma {:induction false} SumsPlain(replies: seq<Reply>)
    ensures SumRows(replies) == |AllRows(replies)|
    ensures SumBytes(replies) == Weight(AllRows(replies)) + |Joined(AllColumns(replies))| + 4 * |AllColumns(replies)|
    decreases |replies|
  {
    if replies != [] {
      var before, last := replies[..|replies| - 1], Received(replies[|replies| - 1]);
      SumsPlain(before);
      WeightOfBoth(AllRows(before), last.rows);
      JoinedOfBoth(AllColumns(before), last.columns);
      RowsCostPlain(last.rows);
      ColumnCostPlain(last.columns);
    }
  }

  /** The replies fit: as many rows as allowed at most, and the values, their text, the names of the
      columns and four for each column add up to no more than the bytes allowed. */
  predicate FitBudgets(replies: seq<Reply>, maxRows: int, maxBytes: int) {
    && |AllRows(replies)| <= maxRows
    && Weight(AllRows(replies)) + |Joined(AllColumns(replies))| + 4 * |AllColumns(replies)| <= maxBytes
  }

  lemma HandedBackNext(results: seq<QueryResult>, r: QueryResult)
    ensures HandedBack(results + [r]) == HandedBack(results) + |r.rows|
    ensures Weight(AllHandedBack(results + [r])) == Weight(AllHandedBack(results)) + RowsCost(r.rows)
    ensures r.rows == [] ==> RowsCost(r.rows) == 0
  {
    assert (results + [r])[..|results|] == results;
    WeightOfBoth(AllHandedBack(results), r.rows);
    RowsCostPlain(r.rows);
  }

  lemma {:induction false} HandedBackIsAll(results: seq<QueryResult>)
    ensures HandedBack(results) == |AllHandedBack(results)|
    decreases |results|
  {
    if results != [] {
      HandedBackIsAll(results[..|results| - 1]);
    }
  }

  /** What the catalog query before a statement gave, and the policy made of it. */
  predicate StatementOk(c: Checker, sql: string, reserved: set<string>, names: Result<seq<string>, Fault>) {
    names.Ok? && Check(c, sql, LocalFunctions(reserved, names.value)) == None
  }

  predicate Completed(reply: Reply, result: QueryResult) {
    Clean(reply) && result == Received(reply)
  }

  /** How statement `i` can fail, whether it leaves a result, and what its error says. */
  predicate StatementFails(c: Checker, sql: string, reserved: set<string>, names: Result<seq<string>, Fault>,
                           reply: Reply,
                           result: Option<QueryResult>, err: BatchError, i: nat)
  {
    match err.kind
    case CatalogQuery => result.None? && names.Err? && err.statement == None
    case PolicyViolation(v) =>
      && result.None? && names.Ok? && Check(c, sql, LocalFunctions(reserved, names.value)) == Some(v)
      && err.statement == Some(i)
    case QueryFault =>
      && result == Some(Received(reply)) && StatementOk(c, sql, reserved, names) && ServerFault(reply).Some?
      && err.statement == (if ServerFault(reply).value.classified then Some(i) else None)
    case ResultLimit =>
      && result.Some? && StatementOk(c, sql, reserved, names) && reply.Stream? && |result.value.rows| <= |reply.rows|
      && result.value == QueryResult(reply.columns, reply.rows[..|result.value.rows|], true, false)
      && err.statement == (if reply.rows == [] then None else Some(i))
  }

  /** One turn of the loop of `execute`. */
  method RunStatement(c: Checker, sql: string, reserved: set<string>, names: Result<seq<string>, Fault>, reply: Reply,
                      i: nat, budget: Budget)
    returns (result: Option<QueryResult>, err: Option<BatchError>)
    requires budget.rowsLeft >= 0
    modifies budget
    ensures err.None? ==>
              && StatementOk(c, sql, reserved, names) && result.Some? && Completed(reply, result.value)
              && budget.rowsLeft == old(budget.rowsLeft) - ReplyRows(reply) >= 0
              && budget.bytesLeft == old(budget.bytesLeft) - ReplyBytes(reply) >= 0
    ensures err.Some? ==> StatementFails(c, sql, reserved, names, reply, result, err.value, i)
    ensures result.Some? ==> |result.value.rows| <= old(budget.rowsLeft)
    ensures result.Some? && result.value.rows != [] ==> RowsCost(result.value.rows) <= old(budget.bytesLeft)
    ensures StatementOk(c, sql, reserved, names) && Clean(reply) ==>
              && (err.None? <==> ReplyRows(reply) <= old(budget.rowsLeft) && ReplyBytes(reply) <= old(budget.bytesLeft))
              && (err.Some? ==> err.value.kind == ResultLimit)
  {
    hide Check, LocalFunctions, ReplyRows, ReplyBytes;
    result := None;
    if names.Err? {
      return result, Some(BatchError(CatalogQuery, None));
    }
    var local := CollectLocalFunctions(reserved, names.value);
    var violation := Check(c, sql, local);
    if violation.Some? {
      return result, Some(BatchError(PolicyViolation(violation.value), Some(i)));
    }
    ghost var rows, bytes := budget.rowsLeft, budget.bytesLeft;
    var r, fault := RunQuery(reply, budget);
    result := Some(r);
    if Clean(reply) {
      QueryExact(reply, rows, bytes, r, fault, budget.rowsLeft, budget.bytesLeft);
    }
    match fault
    case Some(Server(f)) => err := Some(BatchError(QueryFault, if f.classified then Some(i) else None));
    case Some(RowLimit) => err := Some(BatchError(ResultLimit, Some(i)));
    case Some(ColumnLimit) => err := Some(BatchError(ResultLimit, None));
    case None => err := None;
  }

  /** The loop of `execute`. Success means every statement passed the policy and completed. A
      failure at statement `failed` comes with the complete results of the statements before
      it, and with its own partial result exactly if it had been sent to the server. */
  method RunBatch(c: Checker, sqls: seq<string>, reserved: set<string>, names: seq<Result<seq<string>, Fault>>,
                  replies: seq<Reply>, maxRows: nat, maxBytes: nat)
    returns (results: seq<QueryResult>, err: Option<BatchError>, ghost failed: nat)
    requires |names| == |replies| == |sqls| && maxRows >= 1 && maxBytes >= 1
    ensures failed <= |results| <= |sqls|
    ensures forall j | 0 <= j < failed ::
              StatementOk(c, sqls[j], reserved, names[j]) && Completed(replies[j], results[j])
    ensures err.None? ==> failed == |results| == |sqls|
    ensures err.Some? ==> failed < |sqls| && |results| <= failed + 1
                          && StatementFails(c, sqls[failed], reserved, names[failed], replies[failed],
                                            if |results| > failed then Some(results[failed]) else None,
                                            err.value, failed)
    ensures |AllHandedBack(results)| <= maxRows && Weight(AllHandedBack(results)) <= maxBytes
    ensures (forall j | 0 <= j < |sqls| :: StatementOk(c, sqls[j], reserved, names[j]) && Clean(replies[j])) ==>
              && (err.None? <==> FitBudgets(replies, maxRows, maxBytes))
              && (err.Some? ==> err.value.kind == ResultLimit)
  {
    hide StatementOk, StatementFails, Completed, SumRows, SumBytes, HandedBack, ReplyRows, ReplyBytes;
    hide AllRows, AllColumns, AllHandedBack, Weight, RowsCost;
    SumsPlain(replies);
    results := [];
    var budget := new Budget(maxRows, maxBytes);
    var i := 0;
    SumsStart(replies);
    while i < |sqls|
      invariant 0 <= i <= |sqls| && i == |results|
      invariant forall j | 0 <= j < i ::
                  StatementOk(c, sqls[j], reserved, names[j]) && Completed(replies[j], results[j])
      invariant budget.rowsLeft == maxRows - SumRows(replies[..i]) >= 0
      invariant budget.bytesLeft == maxBytes - SumBytes(replies[..i]) >= 0
      invariant HandedBack(results) == SumRows(replies[..i])
      invariant Weight(AllHandedBack(results)) <= SumBytes(replies[..i])
      invariant fresh(budget)
    {
      SumsNext(replies, i);
      SumsGrow(replies, i + 1);
      ghost var rows := budget.rowsLeft;
      var result: Option<QueryResult>;
      result, err := RunStatement(c, sqls[i], reserved, names[i], replies[i], i, budget);
      if result.Some? {
        HandedBackNext(results, result.value);
        results := results + [result.value];
      }
      if err.Some? {
        failed := i;
        HandedBackIsAll(results);
        return;
      }
      CompletedRows(replies[i], result.value);
      i := i + 1;
    }
    HandedBackIsAll(results);
    assert replies[..i] == replies;
    err := None;
    failed := i;
  }

  lemma SumsStart(replies: seq<Reply>)
    ensures SumRows(replies[..0]) == 0 && SumBytes(replies[..0]) == 0 && HandedBack([]) == 0
    ensures Weight(AllHandedBack([])) == 0
  {
  }

  lemma CompletedRows(reply: Reply, result: QueryResult)
    requires Completed(reply, result)
    ensures |result.rows| == ReplyRows(reply) && RowsCost(result.rows) <= ReplyBytes(reply)
  {
  }
}
