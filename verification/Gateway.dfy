/** The registry row and the two locked gateway functions, `enter` and `finish`. */
module Gateway {
  import opened Wrappers

  /** The states the table's CHECK constraint admits. */
  datatype Status = Active | Initializing | Failed | Deleting

  datatype Row = Row(state: Status, generation: nat, token: Option<string>)

  datatype ErrorKind = NotFound | Busy | Stale | IsletFailed | Unavailable | Lifecycle | Query | Timeout

  /** SQL's three truth values. */
  datatype Logic = Yes | No | Null

  function Is(b: bool): Logic {
    if b then Yes else No
  }

  function And3(a: Logic, b: Logic): Logic {
    if a == No || b == No then No else if a == Null || b == Null then Null else Yes
  }

  function Or3(a: Logic, b: Logic): Logic {
    if a == Yes || b == Yes then Yes else if a == Null || b == Null then Null else No
  }

  function Not3(a: Logic): Logic {
    match a
    case Yes => No
    case No => Yes
    case Null => Null
  }

  /** `a = b` on text: unknown as soon as one side is NULL. */
  function Eq3(a: Option<string>, b: Option<string>): Logic {
    if a.None? || b.None? then Null else Is(a.value == b.value)
  }

  /** The condition that `enter` puts under IS NOT TRUE. */
  function Guard(row: Row, token: Option<string>): Logic {
    Or3(And3(Is(row.state == Active), Is(token.None?)),
        And3(And3(Is(row.state == Initializing), Is(token.Some?)), Eq3(row.token, token)))
  }

  /** The body of `enter`: the first read, FOR UPDATE NOWAIT (which fails on a row that
      another transaction has locked), and the three checks. None means it returns normally. */
  function Enter(row: Option<Row>, busy: bool, generation: nat, token: Option<string>): Option<ErrorKind> {
    if row.None? then Some(NotFound)
    else if busy then Some(Busy)
    else if row.value.generation != generation then Some(Stale)
    else if row.value.state == Failed then Some(IsletFailed)
    else if Guard(row.value, token) != Yes then Some(Unavailable)
    else None
  }

  /** The body of `finish`, run on a row the transaction already holds. */
  function Finish(row: Option<Row>, generation: nat, token: Option<string>): Result<Row, ErrorKind> {
    if token.None? then Err(Unavailable)
    else match Enter(row, false, generation, token)
         case Some(kind) => Err(kind)
         case None => Ok(Row(Active, row.value.generation, None))
  }

  /** Who may run statements on a row: anybody without a token while it is active, and only
      the holder of the row's own token while it is initializing. */
  predicate Admits(row: Row, generation: nat, token: Option<string>) {
    && row.generation == generation
    && ((row.state == Active && token.None?) || (row.state == Initializing && token.Some? && row.token == token))
  }

  lemma EnterExact(row: Option<Row>, busy: bool, generation: nat, token: Option<string>)
    ensures Enter(row, busy, generation, token) == None <==>
            row.Some? && !busy && Admits(row.value, generation, token)
  {
    if row.Some? {
      assert Guard(row.value, token) == Yes <==>
             (row.value.state == Active && token.None?)
             || (row.value.state == Initializing && token.Some? && row.value.token == token);
    }
  }

  lemma FinishExact(row: Option<Row>, generation: nat, token: Option<string>)
    ensures Finish(row, generation, token).Ok? <==>
            row.Some? && token.Some? && row.value.state == Initializing && Admits(row.value, generation, token)
    ensures Finish(row, generation, token).Ok? ==>
              Finish(row, generation, token).value == Row(Active, generation, None)
  {
    EnterExact(row, false, generation, token);
  }

  /** What the IS NOT TRUE spelling is for: raising only on `NOT guard` would in addition let
      any token into an initializing row whose own token is NULL. */
  lemma PlainNegationAdmits(row: Row, generation: nat, token: Option<string>)
    requires row.generation == generation
    ensures Not3(Guard(row, token)) != Yes <==>
            Admits(row, generation, token) || (row.state == Initializing && row.token.None? && token.Some?)
  {
    EnterExact(Some(row), false, generation, token);
  }
}
