/**
 * The connection manager (`backend/config/database.js`): one object that
 * picks SQLite or PostgreSQL once, when it is constructed, and sends every
 * statement to that engine through a single `query` operation.
 *
 * The engines themselves are not modelled: a `Driver` says what the sqlite3
 * `all` and `run` calls and the pg `query` call answer for a statement.
 */
module Database {
  import opened Wrappers
  import opened Text
  import opened JsValue

  /** The two environment variables the constructor reads. */
  datatype Env = Env(nodeEnv: Option<string>, databaseUrl: Option<string>)

  /** `NODE_ENV === 'production' && DATABASE_URL`, taken as a truth value. */
  predicate UsesPostgres(env: Env)
  {
    env.nodeEnv == Some("production") && env.databaseUrl.Some? && env.databaseUrl.value != ""
  }

  /** What sqlite3 hands the `run` callback as `this`. */
  datatype RunStats = RunStats(lastID: int, changes: int)

  /** What pg's `query` resolves to. */
  datatype PgResult = PgResult(rows: seq<Object>, rowCount: int)

  /** The engines' answers to one statement with its parameters; `Err` carries the driver's error. */
  datatype Driver = Driver(
    all: (string, seq<Value>) -> Result<seq<Object>, string>,
    run: (string, seq<Value>) -> Result<RunStats, string>,
    pg: (string, seq<Value>) -> Result<PgResult, string>)

  /**
   * What `query` resolves to: a bare array of rows (a SQLite SELECT, and
   * every PostgreSQL statement), or the SQLite write record
   * `{insertId, changes, rows: []}`.
   */
  datatype QueryResult =
    | Rows(rows: seq<Object>)
    | Run(insertId: int, changes: int, rows: seq<Object>)

  /** The engine handle stored in the `db` field. */
  datatype Handle = NoHandle | SqliteFile | PgPool

  /** Error raised when `query` or `close` is used before `connect` (`this.db` is null). */
  const NullHandleError := "TypeError: Cannot read properties of null"

  /** `sql.trim().toUpperCase().startsWith('SELECT')`. */
  predicate IsSelect(sql: string)
  {
    StartsWith(Upper(Trim(sql)), "SELECT")
  }

  /** White space is left alone by the case mapping. */
  lemma UpperKeepsSpace(c: char)
    requires IsSpace(c)
    ensures UpperChar(c) == c
  {
  }

  /** Dropping trailing white space from a text does not change whether it starts with `SELECT`. */
  lemma SelectFront(t: string, e: string)
    requires |e| <= |t| && e == t[..|e|]
    requires forall i :: |e| <= i < |t| ==> IsSpace(t[i])
    ensures StartsWith(Upper(e), "SELECT") <==> StartsWith(Upper(t), "SELECT")
  {
    var ut := Upper(t);
    var ue := Upper(e);
    if StartsWith(ut, "SELECT") {
      if |e| <= 5 {
        UpperKeepsSpace(t[5]);
        assert false;
      }
      assert forall i :: 0 <= i < 6 ==> ue[i] == ut[i];
      assert ue[..6] == ut[..6];
    }
    if StartsWith(ue, "SELECT") {
      assert forall i :: 0 <= i < 6 ==> ue[i] == ut[i];
      assert ue[..6] == ut[..6];
    }
  }

  /** The trailing part of `trim` never matters: the test only looks at the leading text. */
  lemma IsSelectLeading(sql: string)
    ensures IsSelect(sql) <==> StartsWith(Upper(TrimStart(sql)), "SELECT")
  {
    var t := TrimStart(sql);
    SelectFront(t, TrimEnd(t));
  }

  /** Indenting a statement does not change how it is classified. */
  lemma LeadingSpaceIgnored(ws: string, sql: string)
    requires forall i :: 0 <= i < |ws| ==> IsSpace(ws[i])
    ensures IsSelect(ws + sql) <==> IsSelect(sql)
  {
    IsSelectLeading(ws + sql);
    IsSelectLeading(sql);
    TrimStartSpaces(ws, sql);
  }

  /** A statement written with a leading `SELECT` is classified as a read. */
  lemma SelectIsSelect(sql: string)
    requires StartsWith(sql, "SELECT")
    ensures IsSelect(sql)
  {
    assert sql[0] == 'S';
    TrimStartNoSpace(sql);
    IsSelectLeading(sql);
    var u := Upper(sql);
    forall i | 0 <= i < 6
      ensures u[i] == sql[i]
    {
      CapitalsKept(sql[i]);
    }
    assert u[..6] == sql[..6];
  }

  lemma CapitalsKept(c: char)
    requires c in "SELECT"
    ensures UpperChar(c) == c
  {
  }

  /** A statement whose first character is neither white space nor `s`/`S` is a write. */
  lemma OtherIsNotSelect(sql: string)
    requires sql != [] && !IsSpace(sql[0]) && UpperChar(sql[0]) != 'S'
    ensures !IsSelect(sql)
  {
    TrimStartNoSpace(sql);
    IsSelectLeading(sql);
  }

  /**
   * One statement sent to the engine the manager was built for. On SQLite a
   * SELECT goes to `all` and yields its rows; anything else goes to `run`
   * and yields the write record. On PostgreSQL every statement goes to the
   * pool and only `result.rows` comes back. A driver error is passed on unchanged.
   */
  function Dispatch(isPostgres: bool, sql: string, params: seq<Value>, drv: Driver): (r: Result<QueryResult, string>)
    // the engine chosen by the object and by the statement's first word
    ensures isPostgres ==> (r.Err? <==> drv.pg(sql, params).Err?)
    ensures !isPostgres && IsSelect(sql) ==> (r.Err? <==> drv.all(sql, params).Err?)
    ensures !isPostgres && !IsSelect(sql) ==> (r.Err? <==> drv.run(sql, params).Err?)
    // a driver error is passed on unchanged
    ensures r.Err? && isPostgres ==> r.error == drv.pg(sql, params).error
    ensures r.Err? && !isPostgres && IsSelect(sql) ==> r.error == drv.all(sql, params).error
    ensures r.Err? && !isPostgres && !IsSelect(sql) ==> r.error == drv.run(sql, params).error
    // only a SQLite write yields the write record; PostgreSQL never does
    ensures r.Ok? ==> (r.value.Run? <==> !isPostgres && !IsSelect(sql))
    ensures r.Ok? && r.value.Run? ==>
      r.value == Run(drv.run(sql, params).value.lastID, drv.run(sql, params).value.changes, [])
    ensures r.Ok? && r.value.Rows? ==>
      r.value.rows == if isPostgres then drv.pg(sql, params).value.rows else drv.all(sql, params).value
  {
    if isPostgres then
      match drv.pg(sql, params)
      case Ok(res) => Ok(Rows(res.rows))
      case Err(e) => Err(e)
    else if IsSelect(sql) then
      match drv.all(sql, params)
      case Ok(rows) => Ok(Rows(rows))
      case Err(e) => Err(e)
    else
      match drv.run(sql, params)
      case Ok(st) => Ok(Run(st.lastID, st.changes, []))
      case Err(e) => Err(e)
  }

  /** What the chosen engine answers to a read: PostgreSQL's `result.rows`, or SQLite's `all` rows; `Err` is the driver's error. */
  function EngineRows(isPostgres: bool, sql: string, params: seq<Value>, drv: Driver): Result<seq<Object>, string>
  {
    if isPostgres then
      match drv.pg(sql, params)
      case Ok(res) => Ok(res.rows)
      case Err(e) => Err(e)
    else drv.all(sql, params)
  }

  /** The error the chosen engine raises for a statement that is not a SELECT, if any. */
  function WriteError(isPostgres: bool, sql: string, params: seq<Value>, drv: Driver): Option<string>
  {
    if isPostgres then (if drv.pg(sql, params).Err? then Some(drv.pg(sql, params).error) else None)
    else if drv.run(sql, params).Err? then Some(drv.run(sql, params).error) else None
  }

  /** A SELECT is answered on either engine with the bare rows the engine read, or with its error. */
  lemma ReadDispatch(isPostgres: bool, sql: string, params: seq<Value>, drv: Driver)
    requires IsSelect(sql)
    ensures var read := EngineRows(isPostgres, sql, params, drv);
      Dispatch(isPostgres, sql, params, drv) == if read.Ok? then Ok(Rows(read.value)) else Err(read.error)
  {
  }

  /** Any other statement fails exactly with the engine's error. */
  lemma WriteDispatch(isPostgres: bool, sql: string, params: seq<Value>, drv: Driver)
    requires !IsSelect(sql)
    ensures var e := WriteError(isPostgres, sql, params, drv);
      (Dispatch(isPostgres, sql, params, drv).Err? <==> e.Some?) &&
      (e.Some? ==> Dispatch(isPostgres, sql, params, drv).error == e.value)
  {
  }

  /** A statement that starts with `SELECT`, whatever follows, is a read. */
  lemma SelectLed(head: string, rest: string)
    requires StartsWith(head, "SELECT")
    ensures IsSelect(head + rest)
  {
    assert (head + rest)[..6] == head[..6];
    SelectIsSelect(head + rest);
  }

  class Database {
    /** The backend choice, made once by the constructor and never re-evaluated. */
    const isPostgres: bool
    var db: Handle

    /** The handle, once there is one, belongs to the backend that was chosen. */
    ghost predicate Valid()
      reads this
    {
      db == NoHandle || (db == PgPool <==> isPostgres)
    }

    constructor (env: Env)
      ensures isPostgres == UsesPostgres(env)
      ensures db == NoHandle && Valid()
    {
      isPostgres := UsesPostgres(env);
      db := NoHandle;
    }

    /**
     * `connect()`: PostgreSQL creates a pool without checking it; SQLite opens
     * the file and rejects when that fails (`openError`), the broken handle
     * staying assigned all the same.
     */
    method Connect(openError: Option<string>) returns (r: Outcome<string>)
      modifies this
      ensures db == (if isPostgres then PgPool else SqliteFile) && Valid()
      ensures r == (if !isPostgres && openError.Some? then Fail(openError.value) else Pass)
    {
      if isPostgres {
        db := PgPool;
        r := Pass;
      } else {
        db := SqliteFile;
        r := if openError.Some? then Fail(openError.value) else Pass;
      }
    }

    /** `query(sql, params)`: fails before `connect`, otherwise goes to the chosen engine. */
    function Query(sql: string, params: seq<Value>, drv: Driver): (r: Result<QueryResult, string>)
      reads this
      // nothing succeeds before `connect`
      ensures r.Ok? ==> db != NoHandle
      // only a SQLite write yields the write record
      ensures r.Ok? ==> (r.value.Run? <==> !isPostgres && !IsSelect(sql))
    {
      if db == NoHandle then Err(NullHandleError) else Dispatch(isPostgres, sql, params, drv)
    }

    /**
     * Once connected, a query hears only from the engine chosen at construction:
     * two drivers that agree on that engine's answers give the same result,
     * whatever the other engine would say.
     */
    lemma QueryUsesChosenEngine(sql: string, params: seq<Value>, drv: Driver, other: Driver)
      requires db != NoHandle
      requires isPostgres ==> drv.pg(sql, params) == other.pg(sql, params)
      requires !isPostgres ==> drv.all(sql, params) == other.all(sql, params) && drv.run(sql, params) == other.run(sql, params)
      ensures Query(sql, params, drv) == Query(sql, params, other)
    {
    }

    /**
     * `close()`: on SQLite it resolves even when closing fails (the error is
     * only logged); on PostgreSQL the pool's `end` error (`endError`) propagates.
     */
    function Close(endError: Option<string>): (r: Outcome<string>)
      reads this
      ensures db == NoHandle ==> r == Fail(NullHandleError)
      ensures db != NoHandle && !isPostgres ==> r == Pass
      ensures db != NoHandle && isPostgres ==> (r == Pass <==> endError.None?)
      ensures db != NoHandle && isPostgres && endError.Some? ==> r == Fail(endError.value)
      // on a connected database only the pool's `end` can make closing fail
      ensures Valid() && db != NoHandle && r.Fail? ==> db == PgPool && r == Fail(endError.value)
    {
      if db == NoHandle then Fail(NullHandleError)
      else if isPostgres then (if endError.Some? then Fail(endError.value) else Pass)
      else Pass
    }
  }
}
