/**
 * The migration runner (`backend/scripts/migrate.js`): it connects, reads the
 * migration file of the chosen engine, splits it on `;` into statements and
 * sends them one at a time, on PostgreSQL between `BEGIN` and `COMMIT` with a
 * `ROLLBACK` after the first failure, and closes the connection whatever happens.
 *
 * The file system is a map from paths to file contents (`existsSync` is
 * membership, `readFileSync` the lookup); the engines are a `Driver`.
 */
module Migrate {
  import opened Wrappers
  import opened Text
  import opened Database

  /** The first migration, the one that creates `productos`. */
  const MigrationStem := "001_create_productos"
  const PostgresMigration := MigrationStem + ".sql"
  const SqliteMigration := MigrationStem + "_sqlite.sql"

  /** The one migration file each engine uses. */
  function MigrationFile(isPostgres: bool): (name: string)
    // both engines run the first migration, the one creating `productos`, as a SQL script
    ensures StartsWith(name, MigrationStem)
    ensures |name| > 4 && name[|name| - 4..] == ".sql"
  {
    var name := if isPostgres then PostgresMigration else SqliteMigration;
    assert name[..|MigrationStem|] == MigrationStem;
    name
  }

  /** Each engine reads its own migration file, and both are SQL scripts. */
  lemma MigrationPerEngine(a: bool, b: bool)
    ensures MigrationFile(a) == MigrationFile(b) <==> a == b
    ensures var n := MigrationFile(a); |n| > 4 && n[|n| - 4..] == ".sql"
  {
    assert |PostgresMigration| != |SqliteMigration|;
    var n := MigrationFile(a);
    assert n[|n| - 4..] == ".sql";
  }

  /** `path.join(dir, file)`, `dir` being the migrations directory written without a trailing separator. */
  function MigrationPath(dir: string, isPostgres: bool): string
  {
    dir + "/" + MigrationFile(isPostgres)
  }

  function MissingFileError(path: string): string
  {
    "Archivo de migraci\U{00F3}n no encontrado: " + path
  }

  // ---------------------------------------------------------------------
  // From the file's text to the statements that are sent

  /** Nothing but white space: what `trim()` turns into the empty text. */
  predicate Blank(s: string)
  {
    forall i :: 0 <= i < |s| ==> IsSpace(s[i])
  }

  lemma BlankIffTrimEmpty(s: string)
    ensures Blank(s) <==> Trim(s) == ""
  {
    TrimEmptyIffBlank(s);
  }

  /** `.filter(stmt => stmt.trim().length > 0)`: the pieces that are not blank, in order. */
  function NonBlank(pieces: seq<string>): (r: seq<string>)
    ensures forall s :: s in r ==> s in pieces && !Blank(s)
  {
    if pieces == [] then []
    else (if !Blank(pieces[0]) then [pieces[0]] else []) + NonBlank(pieces[1..])
  }

  /** Keeping the non-blank pieces of two runs of pieces keeps those of each, in order. */
  lemma {:induction false} NonBlankAppend(a: seq<string>, b: seq<string>)
    ensures NonBlank(a + b) == NonBlank(a) + NonBlank(b)
  {
    if a == [] {
      assert a + b == b;
    } else {
      assert (a + b)[0] == a[0];
      assert (a + b)[1..] == a[1..] + b;
      NonBlankAppend(a[1..], b);
    }
  }

  /** One piece is kept exactly when it is not blank. */
  lemma NonBlankSingle(s: string)
    ensures NonBlank([s]) == if Blank(s) then [] else [s]
  {
    assert [s][1..] == [];
  }

  /** `.map(stmt => stmt.trim() + ';')`. */
  function Terminated(pieces: seq<string>): (r: seq<string>)
    ensures |r| == |pieces|
    ensures forall i :: 0 <= i < |r| ==> r[i] == Trim(pieces[i]) + ";"
  {
    seq(|pieces|, i requires 0 <= i < |pieces| => Trim(pieces[i]) + ";")
  }

  /**
   * Each terminated statement is its piece trimmed with one `;` after it, and
   * has no white space around it; a piece that was not blank leaves a
   * statement with more than its `;`.
   */
  lemma TerminatedTrimmed(pieces: seq<string>, i: nat)
    requires i < |pieces|
    ensures var t := Terminated(pieces)[i];
      t != [] && t[|t| - 1] == ';' && t[..|t| - 1] == Trim(pieces[i]) && Trim(t) == t
    ensures !Blank(pieces[i]) ==> |Terminated(pieces)[i]| >= 2
  {
    var core := Trim(pieces[i]);
    assert Terminated(pieces)[i] == core + ";";
    ClosedParts(core);
    TrimmedClosed(pieces[i]);
    BlankIffTrimEmpty(pieces[i]);
  }

  lemma ClosedParts(core: string)
    ensures var t := core + ";"; t != [] && t[|t| - 1] == ';' && t[..|t| - 1] == core && |t| == |core| + 1
  {
    var t := core + ";";
    assert t[..|t| - 1] == core;
  }

  /** The PostgreSQL statement list: each non-blank piece, trimmed and closed with `;`. */
  function PgStatements(text: string): seq<string>
  {
    Terminated(NonBlank(Split(text, ';')))
  }

  /** The SQLite statement list: the non-blank pieces as they stand. */
  function SqliteStatements(text: string): seq<string>
  {
    NonBlank(Split(text, ';'))
  }

  /** The loop's guard, `statement.trim() && !statement.startsWith('--')` (see `BlankIffTrimEmpty`). */
  predicate Runs(statement: string)
  {
    !Blank(statement) && !StartsWith(statement, "--")
  }

  /** A statement as it is sent: as it stands on PostgreSQL, trimmed on SQLite. */
  function Prepared(s: string, trimFirst: bool): string
  {
    if trimFirst then Trim(s) else s
  }

  /** What the loop over `statements` sends, in order: each statement that passes the guard, trimmed first on SQLite. */
  function Plan(statements: seq<string>, trimFirst: bool): seq<string>
  {
    if statements == [] then []
    else
      var s := statements[0];
      (if Runs(s) then [Prepared(s, trimFirst)] else []) + Plan(statements[1..], trimFirst)
  }

  /** Every statement sent comes from the list, passed the guard, and is sent as it stands or trimmed. */
  lemma {:induction false} PlanFrom(statements: seq<string>, trimFirst: bool, s: string)
    requires s in Plan(statements, trimFirst)
    ensures exists t :: t in statements && Runs(t) && s == Prepared(t, trimFirst)
  {
    var h := statements[0];
    var head := if Runs(h) then [Prepared(h, trimFirst)] else [];
    assert Plan(statements, trimFirst) == head + Plan(statements[1..], trimFirst);
    if s !in head {
      PlanFrom(statements[1..], trimFirst, s);
      var t :| t in statements[1..] && Runs(t) && s == Prepared(t, trimFirst);
      assert t in statements;
    }
  }

  /** The statements keep their order: the plan of two runs of statements is the plan of the first, then of the second. */
  lemma {:induction false} PlanAppend(a: seq<string>, b: seq<string>, trimFirst: bool)
    ensures Plan(a + b, trimFirst) == Plan(a, trimFirst) + Plan(b, trimFirst)
  {
    if a == [] {
      assert a + b == b;
    } else {
      var h := a[0];
      var head := if Runs(h) then [Prepared(h, trimFirst)] else [];
      assert (a + b)[0] == h;
      assert (a + b)[1..] == a[1..] + b;
      assert Plan(a + b, trimFirst) == head + Plan(a[1..] + b, trimFirst);
      assert Plan(a, trimFirst) == head + Plan(a[1..], trimFirst);
      PlanAppend(a[1..], b, trimFirst);
      AppendAssoc(head, Plan(a[1..], trimFirst), Plan(b, trimFirst));
    }
  }

  /** Characters of a trimmed text are characters of the text. */
  lemma TrimWithin(p: string, c: char)
    requires c in Trim(p)
    ensures c in p
  {
    var r := TrimStart(p);
    assert c in r;
    assert r == p[|p| - |r|..];
  }

  /** The trimmed text starts and ends with something other than white space. */
  lemma TrimSolid(p: string)
    requires Trim(p) != ""
    ensures !IsSpace(Trim(p)[0]) && !IsSpace(Trim(p)[|Trim(p)| - 1])
  {
    var r := TrimStart(p);
    assert Trim(p) == r[..|Trim(p)|];
  }

  /**
   * On PostgreSQL every statement sent is a piece of the text, trimmed, with
   * one `;` added at the end and no other `;`, and never starts with `--`.
   */
  lemma PgPlanShape(text: string, s: string)
    requires s in Plan(PgStatements(text), false)
    ensures exists p :: p in Split(text, ';') && s == Trim(p) + ";"
    ensures s != "" && s[|s| - 1] == ';' && ';' !in s[..|s| - 1]
    ensures !Blank(s) && !StartsWith(s, "--")
  {
    var pieces := NonBlank(Split(text, ';'));
    PlanFrom(PgStatements(text), false, s);
    var i :| 0 <= i < |pieces| && s == PgStatements(text)[i];
    var p := pieces[i];
    assert p in pieces;
    assert s == Trim(p) + ";";
    assert s[..|s| - 1] == Trim(p);
    if ';' in Trim(p) {
      TrimWithin(p, ';');
    }
  }

  /** On SQLite every statement sent is a non-blank piece with its surrounding white space removed, holding no `;`. */
  lemma SqlitePlanShape(text: string, s: string)
    requires s in Plan(SqliteStatements(text), true)
    ensures exists p :: p in Split(text, ';') && !StartsWith(p, "--") && s == Trim(p)
    ensures s != "" && !IsSpace(s[0]) && !IsSpace(s[|s| - 1]) && ';' !in s
  {
    PlanFrom(SqliteStatements(text), true, s);
    var p :| p in SqliteStatements(text) && Runs(p) && s == Trim(p);
    NoSeparatorIn(text, p);
    PieceTrimmed(p, s);
  }

  lemma NoSeparatorIn(text: string, p: string)
    requires p in Split(text, ';')
    ensures ';' !in p
  {
    var pieces := Split(text, ';');
    var k :| 0 <= k < |pieces| && pieces[k] == p;
  }

  lemma PieceTrimmed(p: string, t: string)
    requires !Blank(p) && ';' !in p && t == Trim(p)
    ensures t != "" && !IsSpace(t[0]) && !IsSpace(t[|t| - 1]) && ';' !in t
  {
    BlankIffTrimEmpty(p);
    TrimSolid(p);
    if ';' in Trim(p) {
      TrimWithin(p, ';');
    }
  }

  /**
   * A piece indented before its leading `--` comment, e.g. a statement that
   * starts on a new line with a comment above it: PostgreSQL tests the trimmed
   * text and drops the whole piece, SQLite tests the raw piece and runs it.
   */
  lemma IndentedCommentEngines(ws: string, rest: string)
    requires ws != [] && forall i :: 0 <= i < |ws| ==> IsSpace(ws[i])
    requires ';' !in ws + "--" + rest
    ensures Plan(PgStatements(ws + "--" + rest), false) == []
    ensures Plan(SqliteStatements(ws + "--" + rest), true) == [Trim(ws + "--" + rest)]
  {
    var text := ws + "--" + rest;
    IndentedComment(ws, rest);
    assert text == ws + ("--" + rest);
    TrimmedComment(ws, "--" + rest);
    PgDropsPiece(text);
    SqliteKeepsPiece(text);
  }

  /** PostgreSQL drops a lone piece whose trimmed form is a comment. */
  lemma PgDropsPiece(text: string)
    requires ';' !in text && !Blank(text) && StartsWith(Trim(text), "--")
    ensures Plan(PgStatements(text), false) == []
  {
    var t := Trim(text);
    SplitWhole(text, ';');
    assert NonBlank([text]) == [text];
    assert Terminated([text]) == [t + ";"];
    CommentKept(t, ";");
    assert Plan([t + ";"], false) == [];
  }

  /** SQLite runs a lone piece that does not itself start with `--`, trimmed. */
  lemma SqliteKeepsPiece(text: string)
    requires ';' !in text && !Blank(text) && !StartsWith(text, "--")
    ensures Plan(SqliteStatements(text), true) == [Trim(text)]
  {
    SplitWhole(text, ';');
    assert NonBlank([text]) == [text];
    assert Plan([text], true) == [Trim(text)];
  }

  /** The piece is not blank and does not start with `--`; its trimmed form does (`TrimmedComment`). */
  lemma IndentedComment(ws: string, rest: string)
    requires ws != [] && forall i :: 0 <= i < |ws| ==> IsSpace(ws[i])
    ensures var text := ws + "--" + rest; !Blank(text) && !StartsWith(text, "--")
  {
    var text := ws + "--" + rest;
    assert text[|ws|] == '-';
    assert text[0] == ws[0];
  }

  lemma TrimmedComment(ws: string, body: string)
    requires forall i :: 0 <= i < |ws| ==> IsSpace(ws[i])
    requires StartsWith(body, "--")
    ensures StartsWith(Trim(ws + body), "--")
  {
    assert body[..2][0] == '-';
    TrimStartSpaces(ws, body);
    TrimStartNoSpace(body);
    TrimEndComment(body);
  }

  lemma TrimEndComment(body: string)
    requires StartsWith(body, "--")
    ensures StartsWith(TrimEnd(body), "--")
  {
    assert body[..2][1] == '-';
    var t := TrimEnd(body);
    assert |t| >= 2;
    assert t[..2] == body[..2];
  }

  /** Text that starts with a prefix still does after something is appended. */
  lemma CommentKept(t: string, tail: string)
    requires StartsWith(t, "--")
    ensures StartsWith(t + tail, "--")
  {
    assert (t + tail)[..2] == t[..2];
  }

  // ---------------------------------------------------------------------
  // Sending statements

  /** What the runner does to the outside world, in order. */
  datatype Event = Connected | Sent(sql: string) | Closed

  /** The events so far and the error thrown, if one was. */
  datatype Trace = Trace(events: seq<Event>, error: Option<string>)

  function Prepend(events: seq<Event>, t: Trace): Trace
  {
    Trace(events + t.events, t.error)
  }

  /** `Sent` for each statement, in order. */
  function Sends(sqls: seq<string>): (r: seq<Event>)
    ensures |r| == |sqls| && forall i :: 0 <= i < |r| ==> r[i] == Sent(sqls[i])
  {
    seq(|sqls|, i requires 0 <= i < |sqls| => Sent(sqls[i]))
  }

  /** How the engine answers a statement sent without parameters. */
  type Asker = string -> Result<QueryResult, string>

  /** `database.query(sql)` on a connected manager. */
  function Answer(isPostgres: bool, drv: Driver): Asker
  {
    sql => Dispatch(isPostgres, sql, [], drv)
  }

  predicate Accepted(ask: Asker, sql: string)
  {
    ask(sql).Ok?
  }

  /** Awaiting `query(sql)` for each statement in turn: the first rejection is thrown and nothing after it is sent. */
  function Send(ask: Asker, sqls: seq<string>): (t: Trace)
    ensures |t.events| <= |sqls|
  {
    if sqls == [] then Trace([], None)
    else
      match ask(sqls[0])
      case Err(e) => Trace([Sent(sqls[0])], Some(e))
      case Ok(_) => Prepend([Sent(sqls[0])], Send(ask, sqls[1..]))
  }

  /** Where the first rejected statement is, `|sqls|` when every one is accepted. */
  function FirstRejected(ask: Asker, sqls: seq<string>): (k: nat)
    ensures k <= |sqls|
    ensures forall i :: 0 <= i < k ==> Accepted(ask, sqls[i])
    ensures k < |sqls| ==> !Accepted(ask, sqls[k])
  {
    if sqls == [] || !Accepted(ask, sqls[0]) then 0
    else
      var k := FirstRejected(ask, sqls[1..]);
      assert forall i :: 1 <= i < 1 + k ==> sqls[i] == sqls[1..][i - 1];
      1 + k
  }

  lemma SendsAppend(a: seq<string>, b: seq<string>)
    ensures Sends(a + b) == Sends(a) + Sends(b)
  {
  }

  /**
   * Sending a list sends it up to and including the first rejected statement,
   * whose rejection is the error; when none is rejected, it sends the whole list.
   */
  lemma {:induction false} SendStopsAtFailure(ask: Asker, sqls: seq<string>)
    ensures var k := FirstRejected(ask, sqls);
      Send(ask, sqls) ==
        if k == |sqls| then Trace(Sends(sqls), None)
        else Trace(Sends(sqls[..k + 1]), Some(ask(sqls[k]).error))
  {
    if sqls != [] {
      var s, rest := sqls[0], sqls[1..];
      if Accepted(ask, s) {
        SendStopsAtFailure(ask, rest);
        var k := FirstRejected(ask, rest);
        assert FirstRejected(ask, sqls) == 1 + k;
        assert Send(ask, sqls) == Prepend([Sent(s)], Send(ask, rest));
        if k == |rest| {
          assert sqls == [s] + rest;
          SendsAppend([s], rest);
        } else {
          assert sqls[..k + 2] == [s] + rest[..k + 1];
          SendsAppend([s], rest[..k + 1]);
          assert sqls[k + 1] == rest[k];
        }
      } else {
        assert sqls[..1] == [s];
      }
    }
  }

  /** Sending two lists one after the other is sending their concatenation. */
  lemma {:induction false} SendAppend(ask: Asker, a: seq<string>, b: seq<string>)
    ensures Send(ask, a + b) ==
      if Send(ask, a).error.Some? then Send(ask, a)
      else Prepend(Send(ask, a).events, Send(ask, b))
  {
    if a == [] {
      assert a + b == b;
    } else {
      assert (a + b)[0] == a[0];
      assert (a + b)[1..] == a[1..] + b;
      SendAppend(ask, a[1..], b);
      if Accepted(ask, a[0]) {
        var ta := Send(ask, a[1..]);
        if ta.error.None? {
          AppendAssoc([Sent(a[0])], ta.events, Send(ask, b).events);
        }
      }
    }
  }

  /**
   * The PostgreSQL transaction: `BEGIN` (a failure here is thrown with no
   * `ROLLBACK`), the statements, then `COMMIT`. A failure among the
   * statements or of `COMMIT` is followed by `ROLLBACK` and rethrown, unless
   * `ROLLBACK` fails too, whose error then replaces it.
   */
  function Transaction(ask: Asker, plan: seq<string>): Trace
  {
    match ask("BEGIN")
    case Err(e) => Trace([Sent("BEGIN")], Some(e))
    case Ok(_) =>
      var body := Send(ask, plan + ["COMMIT"]);
      if body.error.None? then Prepend([Sent("BEGIN")], body)
      else
        var error := match ask("ROLLBACK")
                     case Err(e) => Some(e)
                     case Ok(_) => body.error;
        Trace([Sent("BEGIN")] + body.events + [Sent("ROLLBACK")], error)
  }

  /** What happens between connecting and closing: a failed connection or a missing file stops everything. */
  function Work(isPostgres: bool, openError: Option<string>, files: map<string, string>, dir: string, ask: Asker): Trace
  {
    if !isPostgres && openError.Some? then Trace([], openError)
    else
      var path := MigrationPath(dir, isPostgres);
      if path !in files then Trace([], Some(MissingFileError(path)))
      else if isPostgres then Transaction(ask, Plan(PgStatements(files[path]), false))
      else Send(ask, Plan(SqliteStatements(files[path]), true))
  }

  /** The whole run: its events and how the returned promise settles. */
  datatype Report = Report(events: seq<Event>, outcome: Outcome<string>)

  /**
   * `runMigrations()`: connect, do the work, and in `finally` close. A failure
   * of `close` (PostgreSQL's `end`) replaces whatever the work did; otherwise
   * the work's error is rethrown.
   */
  function Migration(isPostgres: bool, openError: Option<string>, files: map<string, string>, dir: string,
                     ask: Asker, endError: Option<string>): Report
  {
    Finish(isPostgres, endError, Work(isPostgres, openError, files, dir, ask))
  }

  /** The `finally` block around the work `w`. */
  function Finish(isPostgres: bool, endError: Option<string>, w: Trace): Report
  {
    var outcome :=
      if isPostgres && endError.Some? then Fail(endError.value)
      else if w.error.Some? then Fail(w.error.value)
      else Pass;
    Report([Connected] + w.events + [Closed], outcome)
  }

  // ---------------------------------------------------------------------
  // The runner itself

  /** The `for … of` loop: each statement that passes the guard is awaited before the next; the first rejection leaves the loop. */
  method Execute(database: Database, drv: Driver, statements: seq<string>, trimFirst: bool) returns (t: Trace)
    requires database.db != NoHandle
    ensures t == Send(Answer(database.isPostgres, drv), Plan(statements, trimFirst))
  {
    ghost var ask := Answer(database.isPostgres, drv);
    var events: seq<Event> := [];
    var error: Option<string> := None;
    var i := 0;
    while i < |statements| && error.None?
      invariant 0 <= i <= |statements|
      invariant error.None? ==> Send(ask, Plan(statements, trimFirst)) == Prepend(events, Send(ask, Plan(statements[i..], trimFirst)))
      invariant error.Some? ==> Trace(events, error) == Send(ask, Plan(statements, trimFirst))
      decreases |statements| - i
    {
      var statement := statements[i];
      LoopStep(ask, statements, i, trimFirst);
      if Runs(statement) {
        var sql := Prepared(statement, trimFirst);
        var answer := database.Query(sql, [], drv);
        assert answer == ask(sql);
        ghost var before := events;
        events := events + [Sent(sql)];
        if answer.Err? {
          error := Some(answer.error);
        } else {
          PrependTwice(before, [Sent(sql)], Send(ask, Plan(statements[i + 1..], trimFirst)));
        }
      }
      i := i + 1;
    }
    if error.None? {
      assert statements[i..] == [];
      assert events + [] == events;
    }
    t := Trace(events, error);
  }

  /** One turn of the loop: what sending the rest of the list does, in terms of its first statement. */
  lemma LoopStep(ask: Asker, statements: seq<string>, i: nat, trimFirst: bool)
    requires i < |statements|
    ensures var s, later := statements[i], Plan(statements[i + 1..], trimFirst);
      Send(ask, Plan(statements[i..], trimFirst)) ==
        if !Runs(s) then Send(ask, later)
        else match ask(Prepared(s, trimFirst))
             case Err(e) => Trace([Sent(Prepared(s, trimFirst))], Some(e))
             case Ok(_) => Prepend([Sent(Prepared(s, trimFirst))], Send(ask, later))
  {
    var s, later := statements[i], Plan(statements[i + 1..], trimFirst);
    PlanStep(statements, i, trimFirst);
    if Runs(s) {
      SendStep(ask, Prepared(s, trimFirst), later);
    } else {
      assert [] + later == later;
    }
  }

  /** One statement of the loop: the plan of the rest starts with it exactly when it passes the guard. */
  lemma PlanStep(statements: seq<string>, i: nat, trimFirst: bool)
    requires i < |statements|
    ensures var s := statements[i];
      Plan(statements[i..], trimFirst) ==
        (if Runs(s) then [Prepared(s, trimFirst)] else []) + Plan(statements[i + 1..], trimFirst)
  {
    assert statements[i..][0] == statements[i];
    assert statements[i..][1..] == statements[i + 1..];
  }

  /** One statement sent: a rejection ends the run with it, an acceptance goes on with the rest. */
  lemma SendStep(ask: Asker, sql: string, rest: seq<string>)
    ensures Send(ask, [sql] + rest) ==
      match ask(sql)
      case Err(e) => Trace([Sent(sql)], Some(e))
      case Ok(_) => Prepend([Sent(sql)], Send(ask, rest))
  {
    assert ([sql] + rest)[0] == sql;
    assert ([sql] + rest)[1..] == rest;
  }

  lemma PrependTwice(a: seq<Event>, b: seq<Event>, t: Trace)
    ensures Prepend(a, Prepend(b, t)) == Prepend(a + b, t)
  {
    AppendAssoc(a, b, t.events);
  }

  /** The `BEGIN` … `COMMIT` block with its `catch` that rolls back and rethrows. */
  method Transact(database: Database, drv: Driver, statements: seq<string>) returns (t: Trace)
    requires database.db != NoHandle && database.isPostgres
    ensures t == Transaction(Answer(true, drv), Plan(statements, false))
  {
    var begin := database.Query("BEGIN", [], drv);
    if begin.Err? {
      return Trace([Sent("BEGIN")], Some(begin.error));
    }
    var body := Execute(database, drv, statements, false);
    SendAppend(Answer(true, drv), Plan(statements, false), ["COMMIT"]);
    if body.error.None? {
      var commit := database.Query("COMMIT", [], drv);
      assert Send(Answer(true, drv), ["COMMIT"]) == Trace([Sent("COMMIT")], if commit.Err? then Some(commit.error) else None);
      body := Trace(body.events + [Sent("COMMIT")], if commit.Err? then Some(commit.error) else None);
    }
    if body.error.None? {
      t := Prepend([Sent("BEGIN")], body);
    } else {
      var rollback := database.Query("ROLLBACK", [], drv);
      t := Trace([Sent("BEGIN")] + body.events + [Sent("ROLLBACK")], if rollback.Err? then Some(rollback.error) else body.error);
    }
  }

  /** `runMigrations()`, with the connection manager it shares with the server. */
  method RunMigrations(database: Database, drv: Driver, openError: Option<string>, files: map<string, string>,
                       dir: string, endError: Option<string>) returns (events: seq<Event>, outcome: Outcome<string>)
    modifies database
    ensures database.db == (if database.isPostgres then PgPool else SqliteFile)
    ensures Report(events, outcome) == Migration(database.isPostgres, openError, files, dir, Answer(database.isPostgres, drv), endError)
  {
    var work := Trace([], None);
    var connected := database.Connect(openError);
    if connected.Fail? {
      work := Trace([], Some(connected.error));
    } else {
      var path := MigrationPath(dir, database.isPostgres);
      if path !in files {
        work := Trace([], Some(MissingFileError(path)));
      } else if database.isPostgres {
        work := Transact(database, drv, PgStatements(files[path]));
      } else {
        work := Execute(database, drv, SqliteStatements(files[path]), true);
      }
    }
    events := [Connected] + work.events + [Closed];
    var closing := database.Close(endError);
    outcome := if closing.Fail? then closing else if work.error.Some? then Fail(work.error.value) else Pass;
  }

  // ---------------------------------------------------------------------
  // Properties of a run

  /** Nothing but statements. */
  predicate OnlySends(events: seq<Event>)
  {
    forall e :: e in events ==> e.Sent?
  }

  lemma {:induction false} SendOnlySends(ask: Asker, sqls: seq<string>)
    ensures OnlySends(Send(ask, sqls).events)
  {
    if sqls != [] && ask(sqls[0]).Ok? {
      SendOnlySends(ask, sqls[1..]);
    }
  }

  lemma TransactionOnlySends(ask: Asker, plan: seq<string>)
    ensures OnlySends(Transaction(ask, plan).events)
  {
    SendOnlySends(ask, plan + ["COMMIT"]);
  }

  /** Between connecting and closing only statements are sent. */
  lemma WorkOnlySends(isPostgres: bool, openError: Option<string>, files: map<string, string>, dir: string, ask: Asker)
    ensures OnlySends(Work(isPostgres, openError, files, dir, ask).events)
  {
    var path := MigrationPath(dir, isPostgres);
    if !(!isPostgres && openError.Some?) && path in files {
      if isPostgres {
        TransactionOnlySends(ask, Plan(PgStatements(files[path]), false));
      } else {
        SendOnlySends(ask, Plan(SqliteStatements(files[path]), true));
      }
    }
  }

  /** Closing comes after the work, once, and last. */
  lemma FinishBrackets(isPostgres: bool, endError: Option<string>, w: Trace)
    requires OnlySends(w.events)
    ensures var evs := Finish(isPostgres, endError, w).events;
      |evs| >= 2 && evs[0] == Connected && evs[|evs| - 1] == Closed &&
      forall i :: 0 <= i < |evs| - 1 ==> evs[i] != Closed
  {
    var evs := [Connected] + w.events + [Closed];
    forall i | 0 <= i < |evs| - 1
      ensures evs[i] != Closed
    {
      if i > 0 {
        assert evs[i] == w.events[i - 1];
        assert evs[i] in w.events;
      }
    }
  }

  /** The run connects first and closes last, and closes exactly once, whatever fails. */
  lemma ClosedOnceAtEnd(isPostgres: bool, openError: Option<string>, files: map<string, string>, dir: string,
                        ask: Asker, endError: Option<string>)
    ensures var evs := Migration(isPostgres, openError, files, dir, ask, endError).events;
      |evs| >= 2 && evs[0] == Connected && evs[|evs| - 1] == Closed &&
      forall i :: 0 <= i < |evs| - 1 ==> evs[i] != Closed
  {
    WorkOnlySends(isPostgres, openError, files, dir, ask);
    FinishBrackets(isPostgres, endError, Work(isPostgres, openError, files, dir, ask));
  }

  /** A missing migration file is reported before any statement is sent. */
  lemma MissingFileSendsNothing(isPostgres: bool, openError: Option<string>, files: map<string, string>, dir: string,
                                ask: Asker, endError: Option<string>)
    requires isPostgres || openError.None?
    requires MigrationPath(dir, isPostgres) !in files
    ensures Migration(isPostgres, openError, files, dir, ask, endError).events == [Connected, Closed]
    ensures Migration(isPostgres, openError, files, dir, ask, endError).outcome ==
      if isPostgres && endError.Some? then Fail(endError.value) else Fail(MissingFileError(MigrationPath(dir, isPostgres)))
  {
  }

  /** A failure of PostgreSQL's `end` in `finally` is what the run throws, whatever happened before. */
  lemma CloseErrorWins(openError: Option<string>, files: map<string, string>, dir: string, ask: Asker, e: string)
    ensures Migration(true, openError, files, dir, ask, Some(e)).outcome == Fail(e)
  {
  }

  /** A failing `BEGIN` is thrown as it is, with no `ROLLBACK` and no statement sent. */
  lemma TransactionBeginFails(ask: Asker, plan: seq<string>)
    requires !Accepted(ask, "BEGIN")
    ensures Transaction(ask, plan) == Trace([Sent("BEGIN")], Some(ask("BEGIN").error))
  {
  }

  /**
   * The transaction succeeds exactly when `BEGIN`, every planned statement and
   * `COMMIT` are accepted, and then it sent `BEGIN`, the statements in order
   * and `COMMIT`, and nothing else.
   */
  lemma TransactionCommits(ask: Asker, plan: seq<string>)
    ensures var t := Transaction(ask, plan);
      (t.error.None? <==>
        Accepted(ask, "BEGIN") && Accepted(ask, "COMMIT") && forall i :: 0 <= i < |plan| ==> Accepted(ask, plan[i])) &&
      (t.error.None? ==> t.events == [Sent("BEGIN")] + Sends(plan) + [Sent("COMMIT")])
  {
    CommitBody(ask, plan);
  }

  /** The statements followed by `COMMIT` all go through exactly when each is accepted, and then each was sent in order. */
  lemma CommitBody(ask: Asker, plan: seq<string>)
    ensures var body := Send(ask, plan + ["COMMIT"]);
      (body.error.None? <==> Accepted(ask, "COMMIT") && forall i :: 0 <= i < |plan| ==> Accepted(ask, plan[i])) &&
      (body.error.None? ==> body.events == Sends(plan) + [Sent("COMMIT")])
  {
    var sqls := plan + ["COMMIT"];
    SendStopsAtFailure(ask, sqls);
    var k := FirstRejected(ask, sqls);
    assert sqls[|plan|] == "COMMIT";
    assert forall i :: 0 <= i < |plan| ==> sqls[i] == plan[i];
    if k == |sqls| {
      SendsAppend(plan, ["COMMIT"]);
    }
  }

  /**
   * Once `BEGIN` is accepted, a rejected statement or a rejected `COMMIT` is
   * followed by `ROLLBACK`, the last thing the transaction sends, and the
   * transaction fails.
   */
  lemma TransactionRollsBack(ask: Asker, plan: seq<string>)
    requires Accepted(ask, "BEGIN")
    requires !Accepted(ask, "COMMIT") || exists i :: 0 <= i < |plan| && !Accepted(ask, plan[i])
    ensures var t := Transaction(ask, plan);
      t.error.Some? && |t.events| >= 2 && t.events[0] == Sent("BEGIN") && t.events[|t.events| - 1] == Sent("ROLLBACK")
  {
    CommitBody(ask, plan);
  }

  /** On PostgreSQL, with the file present, the run is the transaction over the file's statements, closed by `end`. */
  lemma PostgresRun(openError: Option<string>, files: map<string, string>, dir: string, ask: Asker, endError: Option<string>)
    requires MigrationPath(dir, true) in files
    ensures Migration(true, openError, files, dir, ask, endError) ==
      Finish(true, endError, Transaction(ask, Plan(PgStatements(files[MigrationPath(dir, true)]), false)))
  {
  }

  /** On SQLite, opened without error and with the file present, the run sends the file's planned statements, then closes. */
  lemma SqliteRun(files: map<string, string>, dir: string, ask: Asker, endError: Option<string>)
    requires MigrationPath(dir, false) in files
    ensures Migration(false, None, files, dir, ask, endError) ==
      Finish(false, endError, Send(ask, Plan(SqliteStatements(files[MigrationPath(dir, false)]), true)))
  {
  }

  /**
   * On SQLite the run sends the planned statements in order and no others,
   * and succeeds exactly when every one is accepted.
   */
  lemma SqliteSends(ask: Asker, plan: seq<string>, endError: Option<string>)
    ensures var m := Finish(false, endError, Send(ask, plan));
      (m.outcome == Pass <==> forall i :: 0 <= i < |plan| ==> Accepted(ask, plan[i])) &&
      (m.outcome == Pass ==> m.events == [Connected] + Sends(plan) + [Closed])
  {
    SendStopsAtFailure(ask, plan);
  }
}
