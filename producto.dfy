/**
 * The product repository (`backend/models/Producto.js`): builds the SQL text
 * and parameter list of every catalogue operation, sends it through the
 * connection manager and turns what comes back into domain values.
 *
 * The three builders that grow their statement step by step (`findAll`,
 * `count`, `update`) are methods proved equal to a statement function; the
 * operations that send a statement are functions of the connection manager.
 */
module Producto {
  import opened Wrappers
  import opened Text
  import opened JsValue
  import opened PhotoCodec
  import opened Database

  /** A statement and its positional parameters, in the order they are pushed. */
  datatype Statement = Statement(sql: string, params: seq<Value>)

  /** The `filters` argument of `findAll` and `count`; `None` is an absent key. */
  datatype Filters = Filters(categoria: Option<string>, tipo: Option<string>, color: Option<string>, q: Option<string>)

  /** The `pagination` argument of `findAll`. */
  datatype Pagination = Pagination(page: Value, limit: Value)

  /** A filter value taken as a truth value. */
  predicate Present(v: Option<string>)
  {
    v.Some? && v.value != ""
  }

  // ---------------------------------------------------------------------
  // The shared WHERE predicate of findAll and count

  /** One appended SQL fragment and the parameters pushed with it. */
  datatype Clause = Clause(text: string, args: seq<Value>)

  /** ` AND col = ?`, the text a truthy equality filter on `col` appends. */
  function EqFragment(col: string): string
  {
    " AND " + col + " = " + "?"
  }

  /** ` AND (nombre LIKE ? OR descripcion LIKE ?)`, the text a truthy search term appends. */
  const SearchText := " AND (nombre LIKE " + "?" + " OR descripcion LIKE " + "?" + ")"

  /** An equality clause such as ` AND categoria = ?`, present only for a truthy filter value. */
  function EqClause(text: string, v: Option<string>): seq<Clause>
  {
    if Present(v) then [Clause(text, [Str(v.value)])] else []
  }

  /** `%q%`, the LIKE pattern for a search term. */
  function SearchPattern(q: string): string
  {
    "%" + q + "%"
  }

  /** The search clause on `nombre` and `descripcion`, present only for a truthy term. */
  function SearchClause(q: Option<string>): seq<Clause>
  {
    if Present(q) then
      [Clause(SearchText, [Str(SearchPattern(q.value)), Str(SearchPattern(q.value))])]
    else []
  }

  /** The filter clauses in the order both builders append them. */
  function FilterClauses(f: Filters): seq<Clause>
  {
    EqClause(EqFragment("categoria"), f.categoria) + EqClause(EqFragment("tipo"), f.tipo)
    + EqClause(EqFragment("color"), f.color) + SearchClause(f.q)
  }

  function ClauseText(cs: seq<Clause>): string
  {
    if cs == [] then "" else cs[0].text + ClauseText(cs[1..])
  }

  function ClauseArgs(cs: seq<Clause>): seq<Value>
  {
    if cs == [] then [] else cs[0].args + ClauseArgs(cs[1..])
  }

  lemma {:induction false} ClauseAppend(cs: seq<Clause>, ds: seq<Clause>)
    ensures ClauseText(cs + ds) == ClauseText(cs) + ClauseText(ds)
    ensures ClauseArgs(cs + ds) == ClauseArgs(cs) + ClauseArgs(ds)
  {
    if cs == [] {
      assert cs + ds == ds;
    } else {
      assert (cs + ds)[1..] == cs[1..] + ds;
      ClauseAppend(cs[1..], ds);
      AppendAssoc(cs[0].text, ClauseText(cs[1..]), ClauseText(ds));
      AppendAssoc(cs[0].args, ClauseArgs(cs[1..]), ClauseArgs(ds));
    }
  }

  lemma ClauseSingle(ds: seq<Clause>)
    requires |ds| <= 1
    ensures ClauseText(ds) == (if ds == [] then "" else ds[0].text)
    ensures ClauseArgs(ds) == (if ds == [] then [] else ds[0].args)
  {
    if ds != [] {
      assert ds[1..] == [];
    }
  }

  /** A fragment with as many `?` as the parameters pushed with it. */
  predicate Balanced(c: Clause)
  {
    Placeholders(c.text) == |c.args|
  }

  lemma {:induction false} ClausesBalanced(cs: seq<Clause>)
    requires forall i :: 0 <= i < |cs| ==> Balanced(cs[i])
    ensures Placeholders(ClauseText(cs)) == |ClauseArgs(cs)|
  {
    if cs != [] {
      ClausesBalanced(cs[1..]);
      PlaceholdersConcat(cs[0].text, ClauseText(cs[1..]));
    }
  }

  lemma EqClauseBalanced(text: string, v: Option<string>)
    requires Placeholders(text) == 1
    ensures forall i :: 0 <= i < |EqClause(text, v)| ==> Balanced(EqClause(text, v)[i])
  {
  }

  /** An equality fragment holds one placeholder, whatever the column it names. */
  lemma {:induction false} EqFragmentPlaceholder(col: string)
    requires '?' !in col
    ensures Placeholders(EqFragment(col)) == 1
  {
    NoPlaceholders(" AND ");
    NoPlaceholders(col);
    NoPlaceholders(" = ");
    OnePlaceholder();
    PlaceholdersConcat(" AND ", col);
    PlaceholdersConcat(" AND " + col, " = ");
    PlaceholdersConcat(" AND " + col + " = ", "?");
  }

  /** The search fragment holds two placeholders, one per searched column. */
  lemma SearchPlaceholders()
    ensures Placeholders(SearchText) == 2
  {
    var a, b, c := " AND (nombre LIKE ", " OR descripcion LIKE ", ")";
    NoPlaceholders(a);
    NoPlaceholders(b);
    NoPlaceholders(c);
    OnePlaceholder();
    PlaceholdersConcat(a, "?");
    PlaceholdersConcat(a + "?", b);
    PlaceholdersConcat(a + "?" + b, "?");
    PlaceholdersConcat(a + "?" + b + "?", c);
  }

  lemma FilterClausesBalanced(f: Filters)
    ensures forall i :: 0 <= i < |FilterClauses(f)| ==> Balanced(FilterClauses(f)[i])
  {
    EqFragmentPlaceholder("categoria");
    EqFragmentPlaceholder("tipo");
    EqFragmentPlaceholder("color");
    SearchPlaceholders();
    EqClauseBalanced(EqFragment("categoria"), f.categoria);
    EqClauseBalanced(EqFragment("tipo"), f.tipo);
    EqClauseBalanced(EqFragment("color"), f.color);
  }

  /** The text one truthy `col` filter adds: ` AND col = ?`. */
  function EqText(col: string, v: Option<string>): string
  {
    if Present(v) then EqFragment(col) else ""
  }

  /** The parameter one truthy filter pushes: the filter value itself. */
  function EqArgs(v: Option<string>): seq<Value>
  {
    if Present(v) then [Str(v.value)] else []
  }

  /**
   * The predicate spelled out filter by filter: each truthy filter among
   * `categoria`, `tipo`, `color`, in that order, adds one ` AND col = ?` and
   * one parameter, its value; a truthy `q` adds the LIKE clause and the
   * pattern `%q%` twice; absent and empty filters add nothing.
   */
  lemma FilterPredicate(f: Filters)
    ensures ClauseText(FilterClauses(f)) ==
      EqText("categoria", f.categoria) + EqText("tipo", f.tipo) + EqText("color", f.color)
      + (if Present(f.q) then SearchText else "")
    ensures ClauseArgs(FilterClauses(f)) ==
      EqArgs(f.categoria) + EqArgs(f.tipo) + EqArgs(f.color)
      + (if Present(f.q) then [Str("%" + f.q.value + "%"), Str("%" + f.q.value + "%")] else [])
  {
    var a, b := EqClause(EqFragment("categoria"), f.categoria), EqClause(EqFragment("tipo"), f.tipo);
    var c, d := EqClause(EqFragment("color"), f.color), SearchClause(f.q);
    ClauseAppend(a, b);
    ClauseAppend(a + b, c);
    ClauseAppend(a + b + c, d);
    EqClauseParts("categoria", f.categoria);
    EqClauseParts("tipo", f.tipo);
    EqClauseParts("color", f.color);
    SearchClauseParts(f.q);
  }

  lemma EqClauseParts(col: string, v: Option<string>)
    ensures ClauseText(EqClause(EqFragment(col), v)) == EqText(col, v)
    ensures ClauseArgs(EqClause(EqFragment(col), v)) == EqArgs(v)
  {
    ClauseSingle(EqClause(EqFragment(col), v));
  }

  lemma SearchClauseParts(q: Option<string>)
    ensures ClauseText(SearchClause(q)) == if Present(q) then SearchText else ""
    ensures ClauseArgs(SearchClause(q)) ==
      if Present(q) then [Str("%" + q.value + "%"), Str("%" + q.value + "%")] else []
  {
    ClauseSingle(SearchClause(q));
  }

  // ---------------------------------------------------------------------
  // findAll and count statements

  const SelectAll := "SELECT * FROM productos" + " WHERE 1=1"
  const SelectCount := "SELECT COUNT(*) as total" + " FROM productos WHERE 1=1"
  const OrderBy := " ORDER BY created_at DESC"
  const LimitOffset := " LIMIT " + "?" + " OFFSET " + "?"

  /** `parseInt(pagination.limit) || 10`. */
  function PageLimit(p: Pagination): (n: int)
    ensures n != 0
    ensures ParseInt(p.limit).None? ==> n == 10
    ensures ParseInt(p.limit).Some? && ParseInt(p.limit).value != 0 ==> n == ParseInt(p.limit).value
  {
    match ParseInt(p.limit)
    case Some(n) => if n != 0 then n else 10
    case None => 10
  }

  /** `(parseInt(pagination.page) - 1 || 0) * limit`: 0 for page 1 and for a page that is not a number. */
  function PageOffset(p: Pagination): (n: int)
    ensures ParseInt(p.page).None? || ParseInt(p.page) == Some(1) ==> n == 0
    ensures ParseInt(p.page).Some? ==> n == (ParseInt(p.page).value - 1) * PageLimit(p)
  {
    match ParseInt(p.page)
    case Some(n) => (n - 1) * PageLimit(p)
    case None => 0
  }

  /**
   * Consecutive pages are adjacent windows: page `n + 1` starts where page `n`
   * ends, and a page from 1 on under a positive limit starts at a row that exists.
   */
  lemma PagesTile(p: Pagination, q: Pagination, n: int)
    requires ParseInt(q.limit) == ParseInt(p.limit)
    requires ParseInt(p.page) == Some(n) && ParseInt(q.page) == Some(n + 1)
    ensures PageOffset(q) == PageOffset(p) + PageLimit(p)
    ensures n >= 1 && PageLimit(p) > 0 ==> PageOffset(p) >= 0
  {
    var l := PageLimit(p);
    SameLimit(p, q);
    OffsetOf(p, n - 1, l);
    OffsetOf(q, n, l);
    NextMultiple(n, l);
  }

  lemma SameLimit(p: Pagination, q: Pagination)
    requires ParseInt(q.limit) == ParseInt(p.limit)
    ensures PageLimit(q) == PageLimit(p)
  {
  }

  lemma OffsetOf(p: Pagination, k: int, l: int)
    requires ParseInt(p.page) == Some(k + 1) && PageLimit(p) == l
    ensures PageOffset(p) == k * l
  {
    assert PageOffset(p) == ((k + 1) - 1) * PageLimit(p);
  }

  lemma NextMultiple(n: int, l: int)
    ensures n * l == (n - 1) * l + l
    ensures n >= 1 && l > 0 ==> (n - 1) * l >= 0
  {
  }

  /** The LIMIT/OFFSET parameters, pushed only when `pagination.limit` is truthy. */
  function PageArgs(p: Pagination): seq<Value>
  {
    if Truthy(p.limit) then [Int(PageLimit(p)), Int(PageOffset(p))] else []
  }

  /** The statement of `findAll`: the predicate, the ordering, then the page window. */
  function ListStatement(f: Filters, p: Pagination): Statement
  {
    var cs := FilterClauses(f);
    Statement(SelectAll + ClauseText(cs) + OrderBy + (if Truthy(p.limit) then LimitOffset else ""),
              ClauseArgs(cs) + PageArgs(p))
  }

  /** The statement of `count`: the same predicate, with neither ordering nor window. */
  function CountStatement(f: Filters): Statement
  {
    var cs := FilterClauses(f);
    Statement(SelectCount + ClauseText(cs), ClauseArgs(cs))
  }

  /** `findAll`'s statement, grown clause by clause. */
  method BuildFindAll(f: Filters, p: Pagination) returns (sql: string, params: seq<Value>)
    ensures Statement(sql, params) == ListStatement(f, p)
  {
    sql := SelectAll;
    params := [];
    if Present(f.categoria) {
      sql := sql + EqFragment("categoria");
      params := params + [Str(f.categoria.value)];
    }
    ghost var w := EqText("categoria", f.categoria);
    assert sql == SelectAll + w && params == EqArgs(f.categoria);
    if Present(f.tipo) {
      sql := sql + EqFragment("tipo");
      params := params + [Str(f.tipo.value)];
    }
    AppendAssoc(SelectAll, w, EqText("tipo", f.tipo));
    w := w + EqText("tipo", f.tipo);
    assert sql == SelectAll + w && params == EqArgs(f.categoria) + EqArgs(f.tipo);
    if Present(f.color) {
      sql := sql + EqFragment("color");
      params := params + [Str(f.color.value)];
    }
    AppendAssoc(SelectAll, w, EqText("color", f.color));
    w := w + EqText("color", f.color);
    assert sql == SelectAll + w && params == EqArgs(f.categoria) + EqArgs(f.tipo) + EqArgs(f.color);
    if Present(f.q) {
      sql := sql + SearchText;
      var searchTerm := "%" + f.q.value + "%";
      params := params + [Str(searchTerm), Str(searchTerm)];
    }
    AppendAssoc(SelectAll, w, if Present(f.q) then SearchText else "");
    w := w + if Present(f.q) then SearchText else "";
    FilterPredicate(f);
    assert sql == SelectAll + ClauseText(FilterClauses(f));
    assert params == ClauseArgs(FilterClauses(f));
    sql := sql + OrderBy;
    if Truthy(p.limit) {
      var limit := PageLimit(p);
      var offset := PageOffset(p);
      sql := sql + LimitOffset;
      params := params + [Int(limit), Int(offset)];
    } else {
      NothingAppended(sql, params);
    }
  }

  lemma NothingAppended(sql: string, params: seq<Value>)
    ensures sql + "" == sql && params + [] == params
  {
  }

  /** `count`'s statement, grown clause by clause. */
  method BuildCount(f: Filters) returns (sql: string, params: seq<Value>)
    ensures Statement(sql, params) == CountStatement(f)
  {
    sql := SelectCount;
    params := [];
    if Present(f.categoria) {
      sql := sql + EqFragment("categoria");
      params := params + [Str(f.categoria.value)];
    }
    ghost var w := EqText("categoria", f.categoria);
    assert sql == SelectCount + w && params == EqArgs(f.categoria);
    if Present(f.tipo) {
      sql := sql + EqFragment("tipo");
      params := params + [Str(f.tipo.value)];
    }
    AppendAssoc(SelectCount, w, EqText("tipo", f.tipo));
    w := w + EqText("tipo", f.tipo);
    assert sql == SelectCount + w && params == EqArgs(f.categoria) + EqArgs(f.tipo);
    if Present(f.color) {
      sql := sql + EqFragment("color");
      params := params + [Str(f.color.value)];
    }
    AppendAssoc(SelectCount, w, EqText("color", f.color));
    w := w + EqText("color", f.color);
    assert sql == SelectCount + w && params == EqArgs(f.categoria) + EqArgs(f.tipo) + EqArgs(f.color);
    if Present(f.q) {
      sql := sql + SearchText;
      var searchTerm := "%" + f.q.value + "%";
      params := params + [Str(searchTerm), Str(searchTerm)];
    }
    AppendAssoc(SelectCount, w, if Present(f.q) then SearchText else "");
    w := w + if Present(f.q) then SearchText else "";
    FilterPredicate(f);
    assert sql == SelectCount + ClauseText(FilterClauses(f));
    assert params == ClauseArgs(FilterClauses(f));
  }

  lemma SelectPlaceholders()
    ensures Placeholders(SelectAll) == 0 && Placeholders(OrderBy) == 0
  {
    NoPlaceholders("SELECT * FROM productos");
    NoPlaceholders(" WHERE 1=1");
    PlaceholdersConcat("SELECT * FROM productos", " WHERE 1=1");
    NoPlaceholders(OrderBy);
  }

  lemma CountHeadPlaceholders()
    ensures Placeholders(SelectCount) == 0
  {
    NoPlaceholders("SELECT COUNT(*) as total");
    NoPlaceholders(" FROM productos WHERE 1=1");
    PlaceholdersConcat("SELECT COUNT(*) as total", " FROM productos WHERE 1=1");
  }

  lemma WindowPlaceholders()
    ensures Placeholders(LimitOffset) == 2
  {
    NoPlaceholders(" LIMIT ");
    NoPlaceholders(" OFFSET ");
    OnePlaceholder();
    PlaceholdersConcat(" LIMIT ", "?");
    PlaceholdersConcat(" LIMIT " + "?", " OFFSET ");
    PlaceholdersConcat(" LIMIT " + "?" + " OFFSET ", "?");
  }

  /** `findAll` binds every placeholder it writes: as many `?` as parameters. */
  lemma ListPlaceholders(f: Filters, p: Pagination)
    ensures Placeholders(ListStatement(f, p).sql) == |ListStatement(f, p).params|
  {
    var cs := FilterClauses(f);
    FilterClausesBalanced(f);
    ClausesBalanced(cs);
    SelectPlaceholders();
    WindowPlaceholders();
    var tail := if Truthy(p.limit) then LimitOffset else "";
    PlaceholdersConcat(SelectAll, ClauseText(cs));
    PlaceholdersConcat(SelectAll + ClauseText(cs), OrderBy);
    PlaceholdersConcat(SelectAll + ClauseText(cs) + OrderBy, tail);
  }

  /** `count` binds every placeholder it writes. */
  lemma CountPlaceholders(f: Filters)
    ensures Placeholders(CountStatement(f).sql) == |CountStatement(f).params|
  {
    FilterClausesBalanced(f);
    ClausesBalanced(FilterClauses(f));
    CountHeadPlaceholders();
    PlaceholdersConcat(SelectCount, ClauseText(FilterClauses(f)));
  }

  /**
   * `count` and `findAll` filter the same rows: after their different heads
   * both texts go on with the same predicate, and `count`'s parameters are
   * `findAll`'s without the page window.
   */
  lemma CountMatchesList(f: Filters, p: Pagination)
    ensures var c, l := CountStatement(f), ListStatement(f, p);
      |SelectCount| <= |c.sql| && |SelectAll| + |c.sql| - |SelectCount| <= |l.sql| &&
      c.sql[|SelectCount|..] == l.sql[|SelectAll|..|SelectAll| + |c.sql| - |SelectCount|] &&
      l.sql[|SelectAll| + |c.sql| - |SelectCount|..] == OrderBy + (if Truthy(p.limit) then LimitOffset else "")
    ensures ListStatement(f, p).params == CountStatement(f).params + PageArgs(p)
  {
    var w := ClauseText(FilterClauses(f));
    var tail := if Truthy(p.limit) then LimitOffset else "";
    SliceParts(SelectCount, w, "");
    assert SelectCount + w + "" == SelectCount + w;
    AppendAssoc(SelectAll + w, OrderBy, tail);
    SliceParts(SelectAll, w, OrderBy + tail);
  }

  lemma SliceParts(a: string, b: string, c: string)
    ensures (a + b + c)[|a|..|a| + |b|] == b && (a + b + c)[|a| + |b|..] == c
  {
  }

  // ---------------------------------------------------------------------
  // Row normalisation

  const ParseError := "SyntaxError: Unexpected token in JSON"

  /**
   * The `fotos` cell as callers see it: stored text is JSON-decoded (the
   * empty text read as `'[]'`), any other value kept when truthy and
   * replaced by `[]` when null or undefined.
   */
  function NormalizeFotos(v: Value): (r: Result<Value, string>)
    ensures v.Str? ==> (r.Ok? <==> Decode(if v.s == "" then "[]" else v.s).Some?)
    ensures v.Str? && r.Ok? ==> r.value.List? && Encode(r.value.items) == (if v.s == "" then "[]" else v.s)
    ensures !v.Str? && Truthy(v) ==> r == Ok(v)
    ensures !v.Str? && !Truthy(v) ==> r == Ok(List([]))
  {
    match v
    case Str(s) =>
      (match Decode(if s == "" then "[]" else s)
       case Some(xs) => Ok(List(xs))
       case None => Err(ParseError))
    case _ => Ok(if Truthy(v) then v else List([]))
  }

  /** `{...producto, fotos: ...}`. */
  function Normalize(row: Object): (r: Result<Object, string>)
    ensures r.Ok? <==> NormalizeFotos(Get(row, "fotos")).Ok?
    ensures r.Ok? ==> r.value == With(row, "fotos", NormalizeFotos(Get(row, "fotos")).value)
  {
    match NormalizeFotos(Get(row, "fotos"))
    case Ok(fotos) => Ok(With(row, "fotos", fotos))
    case Err(e) => Err(e)
  }

  /**
   * Normalising fails only on the photos. A normalised row keeps every other
   * column, its value and its place, and its photos are the decoded list.
   */
  lemma NormalizeKeepsColumns(row: Object, k: string)
    ensures Normalize(row).Ok? <==> NormalizeFotos(Get(row, "fotos")).Ok?
    ensures Normalize(row).Ok? ==>
      Keys(Normalize(row).value) == if "fotos" in Keys(row) then Keys(row) else Keys(row) + ["fotos"]
    ensures Normalize(row).Ok? && k != "fotos" ==> Get(Normalize(row).value, k) == Get(row, k)
    ensures Normalize(row).Ok? ==> Get(Normalize(row).value, "fotos") == NormalizeFotos(Get(row, "fotos")).value
  {
    if Normalize(row).Ok? {
      var v := NormalizeFotos(Get(row, "fotos")).value;
      KeysWith(row, "fotos", v);
      GetWith(row, "fotos", v, k);
      GetWith(row, "fotos", v, "fotos");
    }
  }

  /** What was stored as `JSON.stringify(list)` is read back as the same list. */
  lemma StoredPhotosRoundTrip(xs: seq<string>)
    ensures NormalizeFotos(Str(Encode(xs))) == Ok(List(xs))
  {
    DecodeEncode(xs);
    if xs == [] {
      assert Encode(xs) == "[]";
    } else {
      assert Encode(xs)[0] == '[';
    }
  }

  /** `productos.map(...)`: the first row that fails to decode makes the whole read fail. */
  function NormalizeAll(rows: seq<Object>): (r: Result<seq<Object>, string>)
    ensures r.Ok? <==> forall i :: 0 <= i < |rows| ==> Normalize(rows[i]).Ok?
    ensures r.Ok? ==> |r.value| == |rows| && forall i :: 0 <= i < |rows| ==> r.value[i] == Normalize(rows[i]).value
  {
    if rows == [] then Ok([])
    else
      match Normalize(rows[0])
      case Err(e) => Err(e)
      case Ok(first) =>
        match NormalizeAll(rows[1..])
        case Err(e) => Err(e)
        case Ok(rest) => Ok([first] + rest)
  }

  // ---------------------------------------------------------------------
  // Reads

  /** What reading a property of something that is not a row array throws. */
  const NotAnArrayError := "TypeError: productos is not an array"

  /** `findAll`'s result: every row normalised. */
  function ListRows(res: Result<QueryResult, string>): (r: Result<seq<Object>, string>)
    ensures res.Err? ==> r == Err(res.error)
    ensures res.Ok? && res.value.Rows? ==> r == NormalizeAll(res.value.rows)
    ensures res.Ok? && res.value.Run? ==> r.Err?
  {
    match res
    case Err(e) => Err(e)
    case Ok(Rows(rows)) => NormalizeAll(rows)
    case Ok(Run(_, _, _)) => Err(NotAnArrayError)
  }

  /**
   * `findAll`: the listing is the rows the chosen engine reads for the listing
   * statement, each normalised, in the engine's order; an engine error is rethrown.
   */
  function FindAll(db: Database, drv: Driver, f: Filters, p: Pagination): (r: Result<seq<Object>, string>)
    reads db
    ensures db.db == NoHandle ==> r == Err(NullHandleError)
    ensures db.db != NoHandle ==>
      var read := EngineRows(db.isPostgres, ListStatement(f, p).sql, ListStatement(f, p).params, drv);
      (read.Err? ==> r == Err(read.error)) &&
      (read.Ok? ==> (r.Ok? <==> forall i :: 0 <= i < |read.value| ==> Normalize(read.value[i]).Ok?)) &&
      (r.Ok? ==> read.Ok? && |r.value| == |read.value| &&
                 forall i :: 0 <= i < |r.value| ==> r.value[i] == Normalize(read.value[i]).value)
  {
    var st := ListStatement(f, p);
    ReadsAreSelects(f, p);
    if db.db != NoHandle then ReadDispatch(db.isPostgres, st.sql, st.params, drv); ListRows(db.Query(st.sql, st.params, drv))
    else ListRows(db.Query(st.sql, st.params, drv))
  }

  /** The three reads, the listing, the count and the lookup by id, are SELECT statements. */
  lemma ReadsAreSelects(f: Filters, p: Pagination)
    ensures IsSelect(ListStatement(f, p).sql) && IsSelect(CountStatement(f).sql) && IsSelect(FindByIdSql)
  {
    ListIsSelect(ClauseText(FilterClauses(f)), if Truthy(p.limit) then LimitOffset else "");
    CountIsSelect(ClauseText(FilterClauses(f)));
    SelectLed("SELECT * FROM productos", WhereId);
  }

  lemma ListIsSelect(clauses: string, window: string)
    ensures IsSelect(SelectAll + clauses + OrderBy + window)
  {
    StartsWithAppend("SELECT * FROM productos", " WHERE 1=1", "SELECT");
    StartsWithAppend(SelectAll, clauses, "SELECT");
    StartsWithAppend(SelectAll + clauses, OrderBy, "SELECT");
    SelectLed(SelectAll + clauses + OrderBy, window);
  }

  lemma CountIsSelect(clauses: string)
    ensures IsSelect(SelectCount + clauses)
  {
    StartsWithAppend("SELECT COUNT(*) as total", " FROM productos WHERE 1=1", "SELECT");
    SelectLed(SelectCount, clauses);
  }

  /** What reading `total` of a missing first row throws: `result[0]` is `undefined`. */
  const NoFirstRowError := "TypeError: Cannot read properties of undefined (reading 'total')"

  /** `count`'s result: `result[0].total`, which throws when there is no first row. */
  function CountTotal(res: Result<QueryResult, string>): (r: Result<Value, string>)
    ensures res.Ok? && res.value.Rows? && res.value.rows != [] ==> r == Ok(Get(res.value.rows[0], "total"))
    ensures res.Err? ==> r == Err(res.error)
    ensures r.Ok? ==> res.Ok? && res.value.Rows? && res.value.rows != []
  {
    match res
    case Err(e) => Err(e)
    case Ok(Rows(rows)) => if rows == [] then Err(NoFirstRowError) else Ok(Get(rows[0], "total"))
    case Ok(Run(_, _, _)) => Err(NoFirstRowError)
  }

  /**
   * `count`: the `total` of the first row the chosen engine reads for the
   * counting statement; no row at all, or an engine error, is an error.
   */
  function Count(db: Database, drv: Driver, f: Filters): (r: Result<Value, string>)
    reads db
    ensures db.db == NoHandle ==> r == Err(NullHandleError)
    ensures db.db != NoHandle ==>
      var read := EngineRows(db.isPostgres, CountStatement(f).sql, CountStatement(f).params, drv);
      (read.Err? ==> r == Err(read.error)) &&
      (read.Ok? ==> (r.Ok? <==> read.value != [])) &&
      (r.Ok? ==> read.Ok? && read.value != [] && r.value == Get(read.value[0], "total"))
  {
    var st := CountStatement(f);
    ReadsAreSelects(f, Pagination(Undefined, Undefined));
    if db.db != NoHandle then ReadDispatch(db.isPostgres, st.sql, st.params, drv); CountTotal(db.Query(st.sql, st.params, drv))
    else CountTotal(db.Query(st.sql, st.params, drv))
  }

  const FindByIdSql := "SELECT * FROM productos" + WhereId

  /** ` WHERE id = ?`, the row selector shared by `findById`, `update` and `delete`. */
  const WhereId := " WHERE id = " + "?"

  /** `findById`'s result: null for no row, otherwise the first row normalised. */
  function FindByIdResult(res: Result<QueryResult, string>): (r: Result<Option<Object>, string>)
    ensures res.Err? ==> r == Err(res.error)
    ensures res == Ok(Rows([])) ==> r == Ok(None)
    ensures res.Ok? && res.value.Rows? && res.value.rows != [] ==>
              (r.Ok? <==> Normalize(res.value.rows[0]).Ok?) &&
              (r.Ok? ==> r.value == Some(Normalize(res.value.rows[0]).value))
  {
    match res
    case Err(e) => Err(e)
    case Ok(Rows(rows)) =>
      if |rows| == 0 then Ok(None)
      else
        (match Normalize(rows[0])
         case Ok(p) => Ok(Some(p))
         case Err(e) => Err(e))
    case Ok(Run(_, _, _)) => Err(NotAnArrayError)
  }

  /**
   * `findById`: `null` exactly when the chosen engine reads no row for the id,
   * otherwise the first row read, normalised; an engine error is rethrown.
   */
  function FindById(db: Database, drv: Driver, id: Value): (r: Result<Option<Object>, string>)
    reads db
    ensures db.db == NoHandle ==> r == Err(NullHandleError)
    ensures db.db != NoHandle ==>
      var read := EngineRows(db.isPostgres, FindByIdSql, [id], drv);
      (read.Err? ==> r == Err(read.error)) &&
      (r == Ok(None) <==> read == Ok([])) &&
      (read.Ok? && read.value != [] ==>
         (r.Ok? <==> Normalize(read.value[0]).Ok?) && (r.Ok? ==> r.value == Some(Normalize(read.value[0]).value)))
  {
    ReadsAreSelects(Filters(None, None, None, None), Pagination(Undefined, Undefined));
    if db.db != NoHandle then ReadDispatch(db.isPostgres, FindByIdSql, [id], drv); FindByIdResult(db.Query(FindByIdSql, [id], drv))
    else FindByIdResult(db.Query(FindByIdSql, [id], drv))
  }

  // ---------------------------------------------------------------------
  // Writes

  /** `JSON.stringify(fotos || [])`. */
  function FotosJson(v: Value): (s: string)
    ensures v.List? ==> Decode(s) == Some(v.items)
    ensures !Truthy(v) ==> s == "[]"
  {
    match v
    case List(xs) => DecodeEncode(xs); Encode(xs)
    case Str(s) => if s == "" then "[]" else Quote(s)
    case Bool(b) => if b then "true" else "[]"
    case Num(x) => if x == 0.0 then "[]" else NumberText(x)
    case _ => "[]"
  }

  /** `create`'s statement text, written over several lines as in the repository. */
  const InsertSql := "\n" + Indent(8) + InsertBody

  const InsertBody := InsertInto + InsertValues

  const InsertInto := "INSERT INTO productos (\n" + InsertNames + InsertPrices

  const InsertNames := "          nombre, categoria, tipo," + " cantidad, modelo, color,\n"

  const InsertPrices := "          precio_unidad, precio_bulto," + " descripcion, fotos\n"

  const InsertValues := "        ) VALUES (" + MarkList(10) + ")\n      "

  /** `?, ?, …, ?`: `n` placeholders separated by commas. */
  function MarkList(n: nat): string
  {
    if n == 0 then "" else if n == 1 then "?" else MarkList(n - 1) + ", " + "?"
  }

  lemma {:induction false} MarkListPlaceholders(n: nat)
    ensures Placeholders(MarkList(n)) == n
  {
    OnePlaceholder();
    if n > 1 {
      MarkListPlaceholders(n - 1);
      NoPlaceholders(", ");
      PlaceholdersConcat(MarkList(n - 1), ", ");
      PlaceholdersConcat(MarkList(n - 1) + ", ", "?");
    }
  }

  /** The ten columns in the order `create` pushes them. */
  const InsertColumns := ["nombre", "categoria", "tipo", "cantidad", "modelo", "color", "precio_unidad", "precio_bulto", "descripcion", "fotos"]

  /** `create`'s parameters: each column's value, the photos as their JSON text. */
  function InsertParams(data: Object): (ps: seq<Value>)
    ensures |ps| == |InsertColumns|
    ensures forall i :: 0 <= i < 9 ==> ps[i] == Get(data, InsertColumns[i])
    ensures ps[9] == Str(FotosJson(Get(data, "fotos")))
  {
    var ps := seq(9, i requires 0 <= i < 9 => Get(data, InsertColumns[i])) + [Str(FotosJson(Get(data, "fotos")))];
    ps
  }

  /**
   * `create` binds one value per placeholder of its statement: the first nine
   * columns as given, and photos stored so that reading them back gives the
   * list that was sent, or the empty list when none was.
   */
  lemma InsertStoresColumns(data: Object)
    ensures |InsertParams(data)| == Placeholders(InsertSql)
    ensures forall i :: 0 <= i < 9 ==> InsertParams(data)[i] == Get(data, InsertColumns[i])
    ensures Get(data, "fotos").List? ==> NormalizeFotos(InsertParams(data)[9]) == Ok(Get(data, "fotos"))
    ensures !Truthy(Get(data, "fotos")) ==> NormalizeFotos(InsertParams(data)[9]) == Ok(List([]))
  {
    InsertPlaceholders();
    var fotos := Get(data, "fotos");
    if fotos.List? {
      StoredPhotosRoundTrip(fotos.items);
    } else if !Truthy(fotos) {
      StoredPhotosRoundTrip([]);
    }
  }

  /** `result.insertId || result.rows?.[0]?.id`. */
  function NewId(res: QueryResult): Value
  {
    match res
    case Rows(_) => Undefined
    case Run(insertId, _, rows) =>
      if insertId != 0 then Int(insertId)
      else if rows != [] then Get(rows[0], "id")
      else Undefined
  }

  const NoIdError := "No se pudo obtener el ID del producto creado"

  /** `create`: insert, then re-read the new row by its id; no id is an error. */
  function Create(db: Database, drv: Driver, data: Object): (r: Result<Option<Object>, string>)
    reads db
    ensures db.Query(InsertSql, InsertParams(data), drv).Err? ==> r == Err(db.Query(InsertSql, InsertParams(data), drv).error)
    ensures db.Query(InsertSql, InsertParams(data), drv).Ok? ==>
              var id := NewId(db.Query(InsertSql, InsertParams(data), drv).value);
              r == if Truthy(id) then FindById(db, drv, id) else Err(NoIdError)
  {
    match db.Query(InsertSql, InsertParams(data), drv)
    case Err(e) => Err(e)
    case Ok(res) =>
      var id := NewId(res);
      if Truthy(id) then FindById(db, drv, id) else Err(NoIdError)
  }

  /** The INSERT statement, indented as it is, is sent to SQLite's `run`. */
  lemma InsertIsWrite()
    ensures !IsSelect(InsertSql)
  {
    InsertBodyIsWrite();
    NewlineIndent();
    LeadingSpaceIgnored("\n" + Indent(8), InsertBody);
  }

  lemma NewlineIndent()
    ensures forall i :: 0 <= i < |"\n" + Indent(8)| ==> IsSpace(("\n" + Indent(8))[i])
  {
    IndentSpaces(8);
  }

  /** The statement proper opens with `INSERT`, so it is not a read. */
  lemma InsertBodyIsWrite()
    ensures !IsSelect(InsertBody)
  {
    InsertBodyFirst();
    OtherIsNotSelect(InsertBody);
  }

  lemma InsertBodyFirst()
    ensures InsertBody != [] && InsertBody[0] == 'I'
  {
    var into := "INSERT INTO productos (\n";
    FirstOfAppend(into, InsertNames);
    FirstOfAppend(into + InsertNames, InsertPrices);
    FirstOfAppend(InsertInto, InsertValues);
  }

  lemma FirstOfAppend(a: string, b: string)
    requires a != []
    ensures (a + b)[0] == a[0]
  {
  }

  /**
   * On SQLite `create` rethrows the driver's error, fails when the driver
   * reports no `lastID`, and otherwise re-reads the new row under that id.
   */
  lemma CreateRereadsLastId(db: Database, drv: Driver, data: Object)
    requires db.db != NoHandle && !db.isPostgres
    ensures var w := drv.run(InsertSql, InsertParams(data));
      (w.Err? ==> Create(db, drv, data) == Err(w.error)) &&
      (w.Ok? && w.value.lastID == 0 ==> Create(db, drv, data) == Err(NoIdError)) &&
      (w.Ok? && w.value.lastID != 0 ==> Create(db, drv, data) == FindById(db, drv, Int(w.value.lastID)))
  {
    var ps := InsertParams(data);
    InsertIsWrite();
    var q := db.Query(InsertSql, ps, drv);
    if q.Ok? {
      var st := drv.run(InsertSql, ps).value;
      assert q == Ok(Run(st.lastID, st.changes, []));
      if st.lastID != 0 {
        assert NewId(q.value) == Int(st.lastID);
        assert Truthy(Int(st.lastID));
      } else {
        assert NewId(q.value) == Undefined;
      }
    }
  }

  /** On PostgreSQL `create` always fails: the bare row array carries no id. */
  lemma PostgresCreateFails(db: Database, drv: Driver, data: Object)
    requires db.isPostgres
    ensures Create(db, drv, data).Err?
  {
  }

  const DeleteSql := "DELETE FROM productos" + WhereId

  /** `result.changes > 0 || result.rowCount > 0`; neither property exists on a row array. */
  function Deleted(res: QueryResult): (b: bool)
    // a bare row array, all that PostgreSQL returns, never reports a deletion
    ensures b ==> res.Run?
  {
    match res
    case Run(_, changes, _) => changes > 0
    case Rows(_) => false
  }

  function Delete(db: Database, drv: Driver, id: Value): (r: Result<bool, string>)
    reads db
    ensures db.Query(DeleteSql, [id], drv).Err? ==> r == Err(db.Query(DeleteSql, [id], drv).error)
    ensures db.Query(DeleteSql, [id], drv).Ok? ==> r == Ok(Deleted(db.Query(DeleteSql, [id], drv).value))
  {
    match db.Query(DeleteSql, [id], drv)
    case Err(e) => Err(e)
    case Ok(res) => Ok(Deleted(res))
  }

  /**
   * On PostgreSQL `delete` never reports success, even when a row was removed:
   * it fails with the engine's error or answers `false`.
   */
  lemma PostgresDeleteReportsFalse(db: Database, drv: Driver, id: Value)
    requires db.isPostgres
    ensures Delete(db, drv, id) != Ok(true)
    ensures db.db != NoHandle ==>
      Delete(db, drv, id) == if drv.pg(DeleteSql, [id]).Err? then Err(drv.pg(DeleteSql, [id]).error) else Ok(false)
  {
  }

  /**
   * On SQLite `delete` rethrows the driver's error, and otherwise reports success
   * exactly when the driver counted a changed row.
   */
  lemma SqliteDeleteReportsChanges(db: Database, drv: Driver, id: Value)
    requires db.db != NoHandle && !db.isPostgres
    ensures drv.run(DeleteSql, [id]).Err? ==> Delete(db, drv, id) == Err(drv.run(DeleteSql, [id]).error)
    ensures drv.run(DeleteSql, [id]).Ok? ==> Delete(db, drv, id) == Ok(drv.run(DeleteSql, [id]).value.changes > 0)
  {
    OtherIsNotSelect(DeleteSql);
  }

  lemma InsertPlaceholders()
    ensures Placeholders(InsertSql) == 10
  {
    InsertIntoPlaceholders();
    InsertValuesPlaceholders();
    PlaceholdersConcat(InsertInto, InsertValues);
    IndentSpaces(8);
    NoPlaceholders("\n");
    PlaceholdersConcat("\n", Indent(8));
    PlaceholdersConcat("\n" + Indent(8), InsertBody);
  }

  lemma InsertIntoPlaceholders()
    ensures Placeholders(InsertInto) == 0
  {
    NoPlaceholders("INSERT INTO productos (\n");
    InsertNamesPlaceholders();
    InsertPricesPlaceholders();
    PlaceholdersConcat("INSERT INTO productos (\n", InsertNames);
    PlaceholdersConcat("INSERT INTO productos (\n" + InsertNames, InsertPrices);
  }

  lemma InsertNamesPlaceholders()
    ensures Placeholders(InsertNames) == 0
  {
    NoPlaceholders("          nombre, categoria, tipo,");
    NoPlaceholders(" cantidad, modelo, color,\n");
    PlaceholdersConcat("          nombre, categoria, tipo,", " cantidad, modelo, color,\n");
  }

  lemma InsertPricesPlaceholders()
    ensures Placeholders(InsertPrices) == 0
  {
    NoPlaceholders("          precio_unidad, precio_bulto,");
    NoPlaceholders(" descripcion, fotos\n");
    PlaceholdersConcat("          precio_unidad, precio_bulto,", " descripcion, fotos\n");
  }

  lemma InsertValuesPlaceholders()
    ensures Placeholders(InsertValues) == 10
  {
    MarkListPlaceholders(10);
    NoPlaceholders("        ) VALUES (");
    NoPlaceholders(")\n      ");
    PlaceholdersConcat("        ) VALUES (", MarkList(10));
    PlaceholdersConcat("        ) VALUES (" + MarkList(10), ")\n      ");
  }

  /** The fixed statements bind every placeholder they write. */
  lemma FindPlaceholder()
    ensures Placeholders(FindByIdSql) == 1
  {
    NoPlaceholders("SELECT * FROM productos");
    UpdateLiteralPlaceholders();
    PlaceholdersConcat("SELECT * FROM productos", WhereId);
  }

  lemma DeletePlaceholder()
    ensures Placeholders(DeleteSql) == 1
  {
    NoPlaceholders("DELETE FROM productos");
    UpdateLiteralPlaceholders();
    PlaceholdersConcat("DELETE FROM productos", WhereId);
  }

  lemma FixedStatementsPlaceholders(id: Value, data: Object)
    ensures Placeholders(FindByIdSql) == |[id]|
    ensures Placeholders(DeleteSql) == |[id]|
    ensures Placeholders(InsertSql) == |InsertParams(data)|
  {
    FindPlaceholder();
    DeletePlaceholder();
    InsertPlaceholders();
  }

  /** The placeholders are written as `?` on both backends: none is rewritten to PostgreSQL's `$n`. */
  lemma PlaceholdersNotTranslated(db: Database, drv: Driver, id: Value)
    requires db.db != NoHandle && db.isPostgres
    ensures FindById(db, drv, id) == FindByIdResult(match drv.pg(FindByIdSql, [id])
                                                    case Ok(res) => Ok(Rows(res.rows))
                                                    case Err(e) => Err(e))
  {
  }

  // ---------------------------------------------------------------------
  // update

  /** The `SET` entry of one key: the column and the parameter pushed for it. */
  function Assignment(data: Object, key: string): seq<(string, Value)>
  {
    var v := Get(data, key);
    if v == Undefined then []
    else if key == "fotos" then [(key, Str(FotosJson(v)))]
    else [(key, v)]
  }

  /** The `SET` entries of the given keys, in key order, for the keys whose value is defined. */
  function Assignments(data: Object, keys: seq<string>): seq<(string, Value)>
  {
    if keys == [] then [] else Assignments(data, keys[..|keys| - 1]) + Assignment(data, keys[|keys| - 1])
  }

  /** `${key} = ?`, the assignment text of one column. */
  function ColumnBinding(key: string): string
  {
    key + " = " + "?"
  }

  /** The assignment texts of the entries, in order. */
  function Columns(entries: Object): (cs: seq<string>)
    ensures |cs| == |entries| && forall i :: 0 <= i < |entries| ==> cs[i] == ColumnBinding(entries[i].0)
  {
    seq(|entries|, i requires 0 <= i < |entries| => ColumnBinding(entries[i].0))
  }

  /** The parameters of the entries, in order. */
  function SetArgs(entries: Object): (ps: seq<Value>)
    ensures |ps| == |entries| && forall i :: 0 <= i < |entries| ==> ps[i] == entries[i].1
  {
    seq(|entries|, i requires 0 <= i < |entries| => entries[i].1)
  }

  lemma EntriesAppend(a: Object, b: Object)
    ensures Columns(a + b) == Columns(a) + Columns(b)
    ensures SetArgs(a + b) == SetArgs(a) + SetArgs(b)
  {
  }

  const NothingToUpdate := "No hay campos para actualizar"
  const TouchUpdatedAt := "updated_at = CURRENT_TIMESTAMP"
  const UpdateHead := "UPDATE productos SET "

  /** `update`'s statement: the defined keys, then the timestamp, the row id last. */
  function UpdateStatement(id: Value, data: Object): Result<Statement, string>
  {
    var entries := Assignments(data, Keys(data));
    if entries == [] then Err(NothingToUpdate)
    else Ok(Statement(UpdateHead + Join(", ", Columns(entries) + [TouchUpdatedAt]) + WhereId,
                      SetArgs(entries) + [id]))
  }

  /** One more key walked: its assignment, if any, goes last. */
  lemma AssignmentStep(data: Object, keys: seq<string>, i: nat)
    requires i < |keys|
    ensures var before, after, a := Assignments(data, keys[..i]), Assignments(data, keys[..i + 1]), Assignment(data, keys[i]);
      Columns(after) == Columns(before) + Columns(a) && SetArgs(after) == SetArgs(before) + SetArgs(a)
  {
    assert keys[..i + 1][..i] == keys[..i];
    EntriesAppend(Assignments(data, keys[..i]), Assignment(data, keys[i]));
  }

  lemma SingleEntry(k: string, x: Value)
    ensures Columns([(k, x)]) == [ColumnBinding(k)] && SetArgs([(k, x)]) == [x]
  {
  }

  /** `update`'s statement, grown key by key over `Object.keys(productoData)`. */
  method BuildUpdate(id: Value, data: Object) returns (r: Result<Statement, string>)
    ensures r == UpdateStatement(id, data)
  {
    var campos: seq<string> := [];
    var params: seq<Value> := [];
    var keys := Keys(data);
    var i := 0;
    while i < |keys|
      invariant 0 <= i <= |keys|
      invariant campos == Columns(Assignments(data, keys[..i]))
      invariant params == SetArgs(Assignments(data, keys[..i]))
    {
      var key := keys[i];
      AssignmentStep(data, keys, i);
      var v := Get(data, key);
      if v != Undefined {
        if key == "fotos" {
          SingleEntry(key, Str(FotosJson(v)));
          campos := campos + [ColumnBinding(key)];
          params := params + [Str(FotosJson(v))];
        } else {
          SingleEntry(key, v);
          campos := campos + [ColumnBinding(key)];
          params := params + [v];
        }
      } else {
        assert Assignment(data, key) == [];
      }
      i := i + 1;
    }
    assert keys[..i] == keys;
    if |campos| == 0 {
      return Err(NothingToUpdate);
    }
    campos := campos + [TouchUpdatedAt];
    params := params + [id];
    r := Ok(Statement(UpdateHead + Join(", ", campos) + WhereId, params));
  }

  /** An assignment is written for a key exactly when it is among the keys walked and its value is defined. */
  lemma {:induction false} AssignmentsKeys(data: Object, keys: seq<string>, k: string)
    ensures k in Keys(Assignments(data, keys)) <==> k in keys && Get(data, k) != Undefined
  {
    if keys != [] {
      var init, last := keys[..|keys| - 1], keys[|keys| - 1];
      AssignmentsKeys(data, init, k);
      assert keys == init + [last];
      AssignmentsKeysSnoc(data, init, last, k);
    }
  }

  lemma AssignmentsKeysSnoc(data: Object, init: seq<string>, last: string, k: string)
    requires k in Keys(Assignments(data, init)) <==> k in init && Get(data, k) != Undefined
    ensures k in Keys(Assignments(data, init + [last])) <==> k in init + [last] && Get(data, k) != Undefined
  {
    var keys := init + [last];
    assert keys[..|keys| - 1] == init;
    KeysAppend(Assignments(data, init), Assignment(data, last));
    AssignmentKeys(data, last);
    assert k in keys <==> k in init || k == last;
  }

  lemma AssignmentKeys(data: Object, key: string)
    ensures Keys(Assignment(data, key)) == if Get(data, key) == Undefined then [] else [key]
  {
  }

  lemma ColumnBindingInjective(a: string, b: string)
    requires ColumnBinding(a) == ColumnBinding(b)
    ensures a == b
  {
    assert |a| == |b|;
    assert a == ColumnBinding(a)[..|a|];
    assert b == ColumnBinding(b)[..|b|];
  }

  /** A column is assigned iff it is a key of the payload whose value is not `undefined`. */
  lemma UpdateSetsDefinedKeys(id: Value, data: Object, k: string)
    requires UpdateStatement(id, data).Ok?
    ensures ColumnBinding(k) in Columns(Assignments(data, Keys(data))) <==> k in Keys(data) && Get(data, k) != Undefined
  {
    var entries := Assignments(data, Keys(data));
    AssignmentsKeys(data, Keys(data), k);
    if ColumnBinding(k) in Columns(entries) {
      var i :| 0 <= i < |entries| && Columns(entries)[i] == ColumnBinding(k);
      ColumnBindingInjective(entries[i].0, k);
      assert Keys(entries)[i] == k;
    }
    if k in Keys(data) && Get(data, k) != Undefined {
      var i :| 0 <= i < |entries| && Keys(entries)[i] == k;
      assert Columns(entries)[i] == ColumnBinding(k);
    }
  }

  /** `update` fails exactly when no key of the payload has a defined value. */
  lemma UpdateNothingDefined(id: Value, data: Object)
    ensures UpdateStatement(id, data).Err? <==> forall k :: k in Keys(data) ==> Get(data, k) == Undefined
  {
    var entries := Assignments(data, Keys(data));
    if entries != [] {
      AssignmentsKeys(data, Keys(data), entries[0].0);
      assert Keys(entries)[0] == entries[0].0;
    } else {
      forall k | k in Keys(data) ensures Get(data, k) == Undefined {
        AssignmentsKeys(data, Keys(data), k);
      }
    }
  }

  lemma {:induction false} AssignmentsShape(data: Object, keys: seq<string>)
    ensures forall i :: 0 <= i < |Assignments(data, keys)| ==>
              var e := Assignments(data, keys)[i];
              Get(data, e.0) != Undefined && e.1 == (if e.0 == "fotos" then Str(FotosJson(Get(data, e.0))) else Get(data, e.0))
  {
    if keys != [] {
      AssignmentsShape(data, keys[..|keys| - 1]);
    }
  }

  /**
   * Each assigned column is bound to its payload value, `fotos` to its JSON text;
   * the timestamp is always the last assignment and the row id the last parameter.
   */
  lemma UpdateBindings(id: Value, data: Object)
    requires UpdateStatement(id, data).Ok?
    ensures var st, entries := UpdateStatement(id, data).value, Assignments(data, Keys(data));
      st.sql == UpdateHead + Join(", ", Columns(entries)) + ", " + TouchUpdatedAt + WhereId
    ensures var st, entries := UpdateStatement(id, data).value, Assignments(data, Keys(data));
      |st.params| == |entries| + 1 && st.params[|entries|] == id &&
      (forall i :: 0 <= i < |entries| ==>
        st.params[i] == (if entries[i].0 == "fotos" then Str(FotosJson(Get(data, entries[i].0))) else Get(data, entries[i].0)))
  {
    AssignmentsShape(data, Keys(data));
    UpdateTouchesLast(id, data);
  }

  lemma UpdateTouchesLast(id: Value, data: Object)
    requires UpdateStatement(id, data).Ok?
    ensures var entries := Assignments(data, Keys(data));
      UpdateStatement(id, data).value.sql == UpdateHead + Join(", ", Columns(entries)) + ", " + TouchUpdatedAt + WhereId
  {
    TouchAppended(Columns(Assignments(data, Keys(data))));
  }

  lemma TouchAppended(cs: seq<string>)
    requires cs != []
    ensures UpdateHead + Join(", ", cs + [TouchUpdatedAt]) + WhereId
         == UpdateHead + Join(", ", cs) + ", " + TouchUpdatedAt + WhereId
  {
    JoinSnoc(", ", cs, TouchUpdatedAt);
  }

  lemma ColumnBindingPlaceholder(key: string)
    requires Placeholders(key) == 0
    ensures Placeholders(ColumnBinding(key)) == 1
  {
    NoPlaceholders(" = ");
    OnePlaceholder();
    PlaceholdersConcat(key, " = ");
    PlaceholdersConcat(key + " = ", "?");
  }

  lemma {:induction false} PlaceholdersColumns(entries: Object)
    requires forall i :: 0 <= i < |entries| ==> Placeholders(entries[i].0) == 0
    ensures PlaceholdersAll(Columns(entries)) == |entries|
  {
    if entries != [] {
      PlaceholdersColumns(entries[1..]);
      assert Columns(entries) == [Columns(entries)[0]] + Columns(entries[1..]);
      ColumnBindingPlaceholder(entries[0].0);
    }
  }

  lemma UpdateLiteralPlaceholders()
    ensures Placeholders(UpdateHead) == 0 && Placeholders(TouchUpdatedAt) == 0 && Placeholders(", ") == 0
    ensures Placeholders(WhereId) == 1
  {
    NoPlaceholders(UpdateHead);
    NoPlaceholders(TouchUpdatedAt);
    NoPlaceholders(", ");
    NoPlaceholders(" WHERE id = ");
    OnePlaceholder();
    PlaceholdersConcat(" WHERE id = ", "?");
  }

  /** `update` binds every placeholder it writes, given column names free of `?`. */
  lemma UpdatePlaceholders(id: Value, data: Object)
    requires forall k :: k in Keys(data) ==> Placeholders(k) == 0
    requires UpdateStatement(id, data).Ok?
    ensures Placeholders(UpdateStatement(id, data).value.sql) == |UpdateStatement(id, data).value.params|
  {
    var entries := Assignments(data, Keys(data));
    forall i | 0 <= i < |entries| ensures Placeholders(entries[i].0) == 0 {
      AssignmentsKeys(data, Keys(data), entries[i].0);
      assert Keys(entries)[i] == entries[i].0;
    }
    PlaceholdersColumns(entries);
    UpdateLiteralPlaceholders();
    assert PlaceholdersAll([TouchUpdatedAt]) == 0;
    PlaceholdersAllAppend(Columns(entries), [TouchUpdatedAt]);
    PlaceholdersJoin(", ", Columns(entries) + [TouchUpdatedAt]);
    var body := Join(", ", Columns(entries) + [TouchUpdatedAt]);
    PlaceholdersConcat(UpdateHead, body);
    PlaceholdersConcat(UpdateHead + body, WhereId);
  }

  /** `update`: write the defined keys, then re-read the row. */
  function Update(db: Database, drv: Driver, id: Value, data: Object): (r: Result<Option<Object>, string>)
    reads db
    ensures UpdateStatement(id, data).Err? ==> r == Err(NothingToUpdate)
    ensures UpdateStatement(id, data).Ok? ==>
              var st := UpdateStatement(id, data).value;
              r == if db.Query(st.sql, st.params, drv).Err? then Err(db.Query(st.sql, st.params, drv).error)
                   else FindById(db, drv, id)
  {
    match UpdateStatement(id, data)
    case Err(e) => Err(e)
    case Ok(st) =>
      match db.Query(st.sql, st.params, drv)
      case Err(e) => Err(e)
      case Ok(_) => FindById(db, drv, id)
  }

  /**
   * `update` writes nothing when no key is defined; otherwise it rethrows the
   * engine's error on the write and, when the write went through, answers
   * what `findById` reads for the same id.
   */
  lemma UpdateRereads(db: Database, drv: Driver, id: Value, data: Object)
    requires db.db != NoHandle
    ensures UpdateStatement(id, data).Err? ==> Update(db, drv, id, data) == Err(NothingToUpdate)
    ensures UpdateStatement(id, data).Ok? ==>
      var st := UpdateStatement(id, data).value;
      var e := WriteError(db.isPostgres, st.sql, st.params, drv);
      Update(db, drv, id, data) == if e.Some? then Err(e.value) else FindById(db, drv, id)
  {
    if UpdateStatement(id, data).Ok? {
      var st := UpdateStatement(id, data).value;
      UpdateIsWrite(Join(", ", Columns(Assignments(data, Keys(data))) + [TouchUpdatedAt]));
      WriteDispatch(db.isPostgres, st.sql, st.params, drv);
    }
  }

  lemma UpdateIsWrite(body: string)
    ensures !IsSelect(UpdateHead + body + WhereId)
  {
    FirstOfAppend(UpdateHead, body);
    FirstOfAppend(UpdateHead + body, WhereId);
    OtherIsNotSelect(UpdateHead + body + WhereId);
  }
}
