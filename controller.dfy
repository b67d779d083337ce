/**
 * The request handlers of `backend/controllers/productosController.js`.
 * Each handler is a chain of early returns ending in one response, a status
 * and a JSON body; the repository calls read the database handle and the
 * driver, and any rejection they raise becomes the generic 500 answer.
 */
module Controller {
  import opened Wrappers
  import opened Text
  import opened JsValue
  import opened Numeric
  import opened Database
  import opened Validator
  import Producto

  /** `pagination` of a list answer. */
  datatype PageMeta = PageMeta(currentPage: Value, totalPages: Value, totalItems: Value, itemsPerPage: Value,
                               hasNextPage: bool, hasPrevPage: bool)

  /** `filters` of a list answer: each filter as given, or `null`. */
  datatype FilterEcho = FilterEcho(categoria: Value, tipo: Value, color: Value, search: Value)

  /** The JSON bodies the handlers send; every one but `Problem` has `success: true`. `Listing.rows` and `Item.product` are the `data` key, `Item.note` its optional `message`. */
  datatype Body =
    | Listing(rows: seq<Object>, pagination: PageMeta, filters: FilterEcho)
    | Item(note: Option<string>, product: Option<Object>)
    | Done(message: string)
    | Problem(message: string, errors: seq<string>)

  datatype Response = Response(status: nat, body: Body)

  predicate Success(r: Response)
  {
    !r.body.Problem?
  }

  const InvalidQuery := "Par\U{00E1}metros de consulta inv\U{00E1}lidos"
  const InvalidId := "ID de producto inv\U{00E1}lido"
  const NotFound := "Producto no encontrado"
  const InvalidProduct := "Datos de producto inv\U{00E1}lidos"
  const InvalidUpdate := "Datos de actualizaci\U{00F3}n inv\U{00E1}lidos"
  const Created := "Producto creado exitosamente"
  const Updated := "Producto actualizado exitosamente"
  const Removed := "Producto eliminado exitosamente"
  const NotRemoved := "No se pudo eliminar el producto"
  const InternalError := "Error interno del servidor"

  /** The `catch` answer of every handler. */
  const ServerError := Response(500, Problem(InternalError, []))

  // ---------------------------------------------------------------------
  // Pagination metadata

  /** `Math.ceil(x)`. */
  function Ceil(x: real): (c: int)
    ensures c as real - 1.0 < x <= c as real
  {
    -((-x).Floor)
  }

  /** `Math.ceil(total / limit)`: NaN when the total is not a number. */
  function PageCount(total: Value, limit: int): (pages: Value)
    requires limit >= 1
  {
    match ToNumber(total)
    case None => NaN
    case Some(t) => Int(Ceil(t / limit as real))
  }

  /** The metadata of one page: there is a next page when the page is below the page count, a previous one after the first. */
  function Meta(page: int, limit: int, total: Value): (m: PageMeta)
    requires limit >= 1
  {
    var pages := PageCount(total, limit);
    PageMeta(Int(page), pages, total, Int(limit), pages.Num? && (page as real) < pages.x, page > 1)
  }

  /** `v || null`. */
  function OrNull(v: Value): (r: Value)
    // the echoed key is never `undefined`, so it stays in the JSON body
    ensures r != Undefined
    ensures Truthy(r) == Truthy(v) && (r == v || r == Null)
  {
    if Truthy(v) then v else Null
  }

  /** The filters echoed back, `q` under the name `search`. */
  function Echo(v: Object): FilterEcho
  {
    FilterEcho(OrNull(Get(v, "categoria")), OrNull(Get(v, "tipo")), OrNull(Get(v, "color")), OrNull(Get(v, "q")))
  }

  /** A validated filter value as the repository's filter argument. */
  function FilterText(v: Value): (r: Option<string>)
    ensures r.Some? <==> v.Str?
  {
    if v.Str? then Some(v.s) else None
  }

  function FiltersOf(v: Object): Producto.Filters
  {
    Producto.Filters(FilterText(Get(v, "categoria")), FilterText(Get(v, "tipo")),
                     FilterText(Get(v, "color")), FilterText(Get(v, "q")))
  }

  // ---------------------------------------------------------------------
  // Handlers

  /**
   * `index`: validate the query, then read the page and the total (the two
   * reads run together in the source; either failing gives 500).
   */
  function Index(db: Database, drv: Driver, query: Object): (r: Response)
    reads db
    ensures r.status in {200, 400, 500} && (Success(r) <==> r.status == 200)
    ensures r.status == 400 <==> ValidateFilters(query).Err?
    ensures r.status == 500 ==> r == ServerError
    // the listed rows are the repository's rows for the validated filters and page
    ensures r.status == 200 ==>
      var v := ValidateFilters(query).value;
      r.body.Listing? &&
      Producto.FindAll(db, drv, FiltersOf(v), Producto.Pagination(Get(v, "page"), Get(v, "limit"))) == Ok(r.body.rows)
    // the pagination is the metadata of the validated page and limit over the counted total
    ensures r.status == 200 ==>
      var v := ValidateFilters(query).value;
      Get(v, "page").Num? && Get(v, "limit").Num? && Get(v, "limit").x.Floor >= 1 &&
      Producto.Count(db, drv, FiltersOf(v)).Ok? &&
      r.body.pagination == Meta(Get(v, "page").x.Floor, Get(v, "limit").x.Floor, Producto.Count(db, drv, FiltersOf(v)).value)
  {
    match ValidateFilters(query)
    case Err(issues) => Response(400, Problem(InvalidQuery, MessagesOf(FilterSchema, [], issues)))
    case Ok(v) =>
      ValidatedFilters(query);
      var page, limit := Get(v, "page").x.Floor, Get(v, "limit").x.Floor;
      var f := FiltersOf(v);
      match Producto.FindAll(db, drv, f, Producto.Pagination(Get(v, "page"), Get(v, "limit")))
      case Err(_) => ServerError
      case Ok(rows) =>
        match Producto.Count(db, drv, f)
        case Err(_) => ServerError
        case Ok(total) => Response(200, Listing(rows, Meta(page, limit, total), Echo(v)))
  }

  /** `!id || isNaN(id)` fails: the route parameter is a non-empty numeric text. */
  predicate ValidId(id: string)
  {
    id != "" && IsNumericText(id)
  }

  /** `parseInt(id)`, NaN when no digits lead the text: always NaN or a whole number. */
  function IdParam(id: string): (r: Value)
    ensures r == NaN || (r.Num? && r.x == r.x.Floor as real)
  {
    match ParseIntText(id)
    case Some(n) => Int(n)
    case None => NaN
  }

  /** `show`: 400 for a bad id, 404 for no row, otherwise the product. */
  function Show(db: Database, drv: Driver, id: string): (r: Response)
    reads db
    ensures r.status in {200, 400, 404, 500} && (Success(r) <==> r.status == 200)
    ensures r.status == 400 <==> !ValidId(id)
    ensures r.status == 404 <==> ValidId(id) && Producto.FindById(db, drv, IdParam(id)) == Ok(None)
    ensures r.status == 200 ==> Producto.FindById(db, drv, IdParam(id)).Ok? && r.body == Item(None, Producto.FindById(db, drv, IdParam(id)).value) && r.body.product.Some?
  {
    if !ValidId(id) then Response(400, Problem(InvalidId, []))
    else
      match Producto.FindById(db, drv, IdParam(id))
      case Err(_) => ServerError
      case Ok(None) => Response(404, Problem(NotFound, []))
      case Ok(Some(p)) => Response(200, Item(None, Some(p)))
  }

  /** `create`: 400 with every validation message, otherwise 201 with the stored product. */
  function Create(db: Database, drv: Driver, body: Object): (r: Response)
    reads db
    ensures r.status in {201, 400, 500} && (Success(r) <==> r.status == 201)
    ensures r.status == 201 ==>
      ValidateProducto(body).Ok? && Producto.Create(db, drv, ValidateProducto(body).value).Ok? &&
      r.body == Item(Some(Created), Producto.Create(db, drv, ValidateProducto(body).value).value)
  {
    match ValidateProducto(body)
    case Err(issues) => Response(400, Problem(InvalidProduct, MessagesOf(ProductoSchema, ProductoMessages, issues)))
    case Ok(v) =>
      match Producto.Create(db, drv, v)
      case Err(_) => ServerError
      case Ok(p) => Response(201, Item(Some(Created), p))
  }

  /** `update`: 400 for a bad id, 404 for no row, then 400 for a bad payload, otherwise the updated product. */
  function Update(db: Database, drv: Driver, id: string, body: Object): (r: Response)
    reads db
    ensures r.status in {200, 400, 404, 500} && (Success(r) <==> r.status == 200)
    ensures r.status == 404 <==> ValidId(id) && Producto.FindById(db, drv, IdParam(id)) == Ok(None)
    // the payload is only looked at for a row that exists
    ensures r.status == 400 <==>
      !ValidId(id) || (Producto.FindById(db, drv, IdParam(id)).Ok? &&
      Producto.FindById(db, drv, IdParam(id)).value.Some? && ValidateUpdate(body).Err?)
    ensures r.status == 200 ==>
      ValidateUpdate(body).Ok? && Producto.Update(db, drv, IdParam(id), ValidateUpdate(body).value).Ok? &&
      r.body == Item(Some(Updated), Producto.Update(db, drv, IdParam(id), ValidateUpdate(body).value).value)
  {
    if !ValidId(id) then Response(400, Problem(InvalidId, []))
    else
      match Producto.FindById(db, drv, IdParam(id))
      case Err(_) => ServerError
      case Ok(None) => Response(404, Problem(NotFound, []))
      case Ok(Some(_)) =>
        match ValidateUpdate(body)
        case Err(issues) => Response(400, Problem(InvalidUpdate, MessagesOf(UpdateSchema, ProductoMessages, issues)))
        case Ok(v) =>
          match Producto.Update(db, drv, IdParam(id), v)
          case Err(_) => ServerError
          case Ok(p) => Response(200, Item(Some(Updated), p))
  }

  /** `destroy`: 400 for a bad id, 404 for no row, then 200 or 500 as `delete` reports. */
  function Destroy(db: Database, drv: Driver, id: string): (r: Response)
    reads db
    ensures r.status in {200, 400, 404, 500} && (Success(r) <==> r.status == 200)
    ensures r.status == 404 <==> ValidId(id) && Producto.FindById(db, drv, IdParam(id)) == Ok(None)
    ensures r.status == 200 ==>
      Producto.FindById(db, drv, IdParam(id)).Ok? &&
      Producto.FindById(db, drv, IdParam(id)).value.Some? && Producto.Delete(db, drv, IdParam(id)) == Ok(true)
  {
    if !ValidId(id) then Response(400, Problem(InvalidId, []))
    else
      match Producto.FindById(db, drv, IdParam(id))
      case Err(_) => ServerError
      case Ok(None) => Response(404, Problem(NotFound, []))
      case Ok(Some(_)) =>
        match Producto.Delete(db, drv, IdParam(id))
        case Err(_) => ServerError
        case Ok(true) => Response(200, Done(Removed))
        case Ok(false) => Response(500, Problem(NotRemoved, []))
  }

  // ---------------------------------------------------------------------
  // Pagination properties

  /** For a whole, non-negative total the page count is the integer ceiling of total over limit. */
  lemma PageCountExact(total: nat, limit: int)
    requires limit >= 1
    ensures PageCount(Int(total), limit) == Int((total + limit - 1) / limit)
  {
    var q := (total + limit - 1) / limit;
    var c := Ceil(total as real / limit as real);
    CeilingBounds(total, limit, q);
    CeilUnique(total as real / limit as real, c, q);
  }

  lemma CeilingBounds(total: nat, limit: int, q: int)
    requires limit >= 1 && q == (total + limit - 1) / limit
    ensures (q - 1) as real < total as real / limit as real <= q as real
  {
    var r := (total + limit - 1) % limit;
    assert total + limit - 1 == q * limit + r && 0 <= r < limit;
    assert (q - 1) * limit < total <= q * limit;
    RealDivBounds(total, limit, q);
  }

  lemma RealDivBounds(total: nat, limit: int, q: int)
    requires limit >= 1 && (q - 1) * limit < total <= q * limit
    ensures (q - 1) as real < total as real / limit as real <= q as real
  {
    var x := total as real / limit as real;
    assert x * limit as real == total as real;
    assert ((q - 1) * limit) as real == (q - 1) as real * limit as real;
    assert (q * limit) as real == q as real * limit as real;
  }

  lemma CeilUnique(x: real, c: int, q: int)
    requires c as real - 1.0 < x <= c as real
    requires (q - 1) as real < x <= q as real
    ensures c == q
  {
  }

  /** No rows, no pages, and so no next page. */
  lemma EmptyTotalNoPages(page: int, limit: int)
    requires limit >= 1
    ensures Meta(page, limit, Int(0)).totalPages == Int(0)
    ensures page >= 1 ==> !Meta(page, limit, Int(0)).hasNextPage
  {
    PageCountExact(0, limit);
    assert (limit - 1) / limit == 0;
  }

  /** There is a next page exactly when the rows before and on this page do not reach the total; a previous page exactly after the first. */
  lemma NextPageIff(page: int, limit: int, total: nat)
    requires limit >= 1
    ensures Meta(page, limit, Int(total)).hasNextPage <==> page * limit < total
    ensures Meta(page, limit, Int(total)).hasPrevPage <==> page > 1
  {
    var q := (total + limit - 1) / limit;
    PageCountExact(total, limit);
    CeilingBounds(total, limit, q);
    if page < q {
      assert page <= q - 1;
      MulMonotone(page, q - 1, limit);
    } else {
      MulMonotone(q, page, limit);
    }
  }

  lemma MulMonotone(a: int, b: int, k: int)
    requires a <= b && k >= 1
    ensures a * k <= b * k
  {
    assert b * k - a * k == (b - a) * k;
  }

  /** PostgreSQL reports `COUNT(*)` as decimal text; the page count comes out the same. */
  lemma TextTotalSamePages(total: nat, limit: int)
    requires limit >= 1
    ensures PageCount(Str(IntToString(total)), limit) == PageCount(Int(total), limit)
  {
    NumberOfIntText(total);
  }

  // ---------------------------------------------------------------------
  // Decision order

  /** A rejected query is answered 400, with its one message, before the repository is consulted. */
  lemma IndexRejectsFirst(db1: Database, drv1: Driver, db2: Database, drv2: Driver, query: Object)
    requires ValidateFilters(query).Err?
    ensures Index(db1, drv1, query) == Index(db2, drv2, query)
    ensures Index(db1, drv1, query).status == 400 && |Index(db1, drv1, query).body.errors| == 1
  {
    FiltersReportOne(query);
  }

  /** The limit of 1000 the catalogue pages send is answered 400. */
  lemma IndexRejectsThousand(db: Database, drv: Driver)
    ensures Index(db, drv, [("limit", Str(IntToString(1000)))]).status == 400
  {
    LimitAboveRejected(1000);
  }

  /**
   * A listing echoes each text filter it was given and `null` for the others,
   * `q` as `search`, and pages from 1 through windows of 1 to 100 rows.
   */
  lemma IndexEcho(db: Database, drv: Driver, query: Object)
    requires Index(db, drv, query).status == 200
    ensures Index(db, drv, query).body.filters ==
              FilterEcho(OrNull(Get(query, "categoria")), OrNull(Get(query, "tipo")), OrNull(Get(query, "color")), OrNull(Get(query, "q")))
    ensures var m := Index(db, drv, query).body.pagination;
              m.currentPage.Num? && m.currentPage.x >= 1.0 && m.itemsPerPage.Num? && 1.0 <= m.itemsPerPage.x <= 100.0
  {
    ListingOf(db, drv, query);
    EchoOfQuery(query);
  }

  /** A 200 answer echoes the validated query, and its page window is the validated one. */
  lemma ListingOf(db: Database, drv: Driver, query: Object)
    requires Index(db, drv, query).status == 200
    ensures ValidateFilters(query).Ok? && Index(db, drv, query).body.filters == Echo(ValidateFilters(query).value)
    ensures var m := Index(db, drv, query).body.pagination;
              m.currentPage.Num? && m.currentPage.x >= 1.0 && m.itemsPerPage.Num? && 1.0 <= m.itemsPerPage.x <= 100.0
  {
    ValidatedFilters(query);
  }

  /** The echoed text filters are the query's own. */
  lemma EchoOfQuery(query: Object)
    requires ValidateFilters(query).Ok?
    ensures Echo(ValidateFilters(query).value) ==
              FilterEcho(OrNull(Get(query, "categoria")), OrNull(Get(query, "tipo")), OrNull(Get(query, "color")), OrNull(Get(query, "q")))
  {
    FilterFields();
    EchoAt(query, 0);
    EchoAt(query, 1);
    EchoAt(query, 2);
    EchoAt(query, 3);
  }

  /** A validated text filter is the query's own value. */
  lemma EchoAt(query: Object, i: nat)
    requires ValidateFilters(query).Ok? && i < 4
    ensures Get(ValidateFilters(query).value, FilterSchema[i].key) == Get(query, FilterSchema[i].key)
  {
    FilterFields();
    TextKept(FilterSchema, query, true, i);
  }

  /** A missing or non-numeric id is answered 400 before any lookup, by every handler that takes one. */
  lemma BadIdFirst(db1: Database, drv1: Driver, db2: Database, drv2: Driver, id: string, body: Object)
    requires !ValidId(id)
    ensures Show(db1, drv1, id) == Show(db2, drv2, id) == Response(400, Problem(InvalidId, []))
    ensures Update(db1, drv1, id, body) == Update(db2, drv2, id, body) == Response(400, Problem(InvalidId, []))
    ensures Destroy(db1, drv1, id) == Destroy(db2, drv2, id) == Response(400, Problem(InvalidId, []))
  {
  }

  /** An id with no row is answered 404, whatever the update payload holds. */
  lemma MissingIs404(db: Database, drv: Driver, id: string, body: Object)
    requires ValidId(id) && Producto.FindById(db, drv, IdParam(id)) == Ok(None)
    ensures Show(db, drv, id) == Response(404, Problem(NotFound, []))
    ensures Update(db, drv, id, body) == Response(404, Problem(NotFound, []))
    ensures Destroy(db, drv, id) == Response(404, Problem(NotFound, []))
  {
  }

  /** For an existing row, a rejected update payload is answered 400 with every message. */
  lemma UpdateRejectsPayload(db: Database, drv: Driver, id: string, body: Object)
    requires ValidId(id) && Producto.FindById(db, drv, IdParam(id)).Ok? && Producto.FindById(db, drv, IdParam(id)).value.Some?
    requires ValidateUpdate(body).Err?
    ensures Update(db, drv, id, body) ==
              Response(400, Problem(InvalidUpdate, MessagesOf(UpdateSchema, ProductoMessages, AllIssues(UpdateSchema, body))))
  {
  }

  /**
   * An update payload without `fotos` passes validation with `fotos: []`
   * added, so the statement `update` writes sets the photos column to `'[]'`:
   * a partial update clears the photos the row had.
   */
  lemma PartialUpdateClearsPhotos(id: Value, body: Object)
    requires ValidateUpdate(body).Ok? && Get(body, "fotos") == Undefined
    ensures var v := ValidateUpdate(body).value;
      var entries := Producto.Assignments(v, Keys(v));
      Producto.UpdateStatement(id, v).Ok? &&
      Producto.ColumnBinding("fotos") in Producto.Columns(entries) &&
      forall i :: 0 <= i < |entries| && entries[i].0 == "fotos" ==> Producto.UpdateStatement(id, v).value.params[i] == Str("[]")
  {
    var v := ValidateUpdate(body).value;
    UpdateDefaultsPhotos(body);
    assert "fotos" in Keys(v);
    Producto.UpdateNothingDefined(id, v);
    Producto.UpdateSetsDefinedKeys(id, v, "fotos");
    Producto.UpdateBindings(id, v);
    assert Producto.FotosJson(List([])) == "[]";
  }

  /** `create` answers 400 with one message per issue, 201 when the product was stored and re-read, 500 otherwise. */
  lemma CreateStatus(db: Database, drv: Driver, body: Object)
    ensures Create(db, drv, body).status == 400 <==> ValidateProducto(body).Err?
    ensures ValidateProducto(body).Err? ==>
              Create(db, drv, body).body.errors == MessagesOf(ProductoSchema, ProductoMessages, AllIssues(ProductoSchema, body))
    ensures Create(db, drv, body).status == 201 <==>
              ValidateProducto(body).Ok? && Producto.Create(db, drv, ValidateProducto(body).value).Ok?
  {
  }

  /** On PostgreSQL no product is ever created. */
  lemma PostgresNeverCreates(db: Database, drv: Driver, body: Object)
    requires db.isPostgres
    ensures Create(db, drv, body).status != 201
  {
    if ValidateProducto(body).Ok? {
      Producto.PostgresCreateFails(db, drv, ValidateProducto(body).value);
    }
  }

  /** For an existing row, `destroy` answers 200 exactly when `delete` reports true, and 500 when it reports false. */
  lemma DestroyFollowsDelete(db: Database, drv: Driver, id: string)
    requires ValidId(id) && Producto.FindById(db, drv, IdParam(id)).Ok? && Producto.FindById(db, drv, IdParam(id)).value.Some?
    ensures Destroy(db, drv, id).status == 200 <==> Producto.Delete(db, drv, IdParam(id)) == Ok(true)
    ensures Producto.Delete(db, drv, IdParam(id)) == Ok(false) ==> Destroy(db, drv, id) == Response(500, Problem(NotRemoved, []))
  {
  }

  /** On PostgreSQL no delete is ever answered 200, even when the row is gone. */
  lemma PostgresNeverDestroys(db: Database, drv: Driver, id: string)
    requires db.isPostgres
    ensures Destroy(db, drv, id).status != 200
  {
    var found := Producto.FindById(db, drv, IdParam(id));
    if ValidId(id) && found.Ok? && found.value.Some? {
      Producto.PostgresDeleteReportsFalse(db, drv, IdParam(id));
      assert Producto.Delete(db, drv, IdParam(id)) != Ok(true);
    }
  }

  // ---------------------------------------------------------------------
  // The id parameter

  /** The decimal text of an integer is a valid id and is looked up as that integer. */
  lemma PrintedIdValid(i: int)
    ensures ValidId(IntToString(i)) && IdParam(IntToString(i)) == Int(i)
  {
    NumberOfIntText(i);
    ParseIntOfIntToString(i);
  }

  /** An id ending in a letter from `g` to `x` is rejected. */
  lemma LetterIdRejected(s: string, c: char)
    requires 'g' <= c <= 'x'
    ensures !ValidId(s + [c])
  {
    TrailingLetterIsNaN(s, c);
  }

  /** `isNaN("0x10")` is false and `parseInt` reads the text in base 16, so a hexadecimal id is looked up under its value. */
  lemma HexIdLooksUpValue()
    ensures ValidId("0x10") && IdParam("0x10") == Int(16)
  {
    HexText();
    HexIsNumeric();
  }

  /** `isNaN(" ")` is false, so a blank id passes the check and is looked up as NaN. */
  lemma BlankIdLooksUpNaN()
    ensures ValidId(" ") && IdParam(" ") == NaN
  {
    assert Trim(" ") == "";
    assert TrimStart(" ") == "";
  }
}
