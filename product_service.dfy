/**
 * The browser's client of the catalogue API, `src/services/products.js`.
 * A call builds its request, awaits one reply and either returns what the
 * reply carries or throws an error whose text starts with the name of the
 * operation. The reply is a parameter: `fetch` itself is not modelled.
 */
module ProductService {
  import opened Wrappers
  import opened Text
  import opened JsValue
  import opened Collections
  import Database
  import Controller

  /** `API_BASE_URL` when `REACT_APP_API_URL` is unset or empty. */
  const DefaultApiUrl := "http://localhost:3001/api"

  /** `process.env.REACT_APP_API_URL || DefaultApiUrl`. */
  function ApiBaseUrl(env: Option<string>): string
  {
    if env.Some? && env.value != "" then env.value else DefaultApiUrl
  }

  // ---------------------------------------------------------------------
  // The query of `list`

  /** The `filters` argument of `list`; every key may be missing. */
  datatype Filters = Filters(categoria: Value, tipo: Value, color: Value, q: Value)

  /** The `pagination` argument of `list`. */
  datatype Pagination = Pagination(page: Value, limit: Value)

  const NoFilters := Filters(Undefined, Undefined, Undefined, Undefined)

  /** Every parameter `list` may send, in the order it considers them. */
  function Fields(f: Filters, p: Pagination): Object
  {
    [("categoria", f.categoria), ("tipo", f.tipo), ("color", f.color), ("q", f.q), ("page", p.page), ("limit", p.limit)]
  }

  /** An entry `list` appends: its value is truthy. */
  predicate Given(e: (string, Value))
  {
    Truthy(e.1)
  }

  /** An entry as `list` appends it, or nothing. */
  function Appended(e: (string, Value)): Object
  {
    if Truthy(e.1) then [e] else []
  }

  /** The parameters of a `list` request: each entry as `list` appends it, in turn. */
  function Params(f: Filters, p: Pagination): Object
  {
    Appended(("categoria", f.categoria)) + Appended(("tipo", f.tipo)) + Appended(("color", f.color))
    + Appended(("q", f.q)) + Appended(("page", p.page)) + Appended(("limit", p.limit))
  }

  /** Appending entries in turn, over any list of entries. */
  function Appending(fields: Object): Object
  {
    if fields == [] then [] else Appending(fields[..|fields| - 1]) + Appended(fields[|fields| - 1])
  }

  /** Appending the truthy entries in turn is filtering by truthiness. */
  lemma {:induction false} AppendingFilters(fields: Object)
    ensures Appending(fields) == Filter(fields, Given)
  {
    if fields != [] {
      var init, last := fields[..|fields| - 1], fields[|fields| - 1];
      AppendingFilters(init);
      assert fields == init + [last];
      FilterSnoc(init, last, Given);
    }
  }

  /** The parameters of a request are its six entries appended in turn. */
  lemma ParamsAppending(f: Filters, p: Pagination)
    ensures Params(f, p) == Appending(Fields(f, p))
  {
    var fs := Fields(f, p);
    forall k | 0 <= k < 6
      ensures Appending(fs[..k + 1]) == Appending(fs[..k]) + Appended(fs[k])
    {
      assert fs[..k + 1][..k] == fs[..k];
    }
    assert fs[..0] == [] && fs[..6] == fs;
    assert Appending(fs[..1]) == Appended(fs[0]);
    assert Appending(fs[..2]) == Appended(fs[0]) + Appended(fs[1]);
    assert Appending(fs[..3]) == Appended(fs[0]) + Appended(fs[1]) + Appended(fs[2]);
    assert Appending(fs[..4]) == Appended(fs[0]) + Appended(fs[1]) + Appended(fs[2]) + Appended(fs[3]);
    assert Appending(fs[..5]) == Appended(fs[0]) + Appended(fs[1]) + Appended(fs[2]) + Appended(fs[3]) + Appended(fs[4]);
  }

  /**
   * The `if (…) params.append(…)` sequence of `list`. An entry keeps its
   * value; `QueryText` renders it with `String`, as `append` does.
   */
  method ListParams(f: Filters, p: Pagination) returns (params: Object)
    ensures params == Params(f, p)
  {
    params := [];
    params := AppendIfGiven(params, "categoria", f.categoria);
    params := AppendIfGiven(params, "tipo", f.tipo);
    params := AppendIfGiven(params, "color", f.color);
    params := AppendIfGiven(params, "q", f.q);
    params := AppendIfGiven(params, "page", p.page);
    params := AppendIfGiven(params, "limit", p.limit);
  }

  /** `if (v) params.append(key, v)`. */
  method AppendIfGiven(params: Object, key: string, v: Value) returns (r: Object)
    ensures r == params + Appended((key, v))
  {
    r := params;
    if Truthy(v) {
      r := r + [(key, v)];
    }
  }

  /** The request carries exactly the truthy parameters, in the fixed order `categoria`, `tipo`, `color`, `q`, `page`, `limit`. */
  lemma ParamsInOrder(f: Filters, p: Pagination)
    ensures IsSubsequence(Params(f, p), Fields(f, p))
    ensures forall e :: e in Params(f, p) <==> e in Fields(f, p) && Truthy(e.1)
  {
    ParamsAppending(f, p);
    AppendingFilters(Fields(f, p));
    FilterIsSubsequence(Fields(f, p), Given);
  }

  /** `params.toString()`, without percent-encoding. */
  function QueryText(params: Object): string
  {
    Join("&", seq(|params|, i requires 0 <= i < |params| => params[i].0 + "=" + StringOf(params[i].1)))
  }

  /** The query text is empty exactly when there is no parameter. */
  lemma QueryTextEmpty(params: Object)
    ensures QueryText(params) == "" <==> params == []
  {
    if params != [] {
      var pairs := seq(|params|, i requires 0 <= i < |params| => params[i].0 + "=" + StringOf(params[i].1));
      assert |pairs[0]| > 0;
      JoinCoversFirst("&", pairs);
    }
  }

  lemma JoinCoversFirst(sep: string, xs: seq<string>)
    requires xs != []
    ensures |Join(sep, xs)| >= |xs[0]|
  {
  }

  /** The URL of a `list` request. */
  function ListUrl(base: string, params: Object): string
  {
    var q := QueryText(params);
    base + "/productos" + (if q != "" then "?" + q else "")
  }

  /** The URL carries a `?` and the query exactly when some parameter was appended. */
  lemma ListUrlQuery(base: string, params: Object)
    ensures params == [] ==> ListUrl(base, params) == base + "/productos"
    ensures params != [] ==> QueryText(params) != "" && ListUrl(base, params) == base + "/productos?" + QueryText(params)
  {
    QueryTextEmpty(params);
  }

  // ---------------------------------------------------------------------
  // Replies and the errors they become

  /** The JSON body of an API reply. */
  datatype Payload<T> = Payload(success: Value, message: Value, data: T)

  /**
   * What an awaited `fetch` gives: a rejection with its message, or a
   * status with the outcome of `response.json()`.
   */
  datatype Reply<T> = NoResponse(reason: string) | Reply(status: nat, json: Result<Payload<T>, string>)

  /** `response.ok`. */
  predicate OkStatus(status: nat)
  {
    200 <= status <= 299
  }

  /** The reply is a success: an ok status, a body that parses, and a truthy `success`. */
  predicate Succeeded<T>(r: Reply<T>)
  {
    r.Reply? && OkStatus(r.status) && r.json.Ok? && Truthy(r.json.value.success)
  }

  const ListFailure := "Error al obtener productos"
  const GetFailure := "Error al obtener producto"
  const CreateFailure := "Error al crear producto"
  const UpdateFailure := "Error al actualizar producto"
  const RemoveFailure := "Error al eliminar producto"
  const NotFound := "Producto no encontrado"

  function HttpError(status: nat): string
  {
    "Error HTTP: " + NatToString(status)
  }

  /** `data.message || fallback`, as the text of the error it becomes. */
  function MessageOr(message: Value, fallback: string): string
  {
    if Truthy(message) then StringOf(message) else fallback
  }

  /** The `catch` of every operation: rethrow with the operation's name in front. */
  function Rethrown<R>(failure: string, attempt: Result<R, string>): Result<R, string>
  {
    match attempt
    case Ok(v) => Ok(v)
    case Err(e) => Err(failure + ": " + e)
  }

  /** `list`: the whole body of a successful reply. The status is checked before the body is read. */
  function List<T>(r: Reply<T>): (res: Result<Payload<T>, string>)
    ensures res.Ok? <==> Succeeded(r)
    ensures res.Ok? ==> res.value == r.json.value
    ensures res.Err? ==> StartsWith(res.error, ListFailure + ": ")
    ensures r.Reply? && !OkStatus(r.status) ==> res == Err(ListFailure + ": " + HttpError(r.status))
    ensures r.NoResponse? ==> res == Err(ListFailure + ": " + r.reason)
  {
    Rethrown(ListFailure,
      match r
      case NoResponse(reason) => Err(reason)
      case Reply(status, json) =>
        if !OkStatus(status) then Err(HttpError(status))
        else match json
          case Err(e) => Err(e)
          case Ok(body) => if !Truthy(body.success) then Err(MessageOr(body.message, ListFailure)) else Ok(body))
  }

  /** `get(id)`: the `data` of a successful reply; 404 is reported as a missing product. */
  function Get<T>(r: Reply<T>): (res: Result<T, string>)
    ensures res.Ok? <==> Succeeded(r)
    ensures res.Ok? ==> res.value == r.json.value.data
    ensures res.Err? ==> StartsWith(res.error, GetFailure + ": ")
    ensures r.Reply? && r.status == 404 ==> res == Err(GetFailure + ": " + NotFound)
    ensures r.Reply? && !OkStatus(r.status) && r.status != 404 ==> res == Err(GetFailure + ": " + HttpError(r.status))
  {
    Rethrown(GetFailure,
      match r
      case NoResponse(reason) => Err(reason)
      case Reply(status, json) =>
        if !OkStatus(status) then Err(if status == 404 then NotFound else HttpError(status))
        else match json
          case Err(e) => Err(e)
          case Ok(body) => if !Truthy(body.success) then Err(MessageOr(body.message, GetFailure)) else Ok(body.data))
  }

  /** `create(productData)`: the body is read first, and its message explains a failing status. */
  function Create<T>(r: Reply<T>): (res: Result<T, string>)
    ensures res.Ok? <==> Succeeded(r)
    ensures res.Ok? ==> res.value == r.json.value.data
    ensures res.Err? ==> StartsWith(res.error, CreateFailure + ": ")
    ensures r.Reply? && r.json.Err? ==> res == Err(CreateFailure + ": " + r.json.error)
    ensures r.Reply? && r.json.Ok? && !OkStatus(r.status) ==>
      res == Err(CreateFailure + ": " + MessageOr(r.json.value.message, HttpError(r.status)))
  {
    Rethrown(CreateFailure,
      match r
      case NoResponse(reason) => Err(reason)
      case Reply(status, json) =>
        match json
        case Err(e) => Err(e)
        case Ok(body) =>
          if !OkStatus(status) then Err(MessageOr(body.message, HttpError(status)))
          else if !Truthy(body.success) then Err(MessageOr(body.message, CreateFailure))
          else Ok(body.data))
  }

  /** The failing-status error of `update` and `remove`: 404 is a missing product, anything else the body's message. */
  function RejectedWrite(status: nat, message: Value): string
  {
    if status == 404 then NotFound else MessageOr(message, HttpError(status))
  }

  /** `update(id, productData)`. */
  function Update<T>(r: Reply<T>): (res: Result<T, string>)
    ensures res.Ok? <==> Succeeded(r)
    ensures res.Ok? ==> res.value == r.json.value.data
    ensures res.Err? ==> StartsWith(res.error, UpdateFailure + ": ")
    ensures r.Reply? && r.json.Ok? && r.status == 404 ==> res == Err(UpdateFailure + ": " + NotFound)
  {
    Rethrown(UpdateFailure,
      match r
      case NoResponse(reason) => Err(reason)
      case Reply(status, json) =>
        match json
        case Err(e) => Err(e)
        case Ok(body) =>
          if !OkStatus(status) then Err(RejectedWrite(status, body.message))
          else if !Truthy(body.success) then Err(MessageOr(body.message, UpdateFailure))
          else Ok(body.data))
  }

  /** `remove(id)`: `true` once the product is deleted. */
  function Remove<T>(r: Reply<T>): (res: Result<bool, string>)
    ensures res.Ok? <==> Succeeded(r)
    ensures res.Ok? ==> res.value
    ensures res.Err? ==> StartsWith(res.error, RemoveFailure + ": ")
    ensures r.Reply? && r.json.Ok? && r.status == 404 ==> res == Err(RemoveFailure + ": " + NotFound)
  {
    Rethrown(RemoveFailure,
      match r
      case NoResponse(reason) => Err(reason)
      case Reply(status, json) =>
        match json
        case Err(e) => Err(e)
        case Ok(body) =>
          if !OkStatus(status) then Err(RejectedWrite(status, body.message))
          else if !Truthy(body.success) then Err(MessageOr(body.message, RemoveFailure))
          else Ok(true))
  }

  /** `healthCheck()`: the body's `success` as it is, and `false` whenever anything fails. */
  function HealthCheck<T>(r: Reply<T>): (up: Value)
    ensures Truthy(up) <==> Succeeded(r)
    ensures !(r.Reply? && OkStatus(r.status) && r.json.Ok?) ==> up == Bool(false)
  {
    match r
    case NoResponse(_) => Bool(false)
    case Reply(status, json) =>
      if !OkStatus(status) then Bool(false)
      else match json
        case Err(_) => Bool(false)
        case Ok(body) => body.success
  }

  // ---------------------------------------------------------------------
  // The health URL

  /** `s.replace(pat, rep)` with a text pattern: only the first occurrence is replaced. */
  function ReplaceFirst(s: string, pat: string, rep: string): string
  {
    if StartsWith(s, pat) then rep + s[|pat|..]
    else if s == [] then s
    else [s[0]] + ReplaceFirst(s[1..], pat, rep)
  }

  /** The URL `healthCheck` asks: `/api` removed once from the base, then `/api/health`. */
  function HealthUrl(base: string): string
  {
    ReplaceFirst(base, "/api", "") + "/api/health"
  }

  /** Removing a pattern that first occurs at the end leaves what precedes it. */
  lemma {:induction false} ReplaceFirstAtEnd(host: string, pat: string)
    requires pat != []
    requires forall i :: 0 <= i < |host| ==> !StartsWith((host + pat)[i..], pat)
    ensures ReplaceFirst(host + pat, pat, "") == host
  {
    if host == [] {
      assert host + pat == pat;
    } else {
      assert (host + pat)[0..] == host + pat;
      assert (host + pat)[1..] == host[1..] + pat;
      forall i | 0 <= i < |host[1..]|
        ensures !StartsWith((host[1..] + pat)[i..], pat)
      {
        assert (host[1..] + pat)[i..] == (host + pat)[i + 1..];
      }
      ReplaceFirstAtEnd(host[1..], pat);
    }
  }

  /** A base that ends with its only `/api` gives the health URL on the same host. */
  lemma HealthUrlOfApiBase(host: string)
    requires forall i :: 0 <= i < |host| ==> !StartsWith((host + "/api")[i..], "/api")
    ensures HealthUrl(host + "/api") == host + "/api/health"
  {
    ReplaceFirstAtEnd(host, "/api");
  }

  // ---------------------------------------------------------------------
  // The option lists of the catalogue

  /** `response.data.map(product => product[key])`. */
  function Column(rows: seq<Object>, key: string): seq<Value>
  {
    seq(|rows|, i requires 0 <= i < |rows| => JsValue.Get(rows[i], key))
  }

  /** `[...new Set(column)].filter(v => v).sort()`, or `[]` when `list` threw. */
  function Options(listed: Result<Payload<seq<Object>>, string>, key: string): seq<Value>
  {
    match listed
    case Err(_) => []
    case Ok(body) => SortBy(Filter(Distinct(Column(body.data, key)), Truthy), StringOf)
  }

  /**
   * The options are sorted by their text, each occurs once, and they are
   * exactly the truthy values some listed product has under `key`; a failed
   * listing gives none.
   */
  lemma OptionsShape(listed: Result<Payload<seq<Object>>, string>, key: string)
    ensures SortedBy(Options(listed, key), StringOf)
    ensures NoDuplicates(Options(listed, key))
    ensures forall v :: v in Options(listed, key) <==>
      listed.Ok? && Truthy(v) && exists row :: row in listed.value.data && JsValue.Get(row, key) == v
    ensures listed.Err? ==> Options(listed, key) == []
  {
    if listed.Ok? {
      var rows := listed.value.data;
      var d := Distinct(Column(rows, key));
      var kept := Filter(d, Truthy);
      SortSorted(kept, StringOf);
      FilterIsSubsequence(d, Truthy);
      SubsequenceDistinct(kept, d);
      SortDistinct(kept, StringOf);
      forall v ensures v in Options(listed, key) <==> Truthy(v) && exists row :: row in rows && JsValue.Get(row, key) == v {
        assert v in Options(listed, key) <==> v in multiset(kept);
        ColumnHas(rows, key, v);
      }
    }
  }

  /** A value is in the column exactly when some row holds it under the key. */
  lemma ColumnHas(rows: seq<Object>, key: string, v: Value)
    ensures v in Column(rows, key) <==> exists row :: row in rows && JsValue.Get(row, key) == v
  {
    var column := Column(rows, key);
    if v in column {
      var i :| 0 <= i < |column| && column[i] == v;
      assert rows[i] in rows && JsValue.Get(rows[i], key) == v;
    }
    if exists row :: row in rows && JsValue.Get(row, key) == v {
      var row :| row in rows && JsValue.Get(row, key) == v;
      var i :| 0 <= i < |rows| && rows[i] == row;
      assert column[i] == v;
    }
  }

  /** What is left after deleting elements of a list without duplicates has none. */
  lemma {:induction false} SubsequenceDistinct<T>(a: seq<T>, b: seq<T>)
    requires IsSubsequence(a, b) && NoDuplicates(b)
    ensures NoDuplicates(a)
    decreases |b|
  {
    if a != [] {
      assert b != [];
      assert NoDuplicates(b[1..]);
      if a[0] == b[0] {
        SubsequenceDistinct(a[1..], b[1..]);
        SubsequenceMembers(a[1..], b[1..]);
        assert a[0] !in b[1..];
        forall i, j | 0 <= i < j < |a| ensures a[i] != a[j] {
          assert a[j] == a[1..][j - 1] && a[j] in a[1..];
          if i > 0 {
            assert a[i] == a[1..][i - 1];
          }
        }
      } else {
        SubsequenceDistinct(a, b[1..]);
      }
    }
  }

  lemma {:induction false} SubsequenceMembers<T>(a: seq<T>, b: seq<T>)
    requires IsSubsequence(a, b)
    ensures forall x :: x in a ==> x in b
    decreases |b|
  {
    if a != [] {
      if a[0] == b[0] {
        SubsequenceMembers(a[1..], b[1..]);
        assert forall x :: x in a ==> x == a[0] || x in a[1..];
      } else {
        SubsequenceMembers(a, b[1..]);
      }
    }
  }

  /** `getCategories()`. */
  function Categories(r: Reply<seq<Object>>): seq<Value>
  {
    Options(List(r), "categoria")
  }

  /** `getTypes()`. */
  function Types(r: Reply<seq<Object>>): seq<Value>
  {
    Options(List(r), "tipo")
  }

  /** `getColors()`. */
  function Colors(r: Reply<seq<Object>>): seq<Value>
  {
    Options(List(r), "color")
  }

  /** The request behind the option lists: `list({}, { limit: 1000 })`. */
  const OptionsPage := Pagination(Undefined, Int(1000))

  /** That request sends one parameter, which the server reads as the text `1000`. */
  lemma OptionsQuery()
    ensures Params(NoFilters, OptionsPage) == [("limit", Int(1000))]
    ensures ServerQuery(Params(NoFilters, OptionsPage)) == [("limit", Str(IntToString(1000)))]
  {
    StringOfInt(1000);
  }

  /** The query object the server reads back from a query string: every value is text. */
  function ServerQuery(params: Object): Object
  {
    seq(|params|, i requires 0 <= i < |params| => (params[i].0, Str(StringOf(params[i].1))))
  }

  /** A failing status leaves every option list empty. */
  lemma RejectedOptionsEmpty(status: nat, json: Result<Payload<seq<Object>>, string>)
    requires !OkStatus(status)
    ensures Categories(Reply(status, json)) == [] && Types(Reply(status, json)) == [] && Colors(Reply(status, json)) == []
  {
    assert List(Reply(status, json)).Err?;
  }

  /**
   * The option lists are always empty when they come from this server: it
   * caps `limit` at 100, answers the request for 1000 with 400, and every
   * list turns that failure into `[]`.
   */
  lemma OptionListsEmpty(db: Database.Database, drv: Database.Driver, json: Result<Payload<seq<Object>>, string>)
    ensures Categories(Reply(Controller.Index(db, drv, ServerQuery(Params(NoFilters, OptionsPage))).status, json)) == []
    ensures Types(Reply(Controller.Index(db, drv, ServerQuery(Params(NoFilters, OptionsPage))).status, json)) == []
    ensures Colors(Reply(Controller.Index(db, drv, ServerQuery(Params(NoFilters, OptionsPage))).status, json)) == []
  {
    OptionsQuery();
    Controller.IndexRejectsThousand(db, drv);
    RejectedOptionsEmpty(Controller.Index(db, drv, ServerQuery(Params(NoFilters, OptionsPage))).status, json);
  }
}
