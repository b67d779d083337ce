# FosLit product catalogue — a Dafny model

This project models the product catalogue of the FosLit web page. The model
covers two sides.

- The Express/SQL backend:
  - the connection manager that sends every statement to SQLite or PostgreSQL;
  - the `Producto` model, which builds the SQL and decodes the stored photo lists;
  - the Joi validators;
  - the REST controller, with its status codes and pagination metadata;
  - the migration script.
- The React frontend:
  - the API client `ProductService`;
  - the catalogue page's category buttons and filter;
  - the home page's image carousel;
  - the contact form;
  - the image and logo lookup helpers.

The storage engines, the network and the browser are parameters. A `Driver`
value says what the sqlite3 `all`/`run` calls and the pg `query` call answer.
A `Reply` value says what an awaited `fetch` gave. The migration file system
is a map from paths to file contents.

Modules, one file each:

| module | file | models |
|---|---|---|
| `Wrappers` | wrappers.dfy | `Option`, `Result` and `Outcome` (a promise that resolves or rejects) |
| `Text` | text.dfy | string operations the source uses: `split`, `join`, `trim`, `startsWith`, `includes`, Latin-1 case mapping, integer printing and parsing, counting `?` placeholders |
| `JsValue` | jsvalue.dfy | JavaScript values, truthiness, `String(v)`, `parseInt`, objects as ordered key/value lists with the spread update `{...o, [k]: v}` |
| `Numeric` | numeric.dfy | `Number(text)` and `isNaN`, as the controller's id check and Joi's number coercion use them |
| `PhotoCodec` | photo_codec.dfy | `JSON.stringify`/`JSON.parse` on the photo list, an array of strings |
| `Collections` | collections.dfy | `new Set(...)` order, `filter`, `sort` |
| `Database` | database.dfy | backend/config/database.js |
| `Producto` | producto.dfy | backend/models/Producto.js |
| `Validator` | validator.dfy | backend/validators/productoValidator.js |
| `Controller` | controller.dfy | backend/controllers/productosController.js |
| `Migrate` | migrate.dfy | backend/scripts/migrate.js |
| `ProductService` | product_service.dfy | src/services/products.js |
| `ProductsPage` | products_page.dfy | src/pages/Products.js |
| `Carousel` | carousel.dfy | src/pages/Home.js |
| `ContactForm` | contact_form.dfy | src/pages/About.js |
| `ProductImages` | image_helper.dfy | src/utils/productImageHelper.js |
| `Logos` | logo_helper.dfy | src/utils/logoHelper.js |

## Model

Imperative parts of the source are modelled as imperative Dafny:
- The connection manager is a `class` whose `connect` assigns the handle.
- The SQL builders of `findAll`, `count` and `update` are methods. They
  append to the statement text and the parameter list step by step.
  Each is proved equal to a specification function.
- The loops of the migration script are methods.
- `ProductService.list`'s sequence of `params.append` calls is a method.

Everything else is pure functions and lemmas.

| member | source | states |
|---|---|---|
| Database.Database.constructor | backend/config/database.js:6-9 | The engine is fixed once. It is PostgreSQL exactly when `NODE_ENV` is `production` and `DATABASE_URL` is non-empty. There is no handle yet. |
| Database.Database.Connect | backend/config/database.js:11-33 | Afterwards the handle belongs to the chosen engine. Only a failed SQLite open rejects, and the broken handle stays assigned. |
| Database.Database.QueryUsesChosenEngine | backend/config/database.js:35-72 | Once connected, a query hears only from the engine chosen at construction: drivers that agree on that engine give the same result whatever the other engine says. |
| Database.ReadDispatch | backend/config/database.js:35-48 | A SELECT is answered on either engine with the bare rows the engine read, or with its error. |
| Database.WriteDispatch | backend/config/database.js:35-72 | Any other statement fails exactly when the chosen engine rejects it, with that engine's error. |
| Database.Dispatch | backend/config/database.js:35-72 | Three cases. PostgreSQL sends every statement to the pool. SQLite sends a SELECT to `all` and anything else to `run`. A driver error comes back unchanged. Only a SQLite non-SELECT yields the write record `{insertId, changes, rows: []}`. The other answers are bare row arrays. |
| Database.Database.Close | backend/config/database.js:74-87 | SQLite's close always resolves, because its error is only logged. PostgreSQL's `end` error propagates as the close error. Before `connect`, close fails. On a database whose handle matches its engine (`Valid`), a connected close fails only through the pool's `end`. |
| Database.IsSelectLeading | backend/config/database.js:47 | A statement counts as a SELECT exactly when its upper-cased text after leading whitespace starts with `SELECT`. |
| Database.LeadingSpaceIgnored | backend/config/database.js:47 | Leading whitespace never changes how a statement is dispatched. |
| Database.SelectIsSelect | backend/config/database.js:47 | A statement written `SELECT …` goes to `all`. |
| Database.OtherIsNotSelect | backend/config/database.js:47 | A statement whose first character is not whitespace and is not `s` or `S` goes to `run`. |
| Producto.FilterPredicate | backend/models/Producto.js:11-30 | The WHERE text and the parameters follow the filters in the order categoria, tipo, color. Each truthy filter adds one `= ?` and its value. A truthy `q` adds the LIKE clause and `%q%` twice. Empty filters add nothing. |
| Producto.PageLimit | backend/models/Producto.js:37 | The LIMIT is never 0. An unparsable limit gives 10, and a parsed non-zero limit is used as it is. |
| Producto.PagesTile | backend/models/Producto.js:37-41 | Under the same limit, page n + 1 starts where page n ends: its OFFSET is page n's OFFSET plus the limit. A page from 1 on under a positive limit has a non-negative OFFSET. |
| Producto.BuildFindAll | backend/models/Producto.js:6-44 | The step-by-step `sql +=` / `params.push` build yields the specified listing statement. |
| Producto.BuildCount | backend/models/Producto.js:172-199 | The step-by-step build of `count` yields the specified counting statement. |
| Producto.ListPlaceholders | backend/models/Producto.js:6-42 | The listing statement has exactly as many `?` as parameters. |
| Producto.CountPlaceholders | backend/models/Producto.js:174-197 | The counting statement has exactly as many `?` as parameters. |
| Producto.CountMatchesList | backend/models/Producto.js:177-197 | `count` applies the same WHERE text and parameters as `findAll`. The listing only adds the ORDER BY and the page window. |
| Producto.NormalizeFotos | backend/models/Producto.js:49-51 | A stored string is decoded, with `''` read as `[]`. It fails exactly when it is not the compact text `JSON.stringify` writes for an array of strings, and the decoded list re-encodes to the stored text. A truthy non-string is kept, and any other value becomes `[]`. |
| Producto.NormalizeKeepsColumns | backend/models/Producto.js:47-52 | Normalising a row fails exactly when its photos fail to decode. Otherwise it keeps every other column with its value and place, adds `fotos` only when it was missing, and holds the normalised photos. |
| Producto.StoredPhotosRoundTrip | backend/models/Producto.js:90 | A photo list stored by `create` is read back as the same list. |
| Producto.NormalizeAll | backend/models/Producto.js:47-52 | The listing maps every row through the normalisation, in order, and fails if any row fails. |
| Producto.FindAll | backend/models/Producto.js:6-57 | The listing is the rows the chosen engine reads for the listing statement, each normalised, same count and order. It fails exactly when a row's photos fail to decode; an engine error, or a query before `connect`, is rethrown. |
| Producto.ReadsAreSelects | backend/models/Producto.js:6-44 | The listing, counting and find-by-id statements all start with SELECT, so SQLite answers them with `all`. |
| Producto.Count | backend/models/Producto.js:172-200 | The total is the `total` column of the first row the engine reads for the counting statement. No row at all is an error, and an engine error is rethrown. |
| Producto.FindById | backend/models/Producto.js:60-80 | `null` exactly when the engine reads no row for the id. Otherwise the first row, normalised, and an error when its photos fail to decode. An engine error is rethrown. |
| Producto.FotosJson | backend/models/Producto.js:90 | A photo list is encoded so that it decodes back to itself. A falsy value is stored as `[]`. |
| Producto.InsertStoresColumns | backend/models/Producto.js:90-102 | The insert binds one value per `?`. The first nine are the payload's columns in declaration order. The photos are stored so that reading them back gives the list sent, or `[]` when none was. |
| Producto.CreateRereadsLastId | backend/models/Producto.js:83-119 | On SQLite, a rejected insert is rethrown. A `lastID` of 0 gives "No se pudo obtener el ID del producto creado". Otherwise the result is what `findById` reads under that id. |
| Producto.PostgresCreateFails | backend/models/Producto.js:107-113 | On PostgreSQL, `create` always fails. |
| Producto.PostgresDeleteReportsFalse | backend/models/Producto.js:159-170 | On PostgreSQL, `delete` never reports success: it rethrows the engine's error or answers `false`, because the bare row array has neither `changes` nor `rowCount`. |
| Producto.SqliteDeleteReportsChanges | backend/models/Producto.js:159-170 | On SQLite, a rejected delete is rethrown. Otherwise `delete` reports success exactly when the driver counted a changed row. |
| Producto.FixedStatementsPlaceholders | backend/models/Producto.js:92-102 | The insert statement has as many `?` as parameters, and so do the find-by-id and delete statements. |
| Producto.PlaceholdersNotTranslated | backend/config/database.js:36-39 | On PostgreSQL, find-by-id hands the `?` text to the pool unchanged. |
| Producto.BuildUpdate | backend/models/Producto.js:121-147 | The loop over `Object.keys` yields the specified UPDATE statement. With nothing to set, it is the error. |
| Producto.UpdateSetsDefinedKeys | backend/models/Producto.js:127-137 | A column is assigned exactly when its key is in the payload with a defined value. |
| Producto.UpdateNothingDefined | backend/models/Producto.js:139-141 | `update` fails with "No hay campos para actualizar" exactly when every key of the payload is undefined. |
| Producto.UpdateBindings | backend/models/Producto.js:127-147 | The SET list is the assignments joined by `, `, then `updated_at = CURRENT_TIMESTAMP` last, then ` WHERE id = ?`. Each assignment is bound to its value, with `fotos` JSON-encoded. The id is the last parameter. |
| Producto.UpdatePlaceholders | backend/models/Producto.js:143-147 | The UPDATE statement has as many `?` as parameters. |
| Producto.UpdateRereads | backend/models/Producto.js:121-157 | With no defined key, `update` fails with "No hay campos para actualizar". Otherwise an engine error on the write is rethrown, and a successful write answers what `findById` reads for the same id. |
| Validator.CheckField | backend/validators/productoValidator.js:3-54 | A field check changes no value except by number coercion, and it never invents a missing value. An accepted number field holds the value Joi reads from the input. |
| Validator.Validate | backend/validators/productoValidator.js:61-79 | Validation succeeds exactly when there is no issue. It reports all issues, or only the first when `abortEarly` is set. |
| Validator.ValidateProductoIff | backend/validators/productoValidator.js:3-63 | A product passes exactly when it has no unknown key and all of the following hold. The required names are non-empty strings within 255/100/100 characters. The quantity is a whole number ≥ 0, and the prices are numbers ≥ 0. The optional texts are absent, `null`, `''` or strings within their limits. The photos are a list when given. |
| Validator.ValidateUpdateIff | backend/validators/productoValidator.js:56-67 | An update passes on the same conditions, with every field optional. |
| Validator.UpdateIsProductoOptional | backend/validators/productoValidator.js:56-59 | The update schema is the product schema with exactly its required fields made optional. |
| Validator.ValidProductIsValidUpdate | backend/validators/productoValidator.js:56-67 | A valid product is a valid update, with the same validated value. |
| Validator.ValidatedProducto | backend/validators/productoValidator.js:3-54 | The validated value has bounded non-empty names, a whole quantity ≥ 0, prices ≥ 0 and a photo list. |
| Validator.UnknownKeyRejected | backend/validators/productoValidator.js:61-66 | An unknown key makes validation fail, and it is reported when all issues are collected. |
| Validator.FieldReported | backend/validators/productoValidator.js:61-66 | Every failed check of a field is among the reported issues. |
| Validator.EmptyUpdate | backend/validators/productoValidator.js:51-59 | The empty update payload validates as `{fotos: []}`. |
| Validator.UpdateDefaultsPhotos | backend/validators/productoValidator.js:51-59 | A valid update payload without `fotos` comes back with `fotos: []`; one that gives `fotos` keeps its list. |
| Validator.ValidatedFilters | backend/validators/productoValidator.js:75-76 | A valid filter query has a whole page ≥ 1 and a whole limit from 1 to 100. |
| Validator.FilterDefaults | backend/validators/productoValidator.js:75-76 | A missing page and limit become 1 and 10. |
| Validator.FiltersReportOne | backend/validators/productoValidator.js:79 | A rejected filter query reports exactly one issue, because `abortEarly` is at its default. |
| Validator.LimitAboveRejected | backend/validators/productoValidator.js:76 | Any limit above 100 is rejected with the `number.max` issue. |
| Controller.Ceil | backend/controllers/productosController.js:31 | `Math.ceil`: the least integer not below its argument. |
| Controller.Index | backend/controllers/productosController.js:7-62 | `GET /api/productos` answers 400 exactly for an invalid query, 500 only with the generic error, and on 200 the `findAll` listing of the validated filters and page, with `pagination` equal to `Meta` of the validated page and limit over the `count` total. The total pages and the next-page flag come from that total, so `PageCountExact`, `EmptyTotalNoPages` and `NextPageIff` describe the handler's answer. |
| Controller.Show | backend/controllers/productosController.js:65-98 | `GET /api/productos/:id` answers 400 exactly for a missing or non-numeric id, 404 exactly when `findById` finds no row, and on 200 the row found. |
| Controller.Create | backend/controllers/productosController.js:101-129 | `POST /api/productos` answers 201 only for a valid body that `create` stored and re-read, with that product. |
| Controller.Update | backend/controllers/productosController.js:132-178 | `PUT /api/productos/:id` answers 404 exactly for an id with no row, 400 for a bad id or, for an existing row, an invalid payload, and on 200 the re-read product. |
| Controller.Destroy | backend/controllers/productosController.js:181-223 | `DELETE /api/productos/:id` answers 404 exactly for an id with no row, and 200 only when the row existed and `delete` reported success. |
| Controller.IdParam | backend/controllers/productosController.js:76 | `parseInt(id)` is `NaN` or a whole number. |
| Controller.HexIdLooksUpValue | backend/controllers/productosController.js:69-76 | The id `0x10` passes the `isNaN` check and is looked up as 16. |
| Controller.PartialUpdateClearsPhotos | backend/controllers/productosController.js:152-162 | A valid update payload without `fotos` leads to an UPDATE that sets the photos column, bound to `'[]'`. |
| Controller.PageCountExact | backend/controllers/productosController.js:31 | For a numeric total, `totalPages` is the integer ceiling of total / limit. |
| Controller.EmptyTotalNoPages | backend/controllers/productosController.js:31-33 | An empty catalogue has 0 pages and no next page. |
| Controller.NextPageIff | backend/controllers/productosController.js:31-33 | There is a next page exactly when `page · limit < total`. There is a previous page exactly when `page > 1`. |
| Controller.TextTotalSamePages | backend/controllers/productosController.js:31 | A total the driver returns as text gives the same page count as the number. |
| Controller.IndexRejectsFirst | backend/controllers/productosController.js:10-17 | An invalid query is answered 400 with one message, before the store is touched. |
| Controller.IndexRejectsThousand | backend/controllers/productosController.js:10-17 | `?limit=1000` is answered 400. |
| Controller.IndexEcho | backend/controllers/productosController.js:38-51 | A successful listing echoes each text filter, or `null`, with `q` as `search`. The page is ≥ 1 and the page size is from 1 to 100. |
| Controller.BadIdFirst | backend/controllers/productosController.js:69-74 | A missing or non-numeric id is answered 400 by show, update and destroy, whatever the store holds. |
| Controller.MissingIs404 | backend/controllers/productosController.js:78-83 | An id with no row is answered 404 by show, update and destroy. |
| Controller.UpdateRejectsPayload | backend/controllers/productosController.js:152-160 | For an existing row, an invalid payload is answered 400 with one message per issue. |
| Controller.CreateStatus | backend/controllers/productosController.js:101-129 | `create` answers 400 exactly for an invalid body, with one message per issue. It answers 201 exactly when the validated product was stored and re-read. |
| Controller.PostgresNeverCreates | backend/controllers/productosController.js:113-128 | On PostgreSQL, `POST /api/productos` never answers 201. |
| Controller.DestroyFollowsDelete | backend/controllers/productosController.js:201-213 | For an existing row, `destroy` answers 200 exactly when `delete` reported success. A `false` report is answered 500. |
| Controller.PostgresNeverDestroys | backend/controllers/productosController.js:181-223 | On PostgreSQL, `DELETE` never answers 200. |
| Controller.PrintedIdValid | backend/controllers/productosController.js:69 | Every printed integer is accepted as an id and looked up as that integer. |
| Controller.LetterIdRejected | backend/controllers/productosController.js:69 | An id ending in a letter from `g` to `x` is rejected. |
| Controller.BlankIdLooksUpNaN | backend/controllers/productosController.js:69-76 | A blank id passes the check and is looked up as `NaN`. |
| Migrate.MigrationPerEngine | backend/scripts/migrate.js:12-14 | Each engine reads its own migration file, and both are `.sql` scripts. |
| Migrate.NonBlank | backend/scripts/migrate.js:31 | Every kept piece is a piece of the input that is not blank. |
| Migrate.NonBlankAppend | backend/scripts/migrate.js:31 | Filtering two runs of pieces keeps the kept pieces of each, in order. |
| Migrate.NonBlankSingle | backend/scripts/migrate.js:31 | One piece is kept exactly when it is not blank. |
| Migrate.TerminatedTrimmed | backend/scripts/migrate.js:32 | Each PostgreSQL statement is its piece trimmed with `;` after it, and has no white space around it. A non-blank piece leaves more than the `;`. |
| Migrate.PgPlanShape | backend/scripts/migrate.js:29-38 | Every statement sent to PostgreSQL comes from one piece of the file. It ends in its only `;`, is not blank and does not start with `--`. |
| Migrate.SqlitePlanShape | backend/scripts/migrate.js:48-56 | Every statement sent to SQLite is a trimmed piece of the file that did not start with `--`. It contains no `;`. |
| Migrate.IndentedCommentEngines | backend/scripts/migrate.js:35 | An indented `--` comment is sent to SQLite but skipped on PostgreSQL, because only the PostgreSQL pieces are trimmed before the test. |
| Migrate.PlanFrom | backend/scripts/migrate.js:34-37 | Everything sent is a prepared form of a piece that passes the loop's test. |
| Migrate.PlanAppend | backend/scripts/migrate.js:34-37 | The loop treats a file's pieces one after another. |
| Migrate.SendStopsAtFailure | backend/scripts/migrate.js:34-37 | Statements are sent in order up to and including the first rejected one. Its error is the result. |
| Migrate.Execute | backend/scripts/migrate.js:34-38 | The `for … of` loop of `await database.query` sends the planned statements (`Plan`) in order and stops at the first error. |
| Migrate.Transact | backend/scripts/migrate.js:26-45 | The PostgreSQL branch runs BEGIN, the statements, then COMMIT, or ROLLBACK after an error. |
| Migrate.RunMigrations | backend/scripts/migrate.js:5-67 | The events and outcome of `runMigrations` are those `Migration` describes for the engine, the files and the driver's answers. Afterwards the handle belongs to the engine. |
| Migrate.FinishBrackets | backend/scripts/migrate.js:64-66 | A run starts with connecting, ends with closing, and closes only once. |
| Migrate.ClosedOnceAtEnd | backend/scripts/migrate.js:5-67 | Every run, successful or not, connects first and closes exactly once, at the end. |
| Migrate.MissingFileSendsNothing | backend/scripts/migrate.js:18-20 | A missing migration file sends no statement. |
| Migrate.CloseErrorWins | backend/scripts/migrate.js:64-66 | On PostgreSQL, an error while closing the pool replaces the run's outcome. |
| Migrate.TransactionBeginFails | backend/scripts/migrate.js:26 | A rejected BEGIN sends nothing else and is not rolled back. |
| Migrate.TransactionCommits | backend/scripts/migrate.js:26-41 | The transaction succeeds exactly when BEGIN, every statement and COMMIT are accepted. It then sends them in that order. |
| Migrate.TransactionRollsBack | backend/scripts/migrate.js:42-45 | After a successful BEGIN, any rejected statement or COMMIT ends in ROLLBACK and an error. |
| Migrate.PostgresRun | backend/scripts/migrate.js:22-45 | On PostgreSQL, a present file runs as one transaction of its trimmed, terminated statements. |
| Migrate.SqliteRun | backend/scripts/migrate.js:46-59 | On SQLite, a present file's statements are sent one by one without a transaction. |
| Migrate.SqliteSends | backend/scripts/migrate.js:52-58 | The SQLite run succeeds exactly when every statement is accepted. The events are then connect, each statement and close. |
| ProductService.ListParams | src/services/products.js:13-20 | The `params.append` sequence yields the truthy parameters, in the fixed order. |
| ProductService.ParamsInOrder | src/services/products.js:13-20 | The query carries exactly the truthy filters and pagination values, in the order categoria, tipo, color, q, page, limit. |
| ProductService.ListUrlQuery | src/services/products.js:22 | The URL carries `?` and a query exactly when some parameter was appended. |
| ProductService.List | src/services/products.js:8-47 | Success exactly when the status is ok and the body has a truthy `success`. The error starts with "Error al obtener productos: ". A failing status reports `Error HTTP: <status>`. |
| ProductService.Get | src/services/products.js:50-78 | Returns `data` on success. Status 404 is "Producto no encontrado", and any other failing status is the HTTP error. |
| ProductService.Create | src/services/products.js:81-107 | The body is read before the status, so a body that does not parse wins. A failing status reports the body's message when it has one. |
| ProductService.Update | src/services/products.js:110-139 | As `create`, except that status 404 is "Producto no encontrado". |
| ProductService.Remove | src/services/products.js:142-170 | `true` exactly on success. Status 404 is "Producto no encontrado". |
| ProductService.HealthCheck | src/services/products.js:173-193 | The body's `success` is truthy exactly on success. Anything else gives `false`. |
| ProductService.HealthUrlOfApiBase | src/services/products.js:175 | A base URL ending in its only `/api` gives `<host>/api/health`. |
| ProductService.OptionsShape | src/services/products.js:196-229 | The option lists are sorted and free of duplicates. They hold exactly the truthy values some listed product has. A failed listing gives `[]`. |
| ProductService.OptionsQuery | src/services/products.js:198 | The option lists request `limit=1000` and nothing else. |
| ProductService.RejectedOptionsEmpty | src/services/products.js:201-204 | A failing status leaves every option list empty. |
| ProductService.OptionListsEmpty | src/services/products.js:198-204 | Against this backend the category, type and colour lists are always empty. The server rejects `limit=1000` with 400. |
| ProductsPage.CategoryColumn | src/pages/Products.js:22 | The category column lists each product's category, in order. |
| ProductsPage.Categories | src/pages/Products.js:22 | `Todos` comes first. It is followed by every category of the products, each exactly once, and by nothing else. |
| ProductsPage.CategoriesInFirstOccurrenceOrder | src/pages/Products.js:22 | The category buttons follow the order in which categories first occur. |
| ProductsPage.FilteredProducts | src/pages/Products.js:24-29 | The shown products keep the list's order. A product is shown exactly when it matches the category and, case-insensitively, the search term in its name or description. |
| ProductsPage.InitialStateShowsAll | src/pages/Products.js:19-29 | With `Todos` selected and an empty search, every product is shown, in order. |
| ProductsPage.SelectedCategoryOnly | src/pages/Products.js:25 | Selecting a category other than `Todos` shows only products of that category. |
| ProductsPage.CategoryNarrows | src/pages/Products.js:24-29 | Any selected category shows a subset of what `Todos` shows. |
| ProductsPage.NoResultsIff | src/pages/Products.js:134 | The "no products" message shows exactly when no product passes both tests. |
| Carousel.Rem | src/pages/Home.js:15-19 | JavaScript's `%`. A non-negative dividend gives the mathematical remainder, and a negative dividend a non-positive one. |
| Carousel.NextInRange | src/pages/Home.js:14-16 | The next arrow moves one slide on and wraps from the last slide to the first. |
| Carousel.PrevInRange | src/pages/Home.js:18-20 | The previous arrow moves one slide back and wraps from the first slide to the last. |
| Carousel.PrevUndoesNext | src/pages/Home.js:14-20 | Each arrow undoes the other. |
| Carousel.RunStaysInRange | src/pages/Home.js:12-27 | Any sequence of presses and timer ticks keeps the index a valid slide. |
| Carousel.ReachableIndexValid | src/pages/Home.js:12 | Starting from 0, the page only shows one of its three images. |
| Carousel.FullTurn | src/pages/Home.js:22-27 | As many timer ticks as there are images bring the carousel back to the same slide. |
| Carousel.SlideLabelNumber | src/pages/Home.js:65 | The alternative text reads `Slide ` followed by the slide number, counted from 1. |
| ContactForm.InitialForm | src/pages/About.js:6-10 | The form starts with exactly the keys name, email and message, all empty. |
| ContactForm.ChangeOverridesOneField | src/pages/About.js:12-17 | Typing sets only the input's own field. The other fields keep their values and no key is added. |
| ContactForm.TypingKeepsFields | src/pages/About.js:12-17 | Any sequence of typing into the three inputs keeps exactly the three keys. |
| ContactForm.LastEditWins | src/pages/About.js:12-17 | A field holds the last text typed into it, or its old value if nothing was typed. |
| ContactForm.HandleSubmit | src/pages/About.js:20-26 | Sending stops the browser's own submission and logs the current data. It puts the three empty fields back. |
| ProductImages.GetAvailableImageKeys | src/utils/productImageHelper.js:21-23 | The keys are `fluor` and `transparente`, in that order. |
| ProductImages.ImageOrPlaceholder | src/utils/productImageHelper.js:16-18 | A known key gives its image, and any other key gives the placeholder URL. The result is never empty. |
| Logos.GetAvailableLogoKeys | src/utils/logoHelper.js:20-22 | The only key is `main`. |
| Logos.LogoLookup | src/utils/logoHelper.js:15-17 | An omitted key means `main`. A known key gives its logo, and any other key gives the main logo. |
| Logos.OnlyMainLogo | src/utils/logoHelper.js:7-17 | With the one logo the map holds, every key gives the main logo. |
| PhotoCodec.Decode | backend/models/Producto.js:50 | A text is decoded only when it is exactly the compact `JSON.stringify` encoding of the list it decodes to. |
| PhotoCodec.DecodeEncode | backend/models/Producto.js:90 | Decoding what `JSON.stringify` wrote for a list of strings gives the list back. |
| PhotoCodec.EncodeDecode | backend/models/Producto.js:50 | Text that decodes to a list is the encoding of that list. |
| Numeric.ToNumber | backend/controllers/productosController.js:69 | `Number` keeps a number, and reads a string only when `isNaN` accepts it. |
| Numeric.JoiNumber | backend/validators/productoValidator.js:19-38 | Joi's number coercion keeps a number, and reads a string only where `Number` reads it, to the same value. |
| Numeric.NumericIffDecimal | backend/controllers/productosController.js:69 | `isNaN(s)` is false exactly for blank text, decimal literals, `Infinity` and `0x`/`0o`/`0b` literals; on the first two the model's `Number` gives the decimal value. |
| Numeric.HexIsNumeric | backend/controllers/productosController.js:69 | `isNaN("0x10")` is false. |
| Text.ParseIntOfIntToString | backend/controllers/productosController.js:76 | `parseInt(String(i))` gives `i` back for every integer. |
| Text.ParseIntLeadingDigits | backend/models/Producto.js:37-38 | `parseInt` reads the leading decimal digits and ignores what follows them, unless a lone `0` is followed by `x`. |
| Text.HexText | backend/controllers/productosController.js:76 | `parseInt("0x10")` is 16, and `parseInt("0x")` is `NaN`. |
| Numeric.TrailingLetterIsNaN | backend/controllers/productosController.js:69 | Text ending in a letter from `g` to `x` is not numeric, so `isNaN` holds for it. |
| Numeric.NumberOfIntText | backend/controllers/productosController.js:69 | A printed integer is numeric text. `Number` and Joi's coercion both read it as that integer. |

## Left out

- The SQLite and PostgreSQL drivers, `fetch`, Express routing and the React rendering are not modelled. Their answers are parameters: `Database.Driver` and `ProductService.Reply`. Console logging is left out.
- Database.Database.Query: the driver calls are modelled as total functions. The actual asynchronous callback order and logging are not modelled.
- Controller.Index: `Promise.all` of `findAll` and `count` is modelled as two independent reads of the same store. Concurrency between requests is not modelled.
- Controller.Index: the 500 body's `error` field depends on `NODE_ENV` and is not modelled. Only the status and message are.
- Validator.ValidateProductoIff: with conversion on, Joi's `precision(2)` rounds the prices to two decimals; the model keeps the given value. `uri({ allowRelative: true })` on each photo is not checked, so any string is accepted as a photo.
- Validator.ValidateProductoIff: Joi's `min`/`max` on strings count UTF-16 code units; `TextWithin` counts Unicode scalar values, so text outside the Basic Multilingual Plane is counted shorter than Joi counts it. Joi's `number.unsafe` rule, which rejects numbers beyond ±(2^53 − 1), is not modelled.
- Validator.ValidateUpdateIff: the same four gaps as for products. `precision(2)` rounds, where the model keeps the value. The `uri` rule on each photo, which the update schema keeps, is not checked. String lengths are in scalar values rather than UTF-16 code units. `number.unsafe` is not modelled.
- Validator.CheckField: a number field's value is not rounded by `precision(2)`, and the `number.unsafe` check that Joi runs before `min`/`max` is not modelled.
- Validator.LimitAboveRejected: a limit beyond 2^53 − 1 is reported by Joi as `number.unsafe`, not `number.max`; the model reports `number.max` for every limit above 100.
- ProductService.OptionsShape: JavaScript's default `sort` orders strings by UTF-16 code unit; the model orders them by Unicode scalar value, which differs only for text outside the Basic Multilingual Plane.
- Producto.NormalizeFotos: `JSON.parse` also accepts white space between tokens, `\u` escapes, `null`, numbers, objects and non-string array elements. The model decodes only the compact array-of-strings text `JSON.stringify` writes, and reads anything else as a parse error.
- Logos.GetLogo: keys inherited from `Object.prototype` (such as `toString`) index the logo map in JavaScript and give a function instead of the main logo. Only the map's own keys are modelled.
- Numeric.JoiNumber: Joi's coercion is modelled for decimal literals surrounded by white space. Other forms Joi may accept are read as not a number.
- Numeric.ToNumber: `Number` reads `Infinity` and `0x`/`0o`/`0b` text as numbers. The model reads them as `NaN`, although `IsNumericText` (the `isNaN` test) accepts them.
- JsValue.Value: numbers are exact reals, not IEEE doubles. Rounding and overflow are not modelled.
- JsValue.Keys: keys are kept in insertion order. JavaScript lists integer-like keys ("0", "12") first, in ascending order, and that ordering is not modelled.
- JsValue.NumberText: a number with a fraction prints as its integer part, where `String(1.5)` gives `"1.5"`. Shortest round-trip printing of doubles is not modelled. Two modelled paths show the gap. `ProductService.QueryText` renders a page of 1.5 as `page=1`, where `URLSearchParams` sends `page=1.5` and the backend answers 400. `Producto.FotosJson` stores a photo value of 1.5 as `"1"`, where `JSON.stringify` gives `"1.5"`.
- Text.Lower: case mapping covers Latin-1 only. The full Unicode `toLowerCase`/`toUpperCase` tables are left out.
- PhotoCodec.Encode: `JSON.stringify` escapes only `"` and `\` here. Control characters and Unicode escapes are not modelled, so the round trip is proved for this codec. The decoder also accepts a raw control character, such as a line feed, inside a string, which `JSON.parse` rejects with a SyntaxError (a 500 from `findAll`). The reverse gap also exists: the decoder reads the `\n`, `\t`, `\r`, `\b`, `\f` and `\/` escapes, which `JSON.parse` accepts, as errors.
- ProductService.QueryText: `URLSearchParams` percent-encoding is not modelled.
- ProductService.ApiBaseUrl: the `REACT_APP_API_URL` environment variable is a parameter.
- ProductsPage.FilteredProducts: the page's nine demonstration products are a parameter rather than the fixed list.
- Carousel.Run: the three-second `setInterval` timer is modelled as a `Forward` press. Timing, interval restarts and the animation are left out.
- ContactForm.HandleSubmit: `alert` is left out. `preventDefault` and `console.log` are modelled only as the `defaultPrevented` flag and the logged object.
- ProductImages.GetProductImage: keys inherited from `Object.prototype` (such as `toString`) are not modelled. Only the map's own keys are.
- Migrate.RunMigrations: file reading, `path.join` normalisation and the `require.main` entry point are parameters or left out. The directory and file contents are a map.

## Notes on the source

Observations about the code's behaviour that the model reproduces as written:

- Producto.FindById: no row gives `null`, not a dedicated "not found" error; the controller turns it into 404.
- Database.Dispatch: on PostgreSQL the answer is the bare `rows` array, never a `{rows, insertId, changes}` record. Two consequences are proved: `create` never finds an id (Producto.PostgresCreateFails) and `delete` never reports success (Producto.PostgresDeleteReportsFalse).
- Producto.PlaceholdersNotTranslated: on PostgreSQL the statement text still holds `?` placeholders, which PostgreSQL writes as `$1`, `$2`, …; the text goes to the pool unchanged, and what the pool answers is the driver parameter's.
- Controller.PartialUpdateClearsPhotos: the update schema keeps the photo default `[]`, so every partial update without `fotos` overwrites the stored photos with `'[]'`.
- ProductService.OptionListsEmpty: the frontend requests `limit=1000` for its option lists. The backend caps `limit` at 100, so those lists are always empty.
