# Product CRUD service — verified model

This project models the rule logic of a small Go HTTP service that stores
products (id, name, description, price). The layers are:

- the **repository**: the products table as a map from id to row, with
  GetAll, GetByID, Create, Update and Delete;
- the **service**: validates a product before it reaches storage. For Get
  and Delete it turns the repository's "not found" into its own `ErrNotFound`;
- the **handlers**: parse the path id and the `limit`/`offset` query, call
  the service, and map its errors to responses: 400 `invalid_input`,
  404 `not_found`, 500 `internal_error` with a fixed message;
- the **apierr** helpers that build those error responses;
- the **config** loader: environment lookups with defaults, required-field
  checks, and normalising the listen address to `:port`;
- the **first iteration** in `main.go`: an in-memory product list with an id
  counter, and a lookup that answers a fixed dummy product.

Go strings are modelled as sequences of bytes (`Models.GoString`), so `|s|`
is Go's `len`. `strconv.Atoi` gets a concrete definition: an optional sign,
then at least one digit, with a value in the 64-bit `int` range. It is
proved to read back everything `Itoa` writes. The database, the JSON decoder
and the environment are inputs to the model:

- each storage call takes the driver fault it meets, if any;
- a listing also takes the row whose scan fails, if any;
- a handler takes the decoded body, or `None` when decoding fails;
- the database's choices are nondeterministic: the row order of a listing
  and the fresh id of an insert.

Files: `models.dfy`, `strconv.dfy`, `http.dfy`, `apierr.dfy`,
`repository.dfy`, `service.dfy`, `handlers.dfy`, `config.dfy`,
`memory_server.dfy`, one module each.

## Model

| member | source | states |
|---|---|---|
| `Strconv.Atoi` | internal/handlers/product_handler.go:151 | a number is accepted only when the string is non-empty, is an optional '+' or '-' followed by decimal digits only, and its value fits a 64-bit int; without a '-' it is non-negative |
| `Strconv.AtoiItoa` | internal/handlers/product_handler.go:151 | every 64-bit int written in decimal is read back as itself |
| `Strconv.ItoaAtoi` | internal/handlers/product_handler.go:151 | a number written without '+', without leading zeros and not as "-0" is read as the value whose decimal writing is that same string |
| `Strconv.AtoiRejectsEmptyAndSign` | internal/handlers/product_handler.go:147-153 | the empty string and a lone sign are not numbers |
| `Http.QueryGet` | internal/handlers/product_handler.go:129 | a query value is the first one given for the key, or empty when the key is absent |
| `Http.Error` | main.go:52 | `http.Error` answers the given status with the message as a text line |
| `Apierr.Write` | internal/apierr/errors.go:21-25 | the response carries exactly the given status, code and message |
| `Apierr.BadRequest` | internal/apierr/errors.go:27-29 | status 400, code `invalid_input`, and the caller's message verbatim |
| `Apierr.NotFound` | internal/apierr/errors.go:31-33 | status 404, code `not_found`, and the caller's message |
| `Apierr.Internal` | internal/apierr/errors.go:35-37 | always status 500, code `internal_error` and the fixed message "internal server error" |
| `Apierr.ErrorKindsDistinct` | internal/apierr/errors.go:10-14 | the three codes are distinct strings, and so are the three statuses |
| `Repository.RepoError.Error` | internal/repository/product_repository.go:56 | the repository's not-found reads "product not found"; a driver error keeps the driver's own text |
| `Repository.ListsHasTableSize` | internal/repository/product_repository.go:34-42 | a listing that holds each stored row once has exactly as many rows as the table |
| `Repository.UpperBound` | internal/repository/product_repository.go:46-47 | there is always a positive id above every id in use, so an insert can always get a fresh key |
| `Repository.Delivered` | internal/repository/product_repository.go:35 | the number of rows the loop reads is at most the table's size, and falls short of it exactly when `rows.Next()` stops early |
| `Repository.FullRowsAreListing` | internal/repository/product_repository.go:34-42 | distinct stored rows as many as the table hold every stored row |
| `Repository.ProductRepository.GetAll` | internal/repository/product_repository.go:26-43 | a failing query, or a scan failure on a row the loop reaches, returns only that driver error; otherwise the rows read so far with no error: distinct stored rows, unchanged, as many as `rows.Next()` delivered, and every stored row when it did not stop early |
| `Repository.ProductRepository.GetByID` | internal/repository/product_repository.go:50-61 | a present id gives its row unchanged; an absent id gives not-found; a driver fault is returned as is |
| `Repository.ProductRepository.Create` | internal/repository/product_repository.go:45-48 | the product is stored under a fresh positive id; name, description and price stay as given; a fault leaves the table unchanged |
| `Repository.ProductRepository.Update` | internal/repository/product_repository.go:63-74 | an absent id gives not-found and the table is unchanged; otherwise only that id's row is replaced |
| `Repository.ProductRepository.Delete` | internal/repository/product_repository.go:76-87 | an absent id gives not-found and the table is unchanged; otherwise exactly that id is removed |
| `Service.ServiceError.Error` | internal/service/product_service.go:38-47 | a validation error reads "validation error: " followed by its reason; `ErrNotFound` reads "product not found"; a repository error keeps its own text |
| `Service.ValidateProduct` | internal/service/product_service.go:36-50 | passes exactly when the name is non-empty and at most 500 bytes, the description at most 2000 bytes and the price at least 0; an empty name is reported whatever else is wrong; each later reason fires exactly when the checks before it pass |
| `Service.PriceBoundary` | internal/service/product_service.go:46-48 | price -1 is rejected as negative and price 0 passes |
| `Service.TranslateNotFound` | internal/service/product_service.go:61-64 | the repository's not-found becomes `ErrNotFound`; every other error passes through unchanged |
| `Service.ProductService.GetAllProducts` | internal/service/product_service.go:32-34 | the result is the repository's listing (possibly cut short by `rows.Next()`) or its error, the same for every limit and offset: no clamping here |
| `Service.ProductService.GetProductByID` | internal/service/product_service.go:59-65 | a present id gives its row; an absent id gives `ErrNotFound`; a driver fault passes through |
| `Service.ProductService.CreateProduct` | internal/service/product_service.go:52-57 | an invalid product gets its validation error and storage is untouched; a valid one is stored under a fresh id; a store of valid products stays valid |
| `Service.ProductService.UpdateProduct` | internal/service/product_service.go:67-72 | an invalid product gets its validation error and storage is untouched; the repository's not-found comes back untranslated; otherwise only that row is replaced |
| `Service.ProductService.DeleteProduct` | internal/service/product_service.go:74-80 | an absent id gives `ErrNotFound` with storage untouched; otherwise exactly that id is removed |
| `Service.ProductService.CreateGetDeleteGet` | internal/service/product_service.go:52-80 | a valid product that was just created reads back unchanged, with the new id; after it is deleted it reads as `ErrNotFound`; the table ends as it began |
| `Handlers.ParseLimitOffset` | internal/handlers/product_handler.go:126-143 | the limit is always in [1,500]: a positive number up to 500 is kept, a larger one becomes 500, anything else gives 100; the offset is always at least 0: a non-negative number is kept, anything else gives 0 |
| `Handlers.ParseLimitOffsetExamples` | internal/handlers/product_handler.go:127-141 | no query gives (100, 0); limit=0 gives 100; limit=10000 gives 500; offset=-5 gives 0 |
| `Handlers.ParseID` | internal/handlers/product_handler.go:145-157 | succeeds exactly when the path value reads as an integer above 0; otherwise the answer is 400 "invalid product id" |
| `Handlers.ParseIDItoa` | internal/handlers/product_handler.go:145-157 | every positive id written in decimal is accepted as itself |
| `Handlers.CreateFailure` | internal/handlers/product_handler.go:52-59 | a validation error is 400 with the error's text; every other error is the fixed 500 |
| `Handlers.LookupFailure` | internal/handlers/product_handler.go:70-77 | `ErrNotFound` is 404 "product not found"; every other error is the fixed 500 |
| `Handlers.UpdateFailure` | internal/handlers/product_handler.go:93-104 | 400 exactly for validation errors, 404 exactly for `ErrNotFound`, and 500 with no detail exactly for the rest |
| `Handlers.UpdateOfAbsentIdIsInternal` | internal/service/product_service.go:71 | the repository's not-found has the same text as `ErrNotFound`, yet the update handler answers 500 for it |
| `Handlers.ProductHandler.GetAll` | internal/handlers/product_handler.go:34-43 | the fixed 500 on a query or scan failure; otherwise 200 with the distinct stored rows the repository read, every stored row when the read did not stop early |
| `Handlers.ProductHandler.Create` | internal/handlers/product_handler.go:45-62 | bad JSON or invalid input is 400 and storage is untouched; a fault is 500; otherwise 201 with the body stored under a fresh id |
| `Handlers.ProductHandler.GetByID` | internal/handlers/product_handler.go:64-80 | a bad id is 400, an absent id 404, a fault 500; otherwise 200 with the stored row |
| `Handlers.ProductHandler.Update` | internal/handlers/product_handler.go:82-107 | a bad id or bad JSON is 400; the path id replaces the body's id; invalid input is 400; a fault or an absent id is 500; otherwise 200 and only that row changes |
| `Handlers.ProductHandler.Delete` | internal/handlers/product_handler.go:109-124 | a bad id is 400, an absent id 404, a fault 500, all with storage untouched; otherwise 204 with no body and exactly that id removed |
| `Config.ConfigError.Error` | internal/config/config.go:47-53 | every configuration error reads "invalid config", a line break, then its reason |
| `Config.ConfigErrorTextsDistinct` | internal/config/config.go:47-53 | two configuration errors have the same text exactly when they are the same error |
| `Config.GetEnv` | internal/config/config.go:61-66 | a variable that is set wins, even when empty; otherwise the default |
| `Config.CheckRequired` | internal/config/config.go:45-54 | passes exactly when the host is non-empty and the port reads as an integer; an empty host is reported first, then an empty port, then a non-numeric port |
| `Config.NormalizeServerPort` | internal/config/config.go:55-57 | an empty or ':'-prefixed address is kept; any other gets ':' in front; a non-empty result always starts with ':' |
| `Config.NormalizeServerPortIdempotent` | internal/config/config.go:55-57 | normalising twice is the same as normalising once |
| `Config.DefaultsPass` | internal/config/config.go:35-36 | the default host "localhost" and port "5432" pass the checks |
| `Config.Config.Validate` | internal/config/config.go:45-59 | reports the first failing check; on success it normalises the listen address; no other field can change |
| `Config.New` | internal/config/config.go:30-43 | no Config when validation fails; otherwise each field is its variable or its default; with no variables set: postgres/postgres/postgres/localhost/5432/:8081 |
| `MemoryServer.ProductStore.constructor` | main.go:18-21 | the store starts empty, with the counter at 1 |
| `MemoryServer.ProductStore.ProductsHandler` | main.go:41-68 | GET answers the list unchanged; a POST of valid JSON appends one product carrying the old counter and adds exactly 1 to the counter, keeping earlier entries in order; ids stay strictly increasing (the i-th is i+1); bad JSON is 400 and other methods 405, with no change |
| `MemoryServer.DummyProduct` | main.go:84-89 | the made-up product carries the asked id and price 500 |
| `MemoryServer.GetProductHandler` | main.go:70-93 | a method other than GET is 405; a non-integer id is 400; otherwise 200 with the dummy product for that id, whatever is stored |
| `MemoryServer.GetProductHandlerAnyId` | main.go:76-92 | every integer id, including 0 and negatives, gets the dummy product |

## Notes on the source

- The service's listing (internal/service/product_service.go:33) passes
  `limit` and `offset` to the repository. The repository's `GetAll`
  (internal/repository/product_repository.go:11, 26) takes no such
  arguments, and its SQL has no ORDER BY, LIMIT or OFFSET. The model's
  listing therefore ignores the page and promises no order. Bounding the
  page happens only in the handler's `parseLimitOffset`, not in the
  service.
- `GetProductByID` and `DeleteProduct` compare errors with
  `repository.ErrNotFound` (internal/service/product_service.go:61, 76).
  The repository package does not declare that name. It returns a fresh
  `errors.New("product not found")` each time
  (internal/repository/product_repository.go:56, 71, 84). The model gives
  the repository a distinct `ProductNotFound` variant, and Get and Delete
  translate it to `ErrNotFound`, which is what that code is evidently meant
  to do.
- `UpdateProduct` (internal/service/product_service.go:71) returns the
  repository's error as it is. The repository's not-found is a different
  error value from the service's `ErrNotFound`, even though both print
  "product not found". So the 404 branch of the update handler
  (internal/handlers/product_handler.go:98-100) never fires, and a PUT to an
  absent id answers 500. The model keeps this behaviour: see
  `Handlers.UpdateOfAbsentIdIsInternal` and `Handlers.ProductHandler.Update`.
- The repository's listing never calls `rows.Err()`
  (internal/repository/product_repository.go:35-42). When `rows.Next()`
  stops early because of a driver error, the rows read so far come back
  with no error, and the handler answers 200 with a short list. The model
  takes that stop as the `nextStop` parameter and keeps the behaviour.
- In `main.go`, a POST answers 200 (the default status) with the whole
  list, not 201 with the new product.

## Left out

- JSON decoding and encoding. A handler receives the decoded product, or
  `None` when decoding fails. A response body is kept as data. An empty
  listing is the empty sequence, although Go encodes its nil slice as
  `null`.
- Response headers (`Content-Type`), `slog` logging, and `context`
  cancellation and timeouts. These are I/O.
- Writes through `*Product` (`p.ID = ...` in the repository's Create and in
  the handlers) are modelled as the updated product being returned.
- `RowsAffected` errors, which the repository discards
  (internal/repository/product_repository.go:69, 82).
- Partial effects of a failing statement. A driver fault means no row was
  written.
- `Repository.ProductRepository.GetAll`: the database's row order is
  modelled as an arbitrary choice, so no ordering is claimed.
- `MemoryServer.ProductStore.ProductsHandler`: the counter is an unbounded
  integer. Go's `int` would overflow after 2^63-1 posts.
- Concurrent requests. The model runs them one at a time; the package-level
  list in `main.go` is not synchronised in the source.
- `homeHandler`, `healthHandler`, `main`, `RegisterRoutes`,
  `NewProductHandler` (its default logger) and `config.LoadEnv` (.env
  loading). These are wiring and I/O with no rules to state.
- cmd/main.go, internal/database/db.go, docs/docs.go, exapmle/main.go,
  internal/handlers/product.go and internal/handlers/handlers.go are not
  part of this model. They cover process lifecycle, connection setup, a
  static API description, a toy server, and an earlier iteration that
  duplicates the repository and handlers.
