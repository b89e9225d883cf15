# naro-backend request handlers, modelled in Dafny

This project models the request-handling layer of a small web service. The service serves a
world dataset of countries and cities and has a username/password login backed by server-side
sessions. The model covers six endpoints and the auth middleware:

- `GET /cities/{cityName}` looks up one city by name.
- `POST /cities` inserts a city and echoes it back with its new identity.
- `POST /signup` validates the form, checks that the username is free, hashes the password and
  inserts the user.
- `POST /login` validates the form, looks the user up, compares the password with the stored
  hash and records the user name in the session.
- The auth middleware refuses requests whose session has no user name. `GET /me` answers with
  the session's user name.
- `GET /world/{countryName}/{cityName}` has three branches:
  - it lists every country name in ascending order;
  - it lists a country's city names in ascending order, fetching one row per offset;
  - it shows one city of a country.

The relational store is an in-memory abstraction (module `Store`):
- `users` is a map from username to stored hash.
- `city` is a sequence of rows in identity order, with an identity counter.
- `country` is a sequence of (code, name) rows.

Each SQL statement becomes one function, or one method if it writes. Whether a statement fails
is an input: `failing` is the set of store calls that report an error other than "no rows", so
every 500 path can be stated. The password hash is a pair of functions, `hash` and `verify`,
with one assumed property (`Credentials.Sound`): a password verifies against its own hash. The
salt is a parameter. A hash that fails to compute is `None`.

Several other inputs are parameters as well:
- Request binding is `Option`: `None` means the body could not be bound.
- A failure to fetch the session is a boolean.
- The session is a `Session` object whose only entry is `userName`.

Handlers run one at a time, and each runs as a single atomic step.

Modules:
- `Wrappers` holds `Option`.
- `Ordering` holds the character-wise order of `ORDER BY Name ASC` and the ascending view of a
  list of names.
- `Store` holds the tables and data access.
- `Handler` holds the records, responses, session, middleware and handlers.
- `Flows` holds the sequences across handlers and the properties of the world listings.

Behaviours of the code worth knowing:
- A world listing is ascending but not necessarily strictly ascending: duplicate names appear
  as often as their rows do.
- The "no rows" checks after `count(*)` and inside the offset loops cannot fire when a request
  runs atomically. The model proves those branches dead.
- Creating a city and reading it back by name returns the posted fields only when no other
  row has that name. Otherwise it returns some row with that name: the query has no
  `ORDER BY`, and the model takes the earliest in table order.
- A row with a NULL name among a country's cities makes the `allCities` listing fail with 500.
  MySQL sorts NULL first, and a NULL cannot be scanned into a Go string.

## Model

| member | source | states |
|---|---|---|
| Handler.Handler.constructor | handler/handler.go:19-21 | the handler keeps the store it is given |
| Handler.Handler.GetCityInfo | handler/handler.go:39-53 | 200 with a row of that name exactly when the query succeeds and such a row exists; 404 exactly when no row has that name; 500 exactly when the query fails; no body except on 200 |
| Handler.Handler.PostCity | handler/handler.go:55-78 | an unbindable body gives 400 "bad request body" and changes nothing; a failed insert gives 500 and changes nothing; otherwise the city table grows by exactly one row carrying the input's fields and the next identity, and the answer is 201 with the input under that identity, or 500 if the identity cannot be read; the identity invariant is kept and the other tables are untouched |
| Handler.Handler.SignUp | handler/handler.go:85-127 | 400 for an unbindable body or an empty username or password, before any store call; 500 if the count fails; 409 "Username is already used" if the name exists; 500 if hashing or the insert fails; 201 exactly otherwise, adding one user whose stored hash verifies against the password; on every non-201 outcome the users table is unchanged and no other table ever changes |
| Handler.Handler.Login | handler/handler.go:134-177 | 400 for an unbindable body or empty fields; 500 if the user lookup fails; 401 for an unknown user or a verify mismatch; 500 for a malformed hash or a session fault; 200 otherwise, leaving the session's user name equal to the request's; on any non-200 outcome the session is untouched |
| Handler.UserAuthMiddleware | handler/handler.go:179-192 | a session fault gives 500; a session without a user name gives 401 "please login" without calling the next handler; otherwise the next handler's answer for the session's user name |
| Handler.MeAnswersSessionUser | handler/handler.go:186-202 | states the behaviour of `Handler.GetMe` behind the middleware: `/me` gives 200 exactly when the session holds a user name, and the body is that name; otherwise 401 "please login" |
| Handler.Handler.GetWorld | handler/handler.go:204-292 | `allCountries` gives the country listing; otherwise a failed country-code lookup gives 500 and an unknown country gives 404 before any city query; `allCities` then gives that country's city listing; any other name gives 200 with a city matching both the code and the name, 404 exactly when none matches, and 500 exactly when that query fails |
| Handler.Handler.ListCountries | handler/handler.go:219-239 | 200 exactly when the count and every offset query succeed, with the names in ascending order; 500 otherwise |
| Handler.Handler.ListCities | handler/handler.go:241-270 | 200 exactly when the count succeeds, every offset query succeeds and no city of the country has a NULL name, with the non-NULL names in ascending order; 500 otherwise |
| Store.FirstWhere | handler/handler.go:43 | a single-row read returns nothing exactly when no row matches, and otherwise some matching row (the query has no `ORDER BY`; the model takes the earliest in table order) |
| Store.Database.CityNamed | handler/handler.go:43-46 | a failure exactly when the call fails; no rows exactly when no city has that name; otherwise a city of the table with that name |
| Store.Database.InsertCity | handler/handler.go:63-67 | on success appends the input's four columns under the next identity and advances the counter; on failure changes nothing; keeps identities positive and ascending |
| Store.Database.LastInsertId | handler/handler.go:69-73 | the identity the latest insert received, unless the call fails |
| Store.Database.UserCount | handler/handler.go:99-104 | a positive count exactly when the username is present; never "no rows" |
| Store.Database.InsertUser | handler/handler.go:118-124 | on success maps the username to the stored hash, otherwise changes nothing; no other table changes |
| Store.Database.UserNamed | handler/handler.go:148-157 | the user and its stored hash; "no rows" exactly when the username is absent |
| Store.Database.CountryTotal | handler/handler.go:220 | the number of countries; never "no rows" |
| Store.Database.CountryNameAt | handler/handler.go:229 | the name at that offset of the ascending view; "no rows" exactly when the offset is past the last country |
| Store.Database.CountryCodeOf | handler/handler.go:242 | the code of a country with that name; "no rows" exactly when no country has that name |
| Store.Database.CityTotalIn | handler/handler.go:250 | the number of cities with that country code |
| Store.Database.CityNameAt | handler/handler.go:259 | NULL names come first and fail to scan; the remaining offsets give the ascending non-NULL names; "no rows" exactly past the last city of the country |
| Store.Database.CityIn | handler/handler.go:280 | a city with both that code and that name; "no rows" exactly when there is none |
| Store.NamedRowsMembers | handler/handler.go:259 | a name is listed for a set of rows exactly when one of them has that name |
| Ordering.SortedNamesAscending | handler/handler.go:229 | the ascending view is in ascending order |
| Ordering.SortedNamesPermutation | handler/handler.go:229 | the ascending view holds exactly the input names, duplicates included |
| Ordering.SortedNamesUnique | handler/handler.go:229 | any ascending arrangement of the names equals the view, so element i is the i-th name in ascending order |
| Flows.SignUpLoginMe | handler/handler.go:85-201 | signup of a new user gives 201; signing up again gives 409; login with the same password gives 200; `/me` then answers with that user; a session that never logged in gets 401 |
| Flows.PostThenGet | handler/handler.go:39-78 | posting a city under an unused name gives 201 with a positive identity; reading it back by name returns exactly the posted fields under that identity |
| Flows.AllCountriesListing | handler/handler.go:219-239 | a successful country listing has one entry per country, is ascending, and holds exactly the country names |
| Flows.AllCitiesListing | handler/handler.go:241-270 | a successful city listing has one entry per city of the country, is ascending, holds each name as often as the country's cities carry it, and contains a name exactly when a city of that country has it |

## Left out

- SQL text, sqlx row mapping and the MySQL driver are replaced by the abstract store. Each
  statement becomes one function or method over the tables.
- MySQL's default collation is not modelled. Names are compared by exact equality and
  character-wise order; the server compares case-insensitively.
- bcrypt's algorithm, cost factor and salt generation are not modelled. Hashing and verifying
  are opaque functions with one assumed property. The salt is a parameter.
- Handler.Handler.Login: it does not state that a wrong password gives 401. It states 401 exactly
  when `verify` reports a mismatch, because the model assumes nothing about how bcrypt treats a
  password other than the hashed one.
- Echo request binding is reduced to "bound or not". JSON encoding, `omitempty` and the `sql.Null*`
  serialisation are left out. An empty world listing is a nil Go slice, which is encoded as
  `null`; the model shows it as an empty list.
- Cookie persistence through `sess.Save` is left out, and so is its ignored error.
- `log` and `println` output is left out.
- Concurrency is left out. Handlers are atomic steps, so the check-then-insert race in signup is
  not represented. The users table is a map and cannot hold two rows with one username.
- The middleware's `.(string)` assertion and `GetMe`'s `c.Get("userName").(string)` cannot fail
  here, because the session entry is typed as an optional string.
- Store.Database.InsertCity: a failed insert leaves `nextId` unchanged, while MySQL may use up
  an `AUTO_INCREMENT` value on a failed insert, so later identities can have gaps the model
  does not produce.
- Integer widths are not modelled: Go's `int`/`int64` conversions of the identity and the
  population, and the database column types. Values are unbounded integers.
