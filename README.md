# RANS marketplace server: a Dafny model of its decision logic

RANS is a small marketplace: a Rust (axum) server over an ArangoDB document
database, and a Svelte client. Most of the server passes requests straight
through to the database. This project models the parts that make decisions,
and proves what they do:

- **Session tokens and the auth gate** (`jwt.dfy`). This covers the claims
  of an issued token (subject, issue time, expiry 15 minutes later). It covers
  the reduction of a decode result to valid, `ExpiredSignature` or
  `InvalidToken`, and the token refresh route. It also covers
  `jwt_middleware`, modelled as a total function from the configuration
  outcome, the raw `Authorization` header and the token decoder to a
  `Decision`: run the handler, reject with 401, or fail with 500.
- **Configuration classification** (`toml_env.dfy`). This covers the
  environment, log level and host readers, the derived database URL, and the
  CORS origin list.
- **Order placement** (`orders.dfy`). `add_order` is a method on a
  `Database` object that holds the item and order collections. It is proved
  against `PlaceOrder`, a specification function. Each database step's
  outcome is a parameter, so every branch can be taken, including the
  partial failure where the order is logged but the stock update fails.
  `get_orders` is modelled as a filter.
- **Login and signup** (`auth.dfy`). bcrypt's `verify` is a function
  parameter. The outcome of its salted `hash` is a value parameter.
- **`objectDifference`** from the client (`object_diff.dfy`). It is a method
  that writes into the caller's `JsObject` in place. It is proved against a
  declarative definition, `Difference`.

Shared pieces sit in their own modules. `models.dfy` holds the records of
`api.rs`/`models.rs` and the `Database` class. `text.dfy` holds ASCII case
folding, `split_whitespace` and decimal numerals. `wrappers.dfy` holds
`Option`/`Result`.

External collaborators become parameters:

- the jsonwebtoken crate: `Encoder` and `Decoder`;
- bcrypt: `Verifier`, plus the hash outcome;
- the clock: `now` and `date`;
- the database's answers: a lookup error, an `InsertOutcome`, an update
  error, a query error;
- reading the configuration file: a `Result<Config, string>`.

## Behaviour of the code worth knowing

- `add_order` *sets* the item's stock to the client's `quantity_diff`. It
  does not subtract the ordered quantity. The stock can therefore grow or go
  negative (`Orders.StockIsClientSupplied`). A negative ordered quantity
  passes the stock check whenever it does not exceed the stock, in
  particular whenever the stock is not negative
  (`Orders.NegativeQuantityAccepted`). Only when the
  client sends `stock - quantity` does the stock fall by exactly the ordered
  amount and stay non-negative (`Orders.HonestDiffDecrements`,
  `Orders.HonestDiffConserves`).
- The check and the two writes are separate database calls with no
  isolation. The order insert and the stock update are not atomic. When the
  update fails, the order stays and the caller gets a generic 500.
- Login and signup answer with the stored user only; no token is issued
  there. Signup stores no role, so a new user reads back with the default
  role `CUSTOMER`.
- Every token lives 15 minutes; the lifetime is a constant in the code.
- The refresh route issues a token for any email that has a user, and asks
  for no credential (`Jwt.RefreshWithoutCredential`). When signing succeeds
  but no user matches, it still answers 500.
- Any environment text other than a case variant of `production` reads as
  DEV, and DEV switches the gate off (`Jwt.UnrecognisedEnvOpensGate`).

## Model

| member | source | states |
|---|---|---|
| `Jwt.AsUsize` | server/src/requests/jwt.rs:37-38 | the `as usize` cast of a timestamp keeps non-negative values and adds 2^64 to negative ones |
| `Jwt.IssueClaims` | server/src/requests/jwt.rs:35-39 | `sub` is the given subject; for `now >= 0`, `iat == now` and `exp == iat + 900`; just before 1970 the cast makes `exp < iat` |
| `Jwt.GenerateJwt` | server/src/requests/jwt.rs:33-41 | the token is the encoder's result on exactly those claims and the given secret |
| `Jwt.ValidateJwt` | server/src/requests/jwt.rs:43-61 | never `Ok(false)`; `Ok` iff decoding succeeds; `ExpiredSignature` is kept iff the decoder reported it; every other error becomes `InvalidToken` |
| `Jwt.Refresh` | server/src/requests/jwt.rs:74-115 | 200 iff signing succeeds and a user has the email, with the first such user and the new token; no user gives 500 "no user found" although signing succeeded; a signing error gives 500 |
| `Jwt.RefreshWithoutCredential` | server/src/requests/jwt.rs:74-102 | anyone naming an existing user's email gets 200 and a token signed for that email |
| `Jwt.ValidateJwtRoute` | server/src/requests/jwt.rs:117-131 | 200 with `true` iff the token decodes, otherwise 401 "Invalid JWT Token" |
| `Jwt.HeaderToStr` | server/src/requests/jwt.rs:148-151 | header bytes become text iff every byte is visible ASCII or a tab, keeping every byte |
| `Jwt.BearerToken` | server/src/requests/jwt.rs:153-155 | the token is a whitespace-free word; there is none iff the header has fewer than two words; which word it is, is stated by `Jwt.BearerTokenOfHeader` |
| `Jwt.BearerTokenOfHeader` | server/src/requests/jwt.rs:154 | in `pad scheme sep token rest` the token is the second word, whatever the scheme, whatever whitespace pads and separates the words, and whatever follows |
| `Jwt.JwtMiddleware` | server/src/requests/jwt.rs:133-172 | config failure gives 500; DEV always runs the handler; the handler runs iff the config is read and either DEV holds or the header's second word decodes under the configured secret; once the config is read, every refusal is 401 |
| `Jwt.MissingHeaderRejected` | server/src/requests/jwt.rs:148-158 | outside DEV, a missing or non-text header gives 401 |
| `Jwt.ShortHeaderRejected` | server/src/requests/jwt.rs:153-170 | outside DEV, a header with fewer than two words gives 401 |
| `Jwt.GateDecidesOnSecondWord` | server/src/requests/jwt.rs:153-171 | outside DEV, for a header `scheme token ...` with any whitespace around the words, the handler runs iff `token` decodes under the configured secret; otherwise 401 |
| `Jwt.UnrecognisedEnvOpensGate` | server/src/requests/jwt.rs:142-144 | when the env text is not a case variant of "production", every request passes the gate |
| `Text.LowercaseEqualsIff` | server/src/toml_env.rs:115 | lower-casing a text gives a lower-case name iff the text is a case variant of that name |
| `Text.Lowercase` | server/src/toml_env.rs:115 | `to_lowercase` has the text's length, lowers each character on its own, and leaves no upper-case letter |
| `Text.Words` | server/src/requests/jwt.rs:154 | `split_whitespace` yields only non-empty words without whitespace; `Text.WordsOfBlank` and `Text.WordsOfFirstWord` fix which words |
| `Text.WordsOfUnwords` | server/src/requests/jwt.rs:154 | splitting space-joined words gives back exactly those words |
| `Text.WordsSkipLeadingWhitespace` | server/src/requests/jwt.rs:154 | leading whitespace does not change the words |
| `Text.WordsOfBlank` | server/src/requests/jwt.rs:154 | text of whitespace only has no words |
| `Text.WordsOfFirstWord` | server/src/requests/jwt.rs:154 | after any leading whitespace, a word ending at whitespace or at the end is the first word, the rest split likewise |
| `Text.FormatNat` | server/src/toml_env.rs:39 | a number prints as non-empty decimal digits, with no leading zero, whose value is the number |
| `Text.CanonicalDigits` | server/src/toml_env.rs:103 | digits without a leading zero are exactly how their value prints |
| `TomlEnv.DeserializeEnv` | server/src/toml_env.rs:109-122 | PROD iff the text is a case variant of "production"; DEV otherwise, including "development" in any case and the empty text |
| `TomlEnv.UnrecognisedEnvIsDev` | server/src/toml_env.rs:118 | text that names neither environment reads as DEV |
| `TomlEnv.DevProdPartition` | server/src/toml_env.rs:131-137 | `is_dev` holds iff `is_prod` does not |
| `TomlEnv.EqualityAgrees` | server/src/toml_env.rs:139-145 | `is_equal` and `compare` are enum equality, hence reflexive and symmetric |
| `TomlEnv.DeserializeLogLevel` | server/src/toml_env.rs:50-66 | a case variant of a level's name gives that level; any level other than Info comes only from its name |
| `TomlEnv.LogLevelRoundTrip` | server/src/toml_env.rs:55-61 | each of the six names reads back as its level |
| `TomlEnv.ParseIpAddr` | server/src/toml_env.rs:103 | whatever parses is the canonical written form of the IPv4 address it gives, so leading zeros, missing or extra groups and padding are refused |
| `TomlEnv.DeserializeHost` | server/src/toml_env.rs:98-107 | never an error; a parsed address is kept; text that does not parse gives 0.0.0.0 |
| `TomlEnv.DeserializeHostRoundTrip` | server/src/toml_env.rs:103-104 | every dotted-quad IPv4 address, written out, reads back as itself |
| `TomlEnv.HostNameFallsBack` | server/src/toml_env.rs:105 | any text without a dot, such as a host name like "localhost", gives 0.0.0.0 |
| `TomlEnv.DatabaseConfig.GetUrl` | server/src/toml_env.rs:37-41 | the port follows the host and a colon as its canonical decimal (no leading zero); splitting the URL at its last colon gives back the host and the port |
| `TomlEnv.ServerConfig.AllowOrigins` | server/src/toml_env.rs:84-95 | no origins give no list; otherwise one header value per origin, with the same text, in order |
| `Auth.UsersWithEmail` | server/src/requests/auth.rs:29-32 | the result is exactly the users with the email; its first element is the first such user in the collection |
| `Auth.HandleLogin` | server/src/requests/auth.rs:25-45 | 200 with the first matching user iff one exists and `verify` returns `Ok(true)` on its stored hash; every other case is 400 "Email and/or password are wrong" |
| `Auth.NoCredentialOracle` | server/src/requests/auth.rs:34-43 | an unknown email and a wrong password get identical responses |
| `Auth.VerifyErrorIsMismatch` | server/src/requests/auth.rs:39 | a `verify` error gives the same 400 as a wrong password |
| `Auth.NewUser` | server/src/requests/auth.rs:58-73 | the stored document holds the hash as its password and the given email |
| `Auth.HandleSignup` | server/src/requests/auth.rs:47-90 | a hashing error gives 500 and inserts nothing; an insert error gives 400 "Email is already associated with another user"; an empty insert result gives 500; success appends the new user and returns it; every added user holds the hash |
| `Auth.LoginAfterSignup` | server/src/requests/auth.rs:37-40 | after a signup with a fresh email, logging in with the same password returns the new user, provided bcrypt accepts its own hash |
| `Orders.LookupItem` | server/src/requests/orders.rs:91-93 | the lookup succeeds iff there is no transport error and the key exists; it then returns that item |
| `Orders.NewOrder` | server/src/requests/orders.rs:111-129 | the order carries the request's user, item, item name, quantity and price, plus the captured date |
| `Orders.WithStock` | server/src/requests/orders.rs:137-143 | the update replaces the stock and keeps every other field |
| `Orders.PlaceOrder` | server/src/requests/orders.rs:79-168 | a lookup error gives 500 and no writes; `quantity > stock` gives 400 "Order quantity exceeds item quantity" and no writes; an insert error gives 400 and an empty insert 500, both with no writes; once inserted, the order stays logged; an update error then gives 500 with the stock unchanged; 200 iff all steps succeed, and then the stock is `quantity_diff` |
| `Orders.AddOrder` | server/src/requests/orders.rs:79-168 | the method's response and new collections are those of `PlaceOrder`; users are untouched |
| `Orders.HonestDiffDecrements` | server/src/requests/orders.rs:96-141 | if `quantity_diff = stock - quantity`, a success leaves a stock that is not negative and lower by exactly the ordered quantity |
| `Orders.StockIsClientSupplied` | server/src/requests/orders.rs:139-143 | whenever the order passes the check and the writes succeed, the new stock is the client's `quantity_diff`, whatever its relation to the old stock and the quantity |
| `Orders.NegativeQuantityAccepted` | server/src/requests/orders.rs:96 | a negative quantity not above the stock passes the check; with the writes succeeding, it is placed, logged and answered with 200 |
| `Orders.HonestDiffConserves` | server/src/requests/orders.rs:96-143 | with honest diffs, the total ordered plus the stock of an item is the same after a success |
| `Orders.PlacementKeepsReferences` | server/src/requests/orders.rs:92-136 | if every logged order names an existing item, that still holds afterwards |
| `Orders.SequentialOrdersScenario` | server/src/requests/orders.rs:92-143 | with stock 5, a first order of 3 succeeds and leaves 2; a second order of 3 is refused with 400 and writes nothing |
| `Orders.OrdersOf` | server/src/requests/orders.rs:47-53 | the result holds exactly the orders with the user id |
| `Orders.GetOrders` | server/src/requests/orders.rs:40-67 | a query error gives 500; 200 iff the user has an order, with exactly the user's orders; otherwise 404 "No orders found" |
| `ObjectDiff.ToMap` | client/src/utils/utils.ts:2 | the object built from the entries has exactly the entries' keys, and, keys being distinct, each key holds its entry's value |
| `ObjectDiff.StrictEqualsLaws` | client/src/utils/utils.ts:3 | `===` is symmetric, holds only between equal values, fails exactly for NaN against itself, and equates +0 with -0 |
| `ObjectDiff.Difference` | client/src/utils/utils.ts:1-8 | a key whose values differ (`!==`) maps to the second object's value; a default not overwritten is kept; no other key appears, so keys only in `first` appear only if they are defaults |
| `ObjectDiff.ObjectDifference` | client/src/utils/utils.ts:1-8 | returns the `defaultValues` object itself, changed in place so that its properties are `Difference` of the inputs and its old properties |
| `ObjectDiff.SelfDifference` | client/src/utils/utils.ts:3 | diffing an object against itself with no defaults keeps exactly its NaN-valued keys |
| `ObjectDiff.SelfDifferenceEmpty` | client/src/utils/utils.ts:1-7 | an object without NaN values diffs against itself to `{}` |

## Left out

- Reading and parsing the TOML file (`Config::parse`). Its outcome is an input to the gate.
- `ServerConfig::socket_addr` is not modelled. It only pairs the host with the port.
- IPv6 host text is not parsed. The model reads such text as unparsable, so it falls back to 0.0.0.0 where the server would keep the IPv6 address.
- `to_lowercase` is modelled on ASCII letters only. For comparisons with the ASCII names in `toml_env.rs` this gives the same result. The only non-ASCII characters that lower-case into ASCII are the Kelvin sign (to `k`) and U+0130 (to `i` plus a combining mark). None of the names contains `k` or a combining mark.
- TomlEnv.ServerConfig.AllowOrigins: requires every origin to be valid header text, because the source panics on `unwrap` otherwise. The check `AllowOrigin::list` makes against a `*` origin is library code and is not modelled.
- The jsonwebtoken and bcrypt crates are function parameters or outcomes. HS256, expiry leeway and salting are not modelled.
- Jwt.IssueClaims: takes one clock reading for both `iat` and `exp`. The source reads the clock twice, so across a second boundary its `exp` can be `iat + 901`.
- Jwt.Refresh: for a signing error, only the message prefix "Error generating token: " is stated. The library's error text is not modelled.
- The user queries in `handle_login` and `refresh` `unwrap` the database result. A database error there panics, and that is not modelled: the model assumes the query answered.
- Orders.PlaceOrder: `add_order` also `unwrap`s the handle of the `Item` collection, at orders.rs:91 and orders.rs:137; the model assumes both handles are obtained. A database error at orders.rs:91 panics before anything is written. A database error at orders.rs:137 panics after the order is inserted: the order stays logged, the stock is not updated and no response is sent. That is a second partial failure that `PlaceOrder` and `AddOrder` do not capture.
- AQL `FOR ... FILTER` returns documents in collection order in this model. The database does not promise any order.
- The database's new `_rev` after a stock update is not modelled. Only the quantity changes.
- The `bind_vars` maps are not modelled as maps. The handlers build the record that they describe directly.
- Concurrency is not modelled. Each call is one sequential step. The source gives no isolation between the stock check and the writes, so nothing is claimed about overdrawing under interleaved requests.
- Prices are kept as `f64` bit patterns and only copied. The order date is a parameter standing for `Local::now()`.
- objectDifference: the key order of the resulting object is not modelled. Neither are lookups that `first[k]` makes through the prototype chain (for example `"toString"`) or the special key `__proto__`. The omitted `defaultValues` argument corresponds to passing a fresh empty `JsObject`.
- Logging (`eprintln!`, `logs.rs`), routing (`routes.rs`), `items.rs` CRUD, database setup, client network wrappers and stores, and `formatNumberLiteral` (floating-point formatting) are not part of this model.
