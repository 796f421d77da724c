# userie — request decisions, validation, id counter and configuration

userie is a small Go HTTP service offering create/read/update/delete on
"user" documents stored in Elasticsearch. Most of it is plumbing around the
search engine. This Dafny project models the parts that make decisions:

- **User validation** (`Users`). `(*User).Validate` is a chain of seven
  checks that stops at the first failure: nil user, id, name, dob, address,
  description, ctime. The clock `time.Now().Unix()` is a parameter. It is
  truncated to `int32` as the source does.
- **Id counter** (`Counter`). `SafeCounter.GetCount` is a 64-bit `count++`
  followed by `fmt.Sprintf("%d", …)`. The mutex makes each call atomic, so
  calls are modelled as a sequence. The counter's one use, stamping a new
  document's id in the store's create, is modelled as well.
- **Configuration** (`Configuration`). This covers the three-field
  `Validate`, the environment variable names, and the getters that fall
  back to a default. It also covers the step of `SetConfig` that writes a
  valid configuration into the environment. The environment is a
  `map<string, string>`. An unset variable reads as `""`, as with `os.Getenv`.
- **HTTP handlers** (`ApiUser` for api/user.go, `HandlerUser` for the
  older handler/user.go). Each handler is a pure function. Its inputs are
  its request parameters and the answer the store gives. Its result is the
  sequence of response writes it makes and the store call it issues, if any.
- **Response status** (`Http`). Go's `http.ResponseWriter` lets the first
  write fix the status, and later `WriteHeader` calls are ignored. The
  modelled status follows the same rule. So `CreateUser` answers 200 after
  writing the id, even though it then calls `WriteHeader(201)`; api/user_test.go
  expects exactly this. Likewise the old `GetUser` and `DeleteUser` fall
  through after writing 500, and the client still sees 500.
- **Go integers** (`GoInt`). This covers `int32`/`int` widths, the
  truncating `int32(x)`, `strconv.Atoi`, and decimal rendering. It includes
  the round trip between rendering and parsing.

`api/user.go:70` passes an offset to the store's `GetAll`, but the store's
`GetAll` in dao/elasticsearch/userimpl.go takes only a limit. The model
records the offset the handler passes. `UpdateUser` answers 204 on
success. The update step of api/user_test.go:177-188 expects 200, but it
never reaches `UpdateUser`: its router already serves `GetUser` on the
same path (:169), and the first matching route wins.

## Model

| member | source | states |
|---|---|---|
| `Users.Validate` | models/user.go:18-41 | a nil error implies every field constraint holds (empty id, non-empty name/address/description, dob strictly before and ctime not after the int32-truncated now); a nil user and only a nil user gives "empty user" |
| `Users.Now32` | models/user.go:28 | `int32(time.Now().Unix())`: the reading itself while it fits int32, congruent to it modulo 2^32, and the least int32 at Unix second 2^31 |
| `Users.ValidateIsFirstFailure` | models/user.go:18-40 | Validate reports error e exactly when e's own check fails and every check earlier in the order nil, id, name, dob, address, description, ctime passes |
| `Users.ValidateNilIffValid` | models/user.go:18-41 | a nil error exactly when all seven checks pass |
| `Users.IdCheckedBeforeFields` | models/user.go:22-27 | a non-empty id gives "invalid user id" whatever the other fields hold, an empty name included |
| `Users.TimestampBoundaries` | models/user.go:28-39 | dob equal to now is rejected with the dob error, ctime equal to now is accepted |
| `Users.ClockWrapRejectsEveryDob` | models/user.go:28-30 | at Unix second 2^31 the int32 truncation makes now the least int32, so every user with an empty id and a non-empty name fails on dob |
| `GoInt.WrapInt32` | handler/user.go:43 | `int32(x)` agrees with x modulo 2^32 and is x itself when x fits |
| `GoInt.Increment64` | dao/elasticsearch/safecounter.go:16 | `count++` on a 64-bit int: one more below the top, and congruent to one more modulo 2^64, so the top wraps to the least int |
| `GoInt.FormatInt` | dao/elasticsearch/safecounter.go:17 | `%d` rendering: non-empty, a leading '-' exactly for negative values, digits only after it |
| `GoInt.Atoi` | handler/user.go:38 | a parse succeeds exactly on an optional sign followed by one or more digits whose value fits a 64-bit int, and gives that signed value; "12x", "", "+" and overflows are errors |
| `GoInt.AtoiFormatInt` | dao/elasticsearch/safecounter.go:17 | parsing the `%d` rendering of any 64-bit value gives the value back |
| `GoInt.FormatNonNegative` | dao/elasticsearch/safecounter.go:17 | a non-negative value renders with no sign and no leading zero, and starts with '0' only when it is 0 |
| `GoInt.FormatIntInjective` | dao/elasticsearch/safecounter.go:17 | distinct 64-bit values render as distinct strings |
| `GoInt.CanonicalDigitsUnique` | dao/elasticsearch/safecounter.go:17 | a digit string with no leading zero is the rendering of the number it denotes: the rendering is the only canonical numeral for its value |
| `Counter.GetCount` | dao/elasticsearch/safecounter.go:13-18 | below the top of int the count rises by exactly 1; at the top it wraps to the least int |
| `Counter.GetCountRendersCount` | dao/elasticsearch/safecounter.go:17 | the returned string parses back to the new count, and carries no sign or leading zero while the count is non-negative |
| `Counter.MintCount` | dao/elasticsearch/safecounter.go:16 | n successive calls that stay below the top of int raise the count by exactly n |
| `Counter.MintValues` | dao/elasticsearch/safecounter.go:13-18 | n successive calls raise the count by n and return the renderings of count+1 … count+n, in order |
| `Counter.MintAt` | dao/elasticsearch/safecounter.go:16-17 | the i-th of n successive calls returns the rendering of count+i+1 |
| `Counter.MintParses` | dao/elasticsearch/safecounter.go:13-18 | the i-th of n successive ids parses back to count+i+1 |
| `Counter.MintIncreasing` | dao/elasticsearch/safecounter.go:13-18 | for i < j the i-th and j-th ids parse to count+i+1 < count+j+1, so they are distinct |
| `Counter.MintFromZero` | dao/elasticsearch/safecounter.go:8-17 | a zero-value counter first returns "1", and no id it returns is "0", signed or zero-padded |
| `Counter.StampId` | dao/elasticsearch/userimpl.go:114 | the stored document keeps every submitted field and carries exactly the string `GetCount` returns, which parses to the counter's new value |
| `Configuration.Validate` | models/configuration.go:11-16 | a configuration is valid exactly when endpoint, cluster name and server port are all non-empty |
| `Configuration.EnvOr` | models/configuration.go:30-35 | the variable's value when set and non-empty, the default otherwise; never empty |
| `Configuration.GetElasticEndpoint` | models/configuration.go:30-35 | `elastic_endpoint` when non-empty, otherwise "http://127.0.0.1:9200"; never empty |
| `Configuration.GetClusterName` | models/configuration.go:37-42 | `cluster_name` when non-empty, otherwise "usersg0"; never empty |
| `Configuration.GetServerEndpoint` | models/configuration.go:44-49 | `server_port` when non-empty, otherwise "8080"; never empty |
| `Configuration.Getenv` | models/configuration.go:30-35 | an unset variable reads as "", a set one as its value |
| `Configuration.Setenv` | utilities/configuration.go:30-32 | a value holding a NUL byte, or a key that is empty or holds `=` or NUL, is refused and the environment is unchanged; otherwise the variable reads as the value afterwards and no other variable changes |
| `Configuration.EnvNamesSettable` | models/configuration.go:18-28 | `elastic_endpoint`, `cluster_name` and `server_port` are distinct keys that `os.Setenv` accepts |
| `Configuration.PublishConfig` | utilities/configuration.go:25-32 | an invalid configuration fails with "invalid configuration file"; for a valid one each of `elastic_endpoint`, `cluster_name` and `server_port` reads as its field afterwards, or as before when the field holds a NUL byte (the `os.Setenv` error is ignored); no variable outside the three is added or changed |
| `Configuration.PublishThenGet` | utilities/configuration.go:30-32 | after a valid configuration with no NUL byte in its fields is written to the environment, each getter returns the matching configuration field |
| `Configuration.PublishSkipsNul` | utilities/configuration.go:30-32 | a field holding a NUL byte is silently not written, so its getter returns what it returned before publishing |
| `Configuration.DefaultsWhenUnset` | models/configuration.go:30-49 | with none of the variables set the getters give the three defaults |
| `Http.Status` | api/user.go:165-173 | the first write fixes the status: a header write gives its code, a body write or no write gives 200 |
| `Http.StatusCommitted` | handler/user.go:43-51 | writes after the first never change the status |
| `Http.Intended` | api/user.go:113-127 | the status each outcome is meant to reach the client as: bad input 400, no hit 404, other failures 500, and 200 for a served result, 201 for a new user, 204 for a change; distinct outcomes get distinct statuses and only successes get a 2xx |
| `Http.FirstFailure` | api/user.go:98-127 | a handler's outcome is its first failing step's, and success when every step passes |
| `ApiUser.ParseLimit` | api/user.go:43-55 | the `limit` route variable: absent gives 10; a non-integer is an error; a parsed value of 0 or less becomes 10 and a positive one is kept |
| `ApiUser.ParseOffset` | api/user.go:56-65 | the `offset` route variable: absent gives 0; a non-integer is an error; a negative value becomes 0 and any other is kept |
| `ApiUser.GetAll` | api/user.go:36-82 | the store is called only when the client was built and both parameters parse, and then with exactly the normalised `ParseLimit` and `ParseOffset` values (so limit >= 1, offset >= 0, and (10, 0) when both are absent); otherwise 500; 200 exactly on store success |
| `ApiUser.GetAllNormalisesPaging` | api/user.go:43-70 | limit "5" and offset "7" reach the store as 5 and 7; limit "-3" or "0" becomes 10 and offset "-1" becomes 0; "5x" or a bare "+" is 500 with no store call |
| `ApiUser.GetAllAsIntended` | api/user.go:36-82 | the status is the intended one for the first failing step of: client built, limit parses, offset parses, store answers, with a parse failure reported as 500 |
| `ApiUser.Lookup` | api/user.go:113-121 | the store's "nil hit" and only that is a missing user (404); any other error is a failure (500); a user found passes |
| `ApiUser.GetUserAsIntended` | api/user.go:98-127 | the status is the intended one for the first failing step of: client built (500), id present (400), lookup ("nil hit" 404, other 500), else 200 |
| `ApiUser.GetUser` | api/user.go:98-127 | empty id is 400 with no store call; any other id, "0" included, goes to the store unchanged; "nil hit" is 404, any other store error 500, success 200 |
| `ApiUser.StoreCreate` | dao/elasticsearch/userimpl.go:93-147 | when `CheckInit` reports false no id is minted; otherwise the counter advances as `GetCount` does, the document sent is the user with the id `GetCount` returns, and a successful create returns that id |
| `ApiUser.CreateUser` | api/user.go:139-173 | only a user passing Validate reaches the store, so it has an empty id; a failed validation is 400; success answers 200 because the id is written before `WriteHeader(201)`; a valid create is indexed exactly when the store is ready, as the submitted user with the id `GetCount` returns, and the counter moves on as `GetCount` moves it |
| `ApiUser.CreateUserAsIntended` | api/user.go:139-173 | client built (500), body decoded (500), user valid (400), store create (500) decide as intended; a create that succeeds, meant to be 201, answers 200 |
| `ApiUser.CreateUserAsWritten` | api/user.go:139-160 | with a new store object per request, every document the handler indexes carries the id "1" |
| `ApiUser.AsWrittenCreatesCollide` | dao/elasticsearch/connection.go:15-31 | two valid users created one after the other through the handler as written are both indexed under the same id |
| `ApiUser.SharedCounterCreatesDistinctIds` | dao/elasticsearch/userimpl.go:114 | with the counter shared across requests, two successive creates index under count+1 and count+2, which differ |
| `ApiUser.UpdateUser` | api/user.go:182-207 | a failed validation is 400 before any store call; the store update only ever receives a user with an empty id; store error 500, success 204 |
| `ApiUser.UpdateUserAsIntended` | api/user.go:182-207 | the status is the intended one for the first failing step of: client built (500), body decoded (500), user valid (400), store update (500), else 204 |
| `ApiUser.DeleteUser` | api/user.go:216-236 | empty id is 400 with no store call; any other id goes to the store unchanged; store error 500, success 204 |
| `ApiUser.DeleteUserAsIntended` | api/user.go:216-236 | the status is the intended one for the first failing step of: client built (500), id present (400), store delete (500), else 204 |
| `HandlerUser.PathIdAsWritten` | handler/user.go:38-43 | an id is accepted exactly when it is non-empty, parses and is positive as a 64-bit value, and the store receives that value truncated to int32 |
| `HandlerUser.PathIdAsWrittenWraps` | handler/user.go:38-43 | the path id "2147483648" passes the positivity check and reaches the store as -2147483648 |
| `HandlerUser.PathIdAsWrittenWrapsToZero` | handler/user.go:38-43 | the path id "4294967296" passes the positivity check and reaches the store as 0 |
| `HandlerUser.PathId` | handler/user.go:38-42 | an id is accepted exactly when it is non-empty, parses, is positive and fits int32, and it is passed on unchanged |
| `HandlerUser.PathIdAgreesInRange` | handler/user.go:38-43 | the written and the corrected checks agree on every id that parses within int32 range |
| `HandlerUser.PathIdOfRendering` | handler/user.go:38-42 | the rendering of a positive int32 is accepted as itself; "0" and negative renderings are refused |
| `HandlerUser.GetUserFlow` | handler/user.go:43-51 | once the id is checked: a refused id makes no store call, an accepted one is passed to the store as it is |
| `HandlerUser.UpdateUserFlow` | handler/user.go:82-102 | once the id is checked: the store is called exactly when the id is accepted, the body decoded and the user valid, with that id |
| `HandlerUser.DeleteUserFlow` | handler/user.go:113-121 | once the id is checked: a refused id makes no store call, an accepted one is passed to the store as it is |
| `HandlerUser.GetUser` | handler/user.go:29-52 | an id that is empty, does not parse or is not positive is 400 with no store call; otherwise the store gets the parsed id truncated to int32; a store error is 500 despite the later 200; success 200 |
| `HandlerUser.UpdateUser` | handler/user.go:73-103 | checks run in the order id (400), decode (500), validation (400), store (500), and only then 204; the store gets the parsed id truncated to int32 |
| `HandlerUser.DeleteUser` | handler/user.go:105-122 | a refused id is 400 with no store call; otherwise the store gets the parsed id truncated to int32; a store error is 500 despite the later 204; success 204 |
| `HandlerUser.GetUserAsIntended` | handler/user.go:29-52 | the status is the intended one for the first failing step of: id accepted (400), store lookup (500), else 200 |
| `HandlerUser.UpdateUserAsIntended` | handler/user.go:73-103 | the status is the intended one for the first failing step of: id accepted (400), body decoded (500), user valid (400), store update (500), else 204 |
| `HandlerUser.DeleteUserAsIntended` | handler/user.go:105-122 | the status is the intended one for the first failing step of: id accepted (400), store delete (500), else 204 |
| `HandlerUser.HandlersPassWrappedIds` | handler/user.go:38-43 | path id "2147483648" reaches the store's get as -2147483648, and "4294967296" reaches get, update and delete as 0 |
| `HandlerUser.GetUserChecked` | handler/user.go:38-43 | with the corrected check, the store's get only receives a positive id that the path spells exactly |
| `HandlerUser.UpdateUserChecked` | handler/user.go:82-97 | with the corrected check, the store's update only receives a positive id that the path spells exactly |
| `HandlerUser.DeleteUserChecked` | handler/user.go:113-118 | with the corrected check, the store's delete only receives a positive id that the path spells exactly |
| `HandlerUser.CheckedAgreesInRange` | handler/user.go:38-43 | the corrected handlers give the same reply and store call as the written ones on every path id that parses within int32 range |
| `HandlerUser.ZeroIdRefused` | handler/user_test.go:15-28 | the path id "0" is 400 in all three handlers and reaches no store call |

## Left out

- The store itself. This covers the search, index, update, delete and
  flush calls, the index-exists check, and hit decoding in
  dao/elasticsearch/userimpl.go and connection.go. They are calls into a
  client library with no visible logic. Their answers are handler inputs.
  Only the id stamping and the refusal of create when `CheckInit` reports
  false are modelled.
- `BatchCreate` and its goroutines and wait group. Concurrency is out of
  scope, and the counter is modelled as a sequence of atomic calls.
- dao/dao.go's query-builder maps and the package-level `dao` functions
  that handler/user.go calls. They are never initialised and do not
  compile as shipped. Their outcomes are handler inputs.
- model/user.go. It is the same validation over `float64` nanosecond
  timestamps, and floating point is not modelled. The handler/user.go
  handlers that use it take its outcome as an input.
- `ToString`, tracing spans, logging, the `Content-Type` header, JSON
  encoding and decoding, YAML file reading in `SetConfig`, and main.go
  routing and startup. These are I/O. A decoded request body is an
  `Option<User>`, and `None` is a decode error.
- handler/user.go `CreateUser` and `GetUsers`, handler/users.go and
  handler/handler.go. These are stubs or duplicates that write several
  statuses without returning.
- A failed response-body write. The status is fixed by then, so it cannot
  change the answer.
- Tests that need a live Elasticsearch, such as create-then-get and
  delete-then-not-found. They cannot be stated without inventing a store.
- ApiUser.StoreCreate: `ready == false` stands only for a failing
  index-exists call (dao/elasticsearch/connection.go:42-45). A nil client
  or a missing index instead ends the whole process through
  `logger.Fatalf` (connection.go:39 and :49), and the request gets no
  response. Process exit is not modelled. The same `CheckInit` runs before
  every store call (dao/elasticsearch/userimpl.go:30, :65, :97, :153, :172,
  :205 and :228). So the store answers that `ApiUser.GetAll`, `GetUser`,
  `UpdateUser` and `DeleteUser` take as inputs also leave out the process
  exit: their store errors stand for failures that return.
- 32-bit platforms. Go's `int` is taken to be 64 bits wide, which fixes
  `strconv.Atoi`'s range, the `count++` wrap and the width from which
  handler/user.go truncates to `int32`. Where `int` is 32 bits,
  `strconv.Atoi("2147483648")` fails and those handlers answer 400.
- Configuration.PublishConfig: `os.Setenv` is modelled as on Unix; other
  platforms' rules for refusing a value are not modelled.
- Users.Validate: the source reads the clock twice, once for dob and once
  for ctime. The model uses one reading `nowUnix` for both.
- Counter.MintValues: `count++` wraps at the top of a 64-bit `int`, and
  `GetCount` models the wrap. The run properties are stated only for runs
  that stay below 2^63 - 1.

## Findings

| source | as written | input that shows it | evidently intended | confidence | as-written member | corrected member |
|---|---|---|---|---|---|---|
| handler/user.go:38-43 | on 64-bit platforms the `userId <= 0` guard runs on the 64-bit value before `int32(userId)` truncates it, and `GetUser`, `UpdateUser` and `DeleteUser` pass the truncated id to the store | path id "2147483648" is accepted and reaches the store as -2147483648; "4294967296" reaches it as 0 | only positive ids that fit `int32` reach the store | high; not executed | `HandlerUser.PathIdAsWritten`, `HandlerUser.GetUser` | `HandlerUser.PathId`, `HandlerUser.GetUserChecked` |
| api/user.go:139-160 | every request calls `elasticsearch.NewDao`, which builds a new store object with a zero `SafeCounter` (dao/elasticsearch/connection.go:26) | two successive valid `CreateUser` requests both index their user under id "1", and the second overwrites the first | one counter for the process, so that each create gets a fresh id | high; not executed | `ApiUser.CreateUserAsWritten` | `ApiUser.CreateUser` |
