# genql-extensions: the connector functions, modelled in Dafny

genql-extensions adds store-backed functions to the genql query evaluator.
The evaluator calls each function with a positional list of dynamically typed
values, and the function returns a value or an error. This project models and
verifies the core of two of them:

- **The key-value connector** (`RedisFunc`). It binds its arguments onto a
  `RedisArgs` record, looks the named connection up in a registry, and
  dispatches one of the commands `cache`, `set`, `changekey`, `get`, `incr`
  and `incr/base64` against that connection's store. `incr/base64` returns
  the counter in a compact 64-symbol encoding (`toBase64`).
- **The document-store connector** (`MongoFunc`). It binds exactly five
  arguments, renders the query template, looks the connection up and runs
  the aggregation. It then normalises the driver's result tree
  (`Unmarshal`, `Neutralize`).
- **The argument-schema analyzer** (`ArgStructAnalyzer`). It derives a
  record's required-field count and its optional fields' positions from
  struct tags.
- **The sentinel errors** `TOO_MANY_ARGS` and `TOO_FEW_ARGS`.

Modules, one per concern:

| file | module | models |
|---|---|---|
| sentinel.dfy | `Sentinel` | the `Error` string type and the two sentinels |
| dynamic.dfy | `Dynamic` | Go's `any` as a closed variant, and the names `%T` prints |
| failures.dfy | `Failures` | every error the core returns, their texts, `Result` and `Option` |
| common.dfy | `Common` | `ArgStructAnalyzer` over explicit field descriptors, and `strconv.Atoi` |
| redis_base64.dfy | `RedisBase64` | `_dictionary` and `toBase64`, with its decoder |
| redis_binding.dfy | `RedisBinding` | `parseRedisArgs` as a function of the argument list and the map's iteration order |
| redis_store.dfy | `RedisStore` | the store commands the connector uses, the five store operations, and command selection |
| redis.dfy | `Redis` | the package state (schema, registry), `parseRedisArgs`, `RedisFunc` and `RegisterRedisConnection` |
| mongo_normalize.dfy | `MongoNormalize` | `Neutralize`, `Unmarshal`, `UnmarshalArray`, `UnmarshalMap` and `UnmarshalDocument` |
| mongo.dfy | `Mongo` | `parseMongoArgs`, the error order of `MongoFunc`, and `RegisterMongoConnection` |

How the model is built:

- **Loops become methods.** The source's loops are methods with loop
  invariants: the analyzer, `toBase64`, the optional-field loop of
  `parseRedisArgs`, and the three `Unmarshal*` builders. Each is proved equal
  to a function that defines its result, and the properties are proved as
  lemmas about those functions.
- **State becomes classes.** The package variables of each connector are
  fields of a class (`RedisFunctions`, `MongoFunctions`). Registration writes
  the registry field. A connection's store is a `KeyValueStore` object whose
  `entries` map the store operations update, one command at a time.
- **Map iteration order is a free choice.** `parseRedisArgs` ranges over a Go
  map, whose order is unspecified. `BindRedis(raw, order)` is defined for
  every enumeration of the optional fields. The method picks keys in an
  arbitrary order and reports the order it used as a ghost out-parameter. The
  lemmas state what holds for every order.
- **Panics are explicit failures.** The index-out-of-range panic becomes the
  failure `IndexOutOfRange(index, length)`.

Behaviour of the code that a caller may not expect, kept as written:

- `parseRedisArgs` reads `rawArg[3]` and `rawArg[4]` before its length guard.
  A list of three or four arguments therefore panics, unless a bad `Key` is
  reported first: a list of three or four arguments never binds
  (`BindRedisShortList`).
- The key-value binder never reports too many arguments: extra arguments are
  ignored (`BindRedisArity`).
- A non-string command is reported with the type of `args[0]`, which at that
  point is always `string` (`BindRedisLeadingTypes`).
- `Neutralize` widens `int`, `int8`, `int16`, `int32`, `int64`, `byte` and
  `float32` only. `uint16`, `uint32` and `uint64` pass through unchanged
  (`Neutralize`).
- `Unmarshal` recurses only into `bson.A`, `bson.M` and `bson.D`. Plain
  `[]any` and `map[string]any` come back as they are
  (`PlainContainersUntouched`).

## Model

| member | source | states |
|---|---|---|
| `Sentinel.Error.Message` | sentinel/sentinel.go:12-14 | the message is exactly the underlying string: wrapping it again gives back the same error |
| `Sentinel.MessageDeterminesError` | sentinel/sentinel.go:3-14 | two sentinel errors are equal exactly when their messages are equal |
| `Sentinel.SentinelsDistinct` | sentinel/sentinel.go:7-10 | TOO_MANY_ARGS reads "too many arguments", TOO_FEW_ARGS reads "too few arguments", and the two are distinct values |
| `Failures.ArityMessage` | sentinel/sentinel.go:12-14 | an arity failure reports the sentinel's own text, so the two arity failures are told apart by their messages |
| `Failures.MissingPositionMessage` | functions/common.go:22 | an optional field without a position tag reports "position is required for optional fields" |
| `Failures.TypeMismatchMessage` | functions/redis.go:180-211 | a type mismatch reads "expected T but found U": the expected type leads, and the found type can be read back from the message |
| `Failures.UnregisteredMessage` | functions/redis.go:59 | the unregistered-connection message is the source's text with the connection name between backquotes, and it determines the name |
| `Failures.UnknownCommandMessage` | functions/redis.go:92 | the unknown-command message is the source's text with the command as given between backquotes, and it determines the command |
| `Common.Atoi` | functions/common.go:24 | strconv.Atoi: an unsigned, `+`- or `-`-signed digit string parses to its value when that fits in 64 bits and is out of range otherwise; anything else is a syntax error naming the tag |
| `Common.AtoiExamples` | functions/common.go:24 | "3", "+3" and "-3" parse to 3, 3 and -3; "-", " 3" and "3a" are syntax errors |
| `Failures.BadPositionNamesInput` | functions/common.go:24-26 | the Atoi error returned for a bad tag determines the tag: distinct tags give distinct messages |
| `Failures.BadPositionExample` | functions/common.go:24-26 | the tag `a"b` is printed quoted, with its quote escaped |
| `Failures.QuoteRoundTrip` | functions/common.go:24-26 | the quoting of the tag in the Atoi error reads back as the tag |
| `Failures.QuoteInjective` | functions/common.go:24-26 | distinct tags are quoted differently |
| `Failures.QuotePlain` | functions/common.go:24-26 | a tag of printable characters other than quote and backslash is printed between quotes as it is |
| `Common.AnalyzeFields` | functions/common.go:9-31 | the loop returns the analysis of the fields in declaration order, stopping at the first failure |
| `Common.ErrorPersists` | functions/common.go:21-27 | once a prefix of the fields fails, the whole analysis returns that same error |
| `Common.AnalysisSucceedsIff` | functions/common.go:13-30 | the analysis succeeds exactly when every optional field has a position tag that parses |
| `Common.AnalysisFirstFailure` | functions/common.go:20-27 | the error is the one of the first bad field in declaration order (missing position, or the Atoi error), with no partial result |
| `Common.AnalysisCounts` | functions/common.go:16-19 | the required count is the number of fields whose optional tag is not exactly "true", and the map's keys are the optional fields' names |
| `Common.AnalysisPositions` | functions/common.go:24-28 | each optional field maps to the integer its position tag denotes |
| `Common.AnalysisOptionalSize` | functions/common.go:20-28 | with distinct field names, the map has one entry per optional field |
| `Common.AnalysisPartition` | functions/common.go:13-30 | the required count plus the map size is the number of fields, and no required field is in the map |
| `RedisBase64.DictionaryIsSymbols` | functions/redis.go:31-37 | the alphabet has 64 entries: A-Z, then a-z, then 0-9, then '_' and '-' |
| `RedisBase64.IndexOfDictionary` | functions/redis.go:31-37 | looking up entry i of the alphabet gives back i |
| `RedisBase64.DictionaryDistinct` | functions/redis.go:31-37 | the 64 entries of the alphabet are distinct |
| `RedisBase64.ToBase64` | functions/redis.go:220-227 | the divide-and-append loop returns the least-significant-digit-first encoding of n |
| `RedisBase64.DecodeEncode` | functions/redis.go:220-227 | decoding the output as the sum of index(s[i]) * 64^i gives back n |
| `RedisBase64.EncodeInjective` | functions/redis.go:220-227 | two numbers have the same encoding exactly when they are equal |
| `RedisBase64.EncodeEmptyIffZero` | functions/redis.go:222 | the encoding is empty exactly for 0 |
| `RedisBase64.EncodeSingleSymbol` | functions/redis.go:220-227 | each n from 1 to 63 encodes to the single symbol _dictionary[n] |
| `RedisBase64.EncodeInAlphabet` | functions/redis.go:223 | every output symbol is in the alphabet |
| `RedisBase64.EncodeLength` | functions/redis.go:222-225 | the output has one symbol per base-64 digit of n |
| `RedisBase64.EncodeLastNotA` | functions/redis.go:222-225 | for n > 0 the last symbol is never 'A' |
| `RedisBinding.RedisArgsSchema` | functions/redis.go:17-23 | analysing RedisArgs gives 3 required fields, with Key at position 3 and TTL at position 4 |
| `RedisBinding.TruncateToInt` | functions/redis.go:213 | int64(ttl) truncates toward zero |
| `RedisBinding.BindRedisSucceedsIff` | functions/redis.go:173-218 | in every visiting order, binding succeeds exactly on lists of at least five with string connection and command, Key nil or string, TTL nil or float64; the record then has Arg = args[2] unchanged, Key "" or TTL 0 where nil, and TTL truncated |
| `RedisBinding.BindRedisOrderIndependent` | functions/redis.go:191-216 | whether binding succeeds, and what it binds, does not depend on the map's iteration order |
| `RedisBinding.BindOptionalFailures` | functions/redis.go:191-216 | the optional-field loop fails only by an index panic or a type mismatch |
| `RedisBinding.BindRedisArity` | functions/redis.go:174-177 | fewer than 3 arguments fail with TOO_FEW_ARGS; no list fails with TOO_MANY_ARGS; 3 or more never fail with TOO_FEW_ARGS |
| `RedisBinding.BindRedisLeadingTypes` | functions/redis.go:178-185 | a non-string connection name is reported with its own type; a non-string command is reported with the type of args[0], "string" |
| `RedisBinding.BindRedisShortList` | functions/redis.go:191-197 | 3 or 4 arguments always fail: an index panic at position 3 or 4, or a bad Key at position 3 |
| `RedisBinding.BindRedisOptionalTypes` | functions/redis.go:198-215 | with five or more arguments, a failure is a non-string Key ("expected string") or a non-float64 TTL ("expected int64") |
| `RedisStore.RedisCache` | functions/redis.go:97-108 | stores the wrapped payload under the fresh key and returns that key |
| `RedisStore.RedisSet` | functions/redis.go:110-120 | stores the wrapped payload under the given key and returns the payload, not the key |
| `RedisStore.RedisChangeKey` | functions/redis.go:122-140 | rejects a non-string target key; otherwise GET, DEL, SET: the raw value moves to the new key and is returned; an absent key fails and leaves the store as it was |
| `RedisStore.RedisGet` | functions/redis.go:142-153 | returns the "data" field of the stored wrapper; an absent key or a value that is not a wrapper fails |
| `RedisStore.RedisIncr` | functions/redis.go:155-171 | EXISTS, SET 0 when absent, then INCR: the new counter, or the store's error |
| `RedisStore.SetThenGet` | functions/redis.go:110-153 | a get after a set of the same key returns the payload that was set |
| `RedisStore.CacheThenGet` | functions/redis.go:97-153 | the key cache returns fetches the cached payload |
| `RedisStore.ChangeKeyMoves` | functions/redis.go:122-140 | changekey from a to b succeeds exactly when a is present; then get(b) returns what get(a) returned, get(a) fails with key absent (a != b), the other keys keep their values, and a failure changes nothing |
| `RedisStore.ChangeKeyNeedsString` | functions/redis.go:123-126 | a non-string target is rejected before the store is touched |
| `RedisStore.IncrCounts` | functions/redis.go:155-171 | incr on an absent key stores and returns 1; on a counter n below the maximum it returns n + 1 |
| `RedisStore.IncrFromFresh` | functions/redis.go:155-171 | k incrs of a fresh key return k and leave k stored |
| `RedisStore.CommandOf` | functions/redis.go:61-93 | a lowercased command string names a command exactly when it equals that command's name; any other string selects none |
| `RedisStore.SelectCommand` | functions/redis.go:61-93 | a command is selected exactly when the lowercased string is its name |
| `RedisStore.SelectCommandCaseInsensitive` | functions/redis.go:61 | strings that agree up to case select the same command |
| `RedisStore.SelectGetUpper` | functions/redis.go:61-77 | "GET" selects get |
| `RedisStore.SelectIncrBase64Mixed` | functions/redis.go:82-89 | "Incr/Base64" selects incr/base64 |
| `RedisStore.SelectUnknown` | functions/redis.go:90-93 | "frobnicate" selects nothing |
| `Redis.Route` | functions/redis.go:55-93 | the lookup comes first: an unregistered name fails naming it; then an unknown command fails naming the original string; otherwise the selected command runs |
| `Redis.UnregisteredBeforeCommand` | functions/redis.go:55-60 | an unregistered connection is reported whatever the command |
| `Redis.RouteIgnoresCase` | functions/redis.go:61-93 | a command routes as its lower-case form does |
| `Redis.IncrBase64Decodes` | functions/redis.go:82-89 | incr/base64 changes the store as incr does and fails as incr does; a non-negative counter's token decodes back to it |
| `RedisStore.ToUint64OfInt64` | functions/redis.go:88 | `uint64(n)` keeps a non-negative int64 and adds 2^64 to a negative one |
| `Redis.IncrBase64Fresh` | functions/redis.go:82-89 | incr/base64 on a fresh key stores 1 and returns "B" |
| `Redis.RedisFunctions.constructor` | functions/redis.go:40-48 | init: the schema is the one the analyzer derives from RedisArgs (so its panic cannot happen), and the registry is empty |
| `Redis.RedisFunctions.ParseRedisArgs` | functions/redis.go:173-218 | the method's result is the binding for the order in which it visited the optional fields |
| `Redis.RedisFunctions.RedisFunc` | functions/redis.go:50-95 | binding errors come first, then the lookup, then command selection; a selected command changes the addressed store as its operation says, and no other store changes |
| `Redis.RedisFunctions.RegisterRedisConnection` | functions/redis.go:229-238 | a failing creator returns its error and leaves the registry unchanged; otherwise the client is stored under the name, overwriting any earlier entry |
| `MongoNormalize.Neutralize` | functions/mongo.go:79-115 | int, int8, int16, int32, int64, byte and float32 become float64 with the same value; every other value comes back unchanged; the result is never a narrow number |
| `MongoNormalize.NeutralizeIdempotent` | functions/mongo.go:79-115 | neutralizing twice is neutralizing once |
| `MongoNormalize.ObjectIdTextInjective` | functions/mongo.go:154-157 | distinct object ids get distinct string forms |
| `MongoNormalize.NormalArray` | functions/mongo.go:117-123 | a normalised bson.A has the same length and order, with element i the normalisation of a[i] |
| `MongoNormalize.Unmarshal` | functions/mongo.go:140-163 | the type switch returns the normalisation of its argument |
| `MongoNormalize.UnmarshalArray` | functions/mongo.go:117-123 | the append loop builds the normalised array |
| `MongoNormalize.UnmarshalMap` | functions/mongo.go:125-131 | the assignment loop, in any key order, builds the normalised map |
| `MongoNormalize.UnmarshalDocument` | functions/mongo.go:132-138 | the loop over the document builds the normalised map in document order |
| `MongoNormalize.DocumentKeys` | functions/mongo.go:132-138 | a normalised bson.D has exactly the document's keys |
| `MongoNormalize.DocumentLastWins` | functions/mongo.go:132-138 | for a repeated key, the value of the last entry with that key wins |
| `MongoNormalize.MapShape` | functions/mongo.go:125-131 | a normalised bson.M has the same keys, each value normalised |
| `MongoNormalize.PlainContainersUntouched` | functions/mongo.go:158-161 | plain []any and map[string]any come back unchanged, whatever they hold |
| `MongoNormalize.NormalShape` | functions/mongo.go:140-163 | the result is never a bson container, an ObjectID or a narrow number, and such a value is left as it is |
| `MongoNormalize.NormalIdempotent` | functions/mongo.go:79-163 | unmarshalling twice is unmarshalling once |
| `MongoNormalize.DriverValueNormalized` | functions/mongo.go:117-163 | for a value the driver decoded, the result holds no bson container, ObjectID or narrow number at any depth |
| `MongoNormalize.NestedExample` | functions/mongo.go:117-163 | {a: [1 as int32, "x", {b: 2.5}]} becomes {a: [1.0, "x", {b: 2.5}]} |
| `MongoNormalize.DuplicateKeyExample` | functions/mongo.go:132-138 | a document with key n twice keeps the second value |
| `Mongo.ParseMongoArgs` | functions/mongo.go:165-196 | more than 5 arguments fail with TOO_MANY_ARGS and fewer with TOO_FEW_ARGS; positions 0-3 must be strings, and the first that is not is reported with its type; success binds the five in order |
| `Dynamic.TypeNameIdentifiesType` | functions/mongo.go:174-186 | the type name `%T` prints in a type-mismatch error is the same for two values exactly when they have the same dynamic type |
| `Mongo.ArgsBoundUnchanged` | functions/mongo.go:188-194 | the fifth argument is bound as it is, whatever its dynamic type, nil included |
| `Mongo.ArgumentErrorsFirst` | functions/mongo.go:39-43 | an argument error is returned whatever the template and the registry |
| `Mongo.TemplateErrorsBeforeLookup` | functions/mongo.go:44-58 | a template parse or render error is returned the same way for every registry |
| `Mongo.UnregisteredAfterTemplate` | functions/mongo.go:53-58 | with good arguments and template, an unregistered connection fails naming it |
| `Mongo.SuccessIsNormalized` | functions/mongo.go:59-76 | a successful call returns a plain slice with one entry per result document, free of driver shapes when the driver decoded the documents |
| `Mongo.MongoFunctions.constructor` | functions/mongo.go:34-37 | init: the registry is empty |
| `Mongo.MongoFunctions.MongoFunc` | functions/mongo.go:39-77 | binds, parses, renders, looks up and runs in that order, returning the first error or the normalised result set |
| `Mongo.MongoFunctions.RegisterMongoConnection` | functions/mongo.go:198-207 | a failing creator returns its error and leaves the registry unchanged; otherwise the client is stored under the name, overwriting any earlier entry |

## Left out

- Locks: the reader/writer mutexes around both registries are concurrency. Registration and lookup are sequential here.
- The real clients: the go-redis and mongo-driver clients, `context.TODO()` and the network round-trips are not modelled. A Redis connection is an in-memory `KeyValueStore` that answers SET, GET, DEL, EXISTS and INCR. A Mongo client is an opaque handle.
- The store's own failures: a SET, DEL or EXISTS that fails in transit is not modelled. Only the failures of the commands themselves are: a missing key, INCR on a non-integer, INCR overflow.
- TTL: expiry is not modelled. The store operations take no TTL parameter, and `Stored` entries never expire. The overflow of `time.Second*time.Duration(TTL)` is not modelled either.
- Interleaving: `changekey` (GET, DEL, SET) and `incr` (EXISTS, SET, INCR) are several store commands in a row. The model runs them with no other client acting in between, so the race windows of these non-atomic sequences are not represented.
- JSON: `json.Marshal` of the wrapper `{"data": payload}` and `json.Unmarshal` back are taken as an exact round trip. Marshal failures and the JSON-induced type changes of the payload (numbers back as float64, and so on) are not modelled. A stored counter fails to unmarshal as a wrapper.
- `uuid.NewString()` becomes the parameter `freshKey` of `RedisFunc`.
- `text/template` parsing and rendering, the JSON decoding of the rendered pipeline, `Aggregate` and `cursor.All` are the parameters `parse`, `render` and `run` of `MongoFunc`. Only the order in which their errors are returned is modelled.
- `ObjectID.String()` is not part of the source. It is modelled as `ObjectID("<lower-case hex>")`, as the driver prints it.
- Value ranges: `Dynamic.Value` does not constrain an `ObjectId` to twelve bytes nor an `Integer` to the range of its kind. The core never builds such values; it only passes them through or widens them.
- Floating point: numbers are exact reals. int64-to-float64 rounding above 2^53, float32 widening, NaN and infinities, and the truncation of out-of-range TTL values are not modelled.
- `Failures.Quote`: characters beyond ASCII are copied as they are. `strconv.Quote` escapes the non-printable ones (`\u`/`\U`, by `unicode.IsPrint`), which is not modelled.
- `RedisStore.ToLower`: lowercases ASCII letters only. Unicode case mapping is not modelled; the command names are ASCII.
- Reflection: `reflect.TypeOf`, `NumField` and `Tag.Get` become explicit field-descriptor constants (`RedisArgsFields`, `MongoArgsFields`). The panic in the Redis `init` is shown not to happen.
- `Common.Atoi`: it does not distinguish which of syntax and range `strconv.Atoi` reports first for long malformed strings. Every non-numeric tag is a syntax error and every numeric tag outside int64 a range error.
- `RedisBinding.BindField`: the guard `len <= value` after the nil check can never hold (the index before it has already panicked), so it is not part of the model.
- The Redis methods of `KeyValueStore` model the store server, not the source, and have no rows above.
