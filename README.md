# go-utils core, modelled in Dafny

A Dafny model of the core of go-utils, a Go library of shared helpers for gin HTTP services. The model covers the following parts:

- **Coded errors** (package `apperr`). A `CodedError` carries an HTTP status, an application code, a message and an optional cause. `NewError` builds it from defaults plus non-zero overrides, and `Error()` renders it.
- **Error classifiers.** `BadRequest`, `InternalServerError`, `NotFound` and `PostgresError` turn an input error into a coded error. Two revisions are modelled:
  - `ContextErrors` (`pkg/error/error.go`) appends the coded error to the gin context's error list.
  - `ReturningErrors` (`pkg/error/bad_request.go`, `pkg/error/postgres.go`) returns it.
- **Validation messages.** Validation failures become a map from the lower-cased field name to a per-tag message. The map's entries are joined as `field: message` parts with `"; "`, in Go's unspecified map order.
- **The error-code table** (`pkg/constants/error_codes.go`).
- **The ErrorHandler middleware.** After the chain has run, the last recorded error decides the status, the JSON body and the colour of the log line.
- **The SecurityHeaders middleware.** It sets ten fixed hardening headers and answers CORS for the first admitting origin. A preflight `OPTIONS` request is aborted with 204. Any other request has its `Server` header removed and continues.
- **Helpers.**
  - `GetEnv`.
  - `GenerateOTP`, which draws one random digit per position.
  - The generic `Map`.
- **The encryption package.**
  - The AES key comes from the environment.
  - An encrypted frame is the nonce followed by the sealed text.
  - The bcrypt cost is read from the environment.
  - `Hashpassword` swallows bcrypt's error.
  - `HashText` returns the hex of an HMAC-SHA256 tag.

How the model represents the Go program:

- **Strings and bytes.** A Go string is a Dafny `string` with one character per byte. Encrypted data is `seq<byte>`.
- **Errors.** A Go `error` is `Option<GoError>`, where `None` is nil. `GoError` names the errors the classifiers tell apart:
  - `io.EOF`;
  - `sql.ErrNoRows`;
  - `*pgconn.PgError`, with its SQLSTATE;
  - `validator.ValidationErrors`;
  - any other error, by its text.
- **The environment** is a `map<string, string>`.
- **Random sources** are oracles: functions from the index of a draw to its outcome.
- **Cryptographic primitives** are functions passed as parameters:
  - AES-GCM Seal/Open, from section 7 of NIST SP 800-38D;
  - bcrypt;
  - HMAC-SHA256, from RFC 2104.

  The Encrypt/Decrypt round trip is proved for every Seal/Open pair with `Open(Seal(p)) == p` (`Encryption.AeadCorrect`).
- **The gin context** is a class whose fields the handlers update:
  - the error list;
  - the response headers;
  - the written status and JSON body;
  - the aborted and continued flags.
- **Header writes.** gin's `c.Header` deletes a header when the value is empty. `Gin.SetHeader` models this.

Details of the code's behaviour:

- **Empty inputs.** Empty inputs are not special-cased: `Encrypt` seals an empty plaintext like any other, and `Hashpassword("")` and `HashText("")` hash the empty text.
- **Key errors.** A bad AES key yields the plain error "ENCRYPT_SECRET must be 16, 24, or 32 bytes", not a coded error.
- **Default Postgres branch.** `PostgresError`'s default branch says "database error" in `error.go` and "Application error" in `postgres.go`. Each revision keeps its own text.
- **Key fallbacks.** When the variable is unset, `getAESKey`, `GetBcryptCost` and `HashText` use the variable's literal name as the default value:
  - The AES key then always fails, because "ENCRYPT_SECRET" is 14 bytes.
  - The cost always falls back to 10, because "BCRYPT_COST" does not parse.
  - `HashText` keys its HMAC with the public string "HASH_SECRET".

## Model

| member | source | states |
|---|---|---|
| ErrorCodes.CategoryOf | pkg/constants/error_codes.go:4-28 | a code's namespace is read off its thousands range: 1000s generic, 2000s crypto, 3000s database, 4000s business, each as an if-and-only-if |
| ErrorCodes.AllCodesDistinct | pkg/constants/error_codes.go:4-28 | the table declares sixteen codes, pairwise distinct (application-wide unique) |
| ErrorCodes.AllCodesNonzero | pkg/constants/error_codes.go:4-28 | no declared code is 0, the value NewError treats as "not given" |
| ErrorCodes.CodeRanges | pkg/constants/error_codes.go:4-28 | each group's codes lie in its own thousands block and are classified into that group |
| CodedErrors.NewError | pkg/error/error.go:44-66 | each field is its parameter when that is non-zero / non-empty / non-nil, else 500, ErrCodeInternalServer, "internal server error", nil; status, code and message are never zero or empty |
| CodedErrors.NewErrorFixpoint | pkg/error/error.go:44-66 | feeding a built error's fields back into NewError gives the same error (idempotence) |
| CodedErrors.NewErrorKeepsTableCode | pkg/error/error.go:55-57 | a code taken from the constants table always survives NewError |
| CodedErrors.CodedErrorString | pkg/error/error.go:28-33 | the rendering starts with the message and is strictly longer than it |
| CodedErrors.CauseTail | pkg/error/error.go:29-31 | the " -> cause" clause is empty exactly when the cause is nil |
| CodedErrors.CodedErrorStringDetermines | pkg/error/error.go:28-33 | two errors with the same message and the same rendering have the same code, status, presence of a cause and cause text |
| GoStrings.ToLower | pkg/error/error.go:93 | lower-casing keeps the length, leaves no upper-case ASCII letter, and changes only upper-case letters |
| GoStrings.JoinEmptyIff | pkg/error/error.go:133 | joining non-empty parts gives "" exactly when there are no parts |
| GoStrings.FormatInt | pkg/utils/utils.go:27 | the decimal text starts with '-' exactly for negative numbers; every other character is a digit |
| GoStrings.FormatNat | pkg/utils/utils.go:27 | decimal digits without a leading zero |
| GoStrings.DigitsValueOfFormatNat | pkg/utils/utils.go:27 | the digits printed for n read back as n |
| GoStrings.Atoi | pkg/encryption/hash.go:15 | parsing succeeds exactly for an optional sign followed by digits whose value fits int64; the value is the signed digit value |
| GoStrings.AtoiFormatInt | pkg/encryption/hash.go:15-19 | Atoi undoes FormatInt on the whole int64 range |
| GoStrings.FormatIntInjective | pkg/error/error.go:30 | different numbers print differently |
| FieldValidation.FieldMessage | pkg/error/error.go:90-105 | the message starts with the lower-cased field; it ends in " (param: p)" exactly for a tag without its own message and a non-empty parameter |
| FieldValidation.FieldMapKeys | pkg/error/error.go:88-107 | the map has one key per distinct lower-cased field name and no other |
| FieldValidation.FieldMapSize | pkg/error/error.go:88-107 | the map never has more entries than there are failures |
| FieldValidation.FieldMapEmptyIff | pkg/error/error.go:88-107 | the map is empty exactly when the failure list is |
| FieldValidation.FieldMapLastWins | pkg/error/error.go:106 | a failure that no later failure on the same lower-cased field overrides supplies that field's message |
| FieldValidation.MapValidationErrors | pkg/error/bad_request.go:48-73 | the loop builds exactly the last-wins map of the failures |
| FieldValidation.FormatValidationErrors | pkg/error/error.go:128-134 | the result joins one "field: message" part per map entry, each key once, in some order, with "; "; it is "" exactly for an empty map |
| FieldValidation.RenderingOfEmpty | pkg/error/bad_request.go:76-82 | an empty map renders only as "" |
| FieldValidation.RenderingOfOne | pkg/error/bad_request.go:76-82 | a one-entry map renders only as "field: message" |
| ContextErrors.BadRequestError | pkg/error/error.go:73-125 | 400 / ErrCodeInvalidRequest with the input as cause; EOF gives "request body is required but was empty"; validation failures give their rendering, or "internal server error" when there are none; anything else, nil included, gives "invalid request body" |
| ContextErrors.BadRequest | pkg/error/error.go:73-125 | appends exactly one error, the one described above, and keeps the earlier errors |
| ContextErrors.InternalServerCoded | pkg/error/error.go:137-149 | 500 / ErrCodeInternalServer with the input as cause; the message is the error's text unless it is nil or its text is empty, then "internal server error" |
| ContextErrors.InternalServerError | pkg/error/error.go:137-149 | appends exactly that one error |
| ContextErrors.NotFoundCoded | pkg/error/error.go:152-158 | 404 / ErrCodeUserNotFound without a cause; the given message, or "internal server error" when it is empty |
| ContextErrors.NotFoundWithoutMessage | pkg/error/error.go:152-158 | a 404 recorded without a message says "internal server error" |
| ContextErrors.NotFound | pkg/error/error.go:152-158 | appends exactly that one error |
| ContextErrors.PostgresCoded | pkg/error/error.go:161-217 | first match wins: no rows gives 404/4002; SQLSTATE 23505 gives 409/4001; 23503, 23502 and 23514 give 400/1001 with their messages; other driver errors give 500/1000 "database error"; anything else is InternalServerError's error |
| ContextErrors.PostgresStatusClasses | pkg/error/error.go:161-217 | the status is 400, 404, 409 or 500; 404 exactly for no rows, 409 exactly for 23505, 400 exactly for 23503/23502/23514 |
| ContextErrors.PostgresError | pkg/error/error.go:161-217 | appends exactly the classified error |
| ReturningErrors.BadRequest | pkg/error/bad_request.go:15-45 | the same three-way classification, returned instead of recorded, with the InvalidRequest code |
| ReturningErrors.PostgresError | pkg/error/postgres.go:13-72 | first match wins: no rows gives 404/DBNotFound; 23505 gives 409/DBUniqueViolation; 23503 gives 400/DBForeignKeyViolation; 23502 and 23514 give 400/InvalidRequest; other driver errors give 500/DBError "Application error"; anything else gives 500/InternalServer "internal server error" |
| ReturningErrors.PostgresErrorClassRecoverable | pkg/error/postgres.go:13-72 | the status is 400, 404, 409 or 500, and the result's status, code and message identify which of the seven cases the input fell into |
| ReturningErrors.PostgresErrorDependsOnClass | pkg/error/postgres.go:13-72 | inputs in the same case get the same status, code and message |
| ErrorResponder.StatusColour | pkg/gin/middleware/error_handler.go:37-42 | yellow exactly for 400-499, red exactly from 500, green exactly below 400 |
| ErrorResponder.ResponseFields | pkg/gin/middleware/error_handler.go:25-34 | a coded error gives its status, message and code; any other error gives 500, "Internal Server Error" and the empty code |
| ErrorResponder.ResponseBody | pkg/gin/middleware/error_handler.go:59-66 | the body has success false and the message; it has a "code" key, holding the code, exactly when the code is non-zero |
| ErrorResponder.ErrorLog.Error | pkg/gin/middleware/error_handler.go:49-56 | logging appends one entry |
| ErrorResponder.ErrorHandler | pkg/gin/middleware/error_handler.go:15-71 | c.Next() runs first and hands over the headers as they came in; the request's errors become the earlier ones plus those the rest of the chain records; with no error on the request after that, nothing is written or logged; otherwise only the last error decides the status, the body and the logged entry |
| Gin.SetHeader | pkg/gin/middleware/security.go:45-63 | an empty value removes the header, any other value sets it, other headers are untouched |
| Security.EffectiveConfig | pkg/gin/middleware/security.go:17-41 | a nil configuration becomes the default: origins ["*"], methods GET, POST, PUT, PATCH, DELETE, OPTIONS in that order, headers Origin, Content-Type, Authorization |
| Security.ApplyHeadersSets | pkg/gin/middleware/security.go:45-54 | setting pairs with distinct names and non-empty values gives each name its value and leaves every other header as it was |
| Security.HardeningTableWellFormed | pkg/gin/middleware/security.go:45-54 | ten distinct header names, none with an empty value |
| Security.HardeningKeysApart | pkg/gin/middleware/security.go:45-75 | no hardening header is a CORS header or the Server header |
| Security.FirstMatch | pkg/gin/middleware/security.go:58-66 | the index found is an entry that is "*" or the request origin, with no such entry before it; none exactly when no entry admits |
| Security.CorsHeaders | pkg/gin/middleware/security.go:57-66 | with no admitting entry the headers are untouched; otherwise the first admitting entry is echoed verbatim, methods and headers are joined by ", ", credentials is "true", and nothing else changes |
| Security.DefaultAdmitsEveryOrigin | pkg/gin/middleware/security.go:17-23 | under the default configuration every origin is admitted by the first entry and "*" is echoed |
| Security.HardeningAlwaysSet | pkg/gin/middleware/security.go:45-75 | whatever the method, origin and configuration, the ten hardening headers end with their fixed values |
| Security.ServerHeaderRemoved | pkg/gin/middleware/security.go:69-75 | the Server header is gone after a non-OPTIONS request and kept after a preflight |
| Security.HardenHeaders | pkg/gin/middleware/security.go:45-54 | the ten header writes leave the headers as the table applied in order |
| Security.AllowCors | pkg/gin/middleware/security.go:57-66 | the loop with break leaves the headers as the first-match CORS function says |
| Security.SecurityHeaders | pkg/gin/middleware/security.go:38-88 | the headers end as hardening then CORS then, except for OPTIONS, Server removal; OPTIONS aborts with 204 and does not continue, with every header already in place when AbortWithStatus writes the response; any other method continues, leaves the status alone, its errors gain exactly those the rest of the chain records, and every header is already in place when c.Next() hands over |
| Utils.GetEnv | pkg/utils/utils.go:11-16 | a set variable's value, even "", else the default |
| Utils.GetEnvDefaultOnlyWhenUnset | pkg/utils/utils.go:11-16 | the default matters exactly when the variable is unset |
| Utils.FormatDigit | pkg/utils/utils.go:27 | a drawn digit prints as one character |
| Utils.GenerateOTP | pkg/utils/utils.go:18-30 | success exactly when the first max(n, 0) draws succeed; then the result has that length and its i-th character is the i-th draw; otherwise "" with the error of the first failing draw |
| Utils.Map | pkg/utils/utils.go:32-38 | the result has the input's length and its i-th element is fn of the i-th input |
| Encryption.GetAESKey | pkg/encryption/encrypt.go:13-19 | success exactly when the selected value is 16, 24 or 32 bytes long, and then it is the key; otherwise the fixed length error |
| Encryption.KeyComesFromEnvironment | pkg/encryption/encrypt.go:13-19 | an unset variable always fails, since the fallback literal is 14 bytes, so any key is the variable's value |
| Encryption.ReadFullSpec | pkg/encryption/encrypt.go:37-40 | a read of n bytes succeeds exactly when the first n draws do, giving those bytes in order |
| Encryption.ReadFull | pkg/encryption/encrypt.go:37-40 | fills the buffer in place with the read bytes, or reports the read's error |
| Encryption.Decrypt | pkg/encryption/encrypt.go:47-75 | a key error comes first; input shorter than the nonce is "data too short"; otherwise the result is Open of the first 12 bytes as nonce and the rest as ciphertext, its error included |
| Encryption.FramingRoundTrip | pkg/encryption/encrypt.go:42-74 | for a correct AEAD and a valid key, decrypting nonce followed by the sealed text gives the plaintext back, empty plaintext included |
| Encryption.Encrypt | pkg/encryption/encrypt.go:21-45 | a key error wins over any read error; a read error is returned; otherwise the output is the nonce read followed by the sealed plaintext, at least 12 bytes long, and Decrypt gives the plaintext back |
| Hashing.GetBcryptCost | pkg/encryption/hash.go:13-20 | the parsed value when the selected text is a decimal int64, unchanged; otherwise 10 |
| Hashing.UnsetCostIsDefault | pkg/encryption/hash.go:13-20 | an unset variable gives cost 10 |
| Hashing.CostIsNotClamped | pkg/encryption/hash.go:13-20 | any int64 written in decimal is used as the cost as it is, with no clamping |
| Hashing.Hashpassword | pkg/encryption/hash.go:22-25 | bcrypt's hash at the configured cost, or "" when bcrypt fails |
| Hashing.EmptyHashMeansFailure | pkg/encryption/hash.go:22-25 | with a bcrypt that never returns "", an empty result means exactly that bcrypt failed |
| Hashing.HexEncode | pkg/encryption/hash.go:35 | two characters from 0-9a-f per byte |
| Hashing.HexRoundTrip | pkg/encryption/hash.go:35 | hex decoding undoes hex encoding |
| Hashing.HashText | pkg/encryption/hash.go:31-36 | exactly 64 lowercase hex characters, which decode to the HMAC of the value under the selected secret |
| Hashing.HashTextSameIffSameTag | pkg/encryption/hash.go:31-36 | two hashes are equal exactly when the underlying HMAC tags are equal |
| Hashing.UnsetSecretUsesLiteral | pkg/encryption/hash.go:32 | with the variable unset, the tag is keyed with "HASH_SECRET" |

## Left out

- AES-GCM, bcrypt, HMAC-SHA256 and crypto/rand are not modelled. They are parameters: Seal/Open, a bcrypt function, an HMAC function with a 32-byte result, and oracles for random draws. bcrypt's fresh random salt is folded into the bcrypt parameter, so the model says nothing about two separate calls hashing the same password. `aes.NewCipher` and `cipher.NewGCM` cannot fail for a key of a valid length, so their error branches are not modelled.
- ComparePassword (pkg/encryption/hash.go:27-29) is not modelled. It only passes its arguments to bcrypt.
- The text of the log line and its ANSI colour codes are not modelled. The log entry records the method, path, status, colour class, code (present when non-zero) and error. The colour constants and `constants.Empty` are not part of this model. The empty code is a parameter.
- JSON serialisation is not modelled. The body is a map from keys to values.
- Go's `errors.Is` / `errors.As` unwrap chains are not modelled. Each error is classified by its own kind, so a wrapped `io.EOF` or `*pgconn.PgError` is not seen through.
- Unicode case mapping is not modelled. `strings.ToLower` is modelled on ASCII letters only.
- MIME canonicalisation of header names by `Header().Set` is not modelled. The names are the literals the middleware writes.
- The middleware constructors that return closures are not modelled. `SecurityHeaders` and `ErrorHandler` are modelled as the closure body run on one request, with the configuration as a parameter. The rest of the chain is not run: what it records on `c.Errors` is a parameter of `c.Next()`, which appends it, and the headers it sends are those in place when `c.Next()` is called. `c.AbortWithStatus` writes the status and the headers out at once, so a preflight response carries the headers in place at that call.
- The process environment is not read. It is a map passed as a parameter.
- Security.HardenHeaders: walks the table of ten header pairs with a loop. The source writes the ten `c.Header` calls out one by one, and the effect is the same.
- ReturningErrors.BadRequest, ReturningErrors.PostgresError: the constants `InvalidRequest`, `InternalServer` and the `DB*` codes are not in the repository, so their values are a parameter. The model only knows they are non-zero and pairwise distinct.
- JWT, SQS queue clients, the database connector, the request logger and the logger package are not part of this model.
