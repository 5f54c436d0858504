# Error model, DB error classifier and request decisions of a Go web backend

This project models the decision logic at the core of a Go web backend. That
logic is:

- how errors are represented, disclosed to clients, logged and classified;
- how database failures are turned into application errors;
- how a handler runs inside a database transaction and which response wins;
- the pagination arithmetic and the control flow of feed queries;
- the small string, header, SQL-text and configuration helpers these rely on.

The model is written in Dafny. It is a set of immutable datatypes and pure
functions, plus a few methods that mirror the source's loops. Properties are
stated as contracts and lemmas, and the Dafny verifier checks all of them.

## How Go concepts are represented

- **Error chains.** A Go `error` is the sequence of layers that
  `errors.Unwrap` visits, outermost first, and the empty sequence is nil. A
  layer is one of:
  - the application's `Error`, holding its fields other than `Cause`;
  - a Postgres error record;
  - a sentinel (`sql.ErrNoRows`, `context.Canceled`, `sql.ErrTxDone`,
    `io.EOF`, `os.ErrDeadlineExceeded`);
  - a `syscall.Errno`;
  - a `*net.OpError`;
  - a routing error;
  - a message;
  - a stack-trace wrapper.

  `errors.As` is "the outermost layer of that kind". `errors.Is` is "some
  layer equals the sentinel".
- **Transactions.** A callback passed to `withDbTx` is a small program
  (`Transactions.Body`). It can:
  - return an error;
  - panic with an error value;
  - call `withDbTx` again and continue if that nested scope succeeded.

  A failing nested scope always ends the callback with that error. A callback
  that ignores a nested failure and goes on is not expressible.

  The effect on the database is recorded as a trace of events: a transaction
  begun, a begin failure, a callback entering a transaction, and a commit
  with its outcome.
- **Contexts.** A `context.Context` is the chain of layers it was derived
  through, newest first:
  - a value under the transaction key;
  - a value under the request key;
  - a cancelable context that has or has not fired.

  A lookup answers from the newest layer holding the key. A fired ancestor
  cancels every context derived from it.
- **Outside services.** The database driver, the row scanner, the SQL
  tokenizer and the request decoder are represented only by what they
  return. Each such result is a parameter of the functions that use it.
- **Integers.** Go's `uint64` and `int` are bounded subset types of Dafny's
  unbounded integers. Wrap-around is written out where the code can reach it:
  - `pos + 128` in the syntax-error window;
  - `totalPages - 1` in `PageInfoFrom`;
  - `last`.

## Behaviour worth noting

- **Page count for an empty feed.** With a positive limit, an empty feed has
  0 pages: the code computes `ceil(total / limit)` (`go/types_misc.go:73-76`).
  `Paging.PageCountZeroIffEmpty` states this.
- **Unnamed check violations.** A check violation (code 23514) without a
  constraint name is made public, but it gets neither a DB code nor a
  status, so its status resolves to 500 (`go/utils_db.go:115-124`,
  `go/types_err.go:65-73`). `DbErrors.DecodeUnnamedCheck` states this.
- **Connection string.** `Conf.PostgresConnString` does not quote values. A
  password holding a space therefore splits into more segments than were
  joined (`go/conf.go:80-86`). `Config.ConnStringSpacedPassword` shows this.

## Model

| member | source | states |
|---|---|---|
| ErrorModel.ToChain | go/types_err.go:28-35 | An `Error` used as an `error` is a chain whose outermost layer carries that record's fields |
| ErrorModel.Unwrap | go/types_err.go:44-46 | Unwrapping an `Error` yields exactly its cause: the chain minus the `Error` layer |
| ErrorModel.FirstOf | go/utils_err.go:105-111 | `errors.As` finds the outermost layer of a kind, or reports that no layer is of that kind |
| ErrorModel.FirstOfIff | go/utils_err.go:113-116 | Only one layer can be the outermost of its kind, and `errors.As` finds exactly that one |
| ErrorModel.AsError | go/utils_err.go:105-111 | `errors.As` into `Error` succeeds iff some layer is an `Error`; it gives the outermost one, with everything beneath it as its cause |
| ErrorModel.AsPg | go/utils_db.go:113-114 | `errors.As` into a Postgres error succeeds iff one is in the chain, and gives the outermost one |
| ErrorModel.AsErrno | go/utils_err.go:168-172 | `errors.As` into an errno succeeds iff one is in the chain, and gives the outermost one |
| ErrorModel.AsNetOp | go/utils_err.go:175-180 | `errors.As` into a network operation error gives the `Op` of the outermost one |
| ErrorModel.HttpStatusCode | go/types_err.go:65-73 | A positive raw status is returned as is. Otherwise a non-empty DB code gives 400 and an empty one gives 500, so the result is always positive |
| ErrorModel.ShallowLayout | go/types_err.go:82-90 | The shallow text is bare "error" iff the raw status is 0 and the DB code is empty. A non-zero raw status follows "error" directly. A DB code comes last |
| ErrorModel.ErrorText | go/types_err.go:75-80 | `Error()` starts with the shallow text. It equals the shallow text iff the cause is nil; otherwise ": " and the cause's text follow |
| ErrorModel.VerboseText | go/types_err.go:92-103 | The verbose form starts with the shallow text and contains the DB query, the DB context and the detailed cause whenever each is present |
| ErrorModel.ErrorTextHidesDiagnostics | go/types_err.go:75-90 | Two errors that differ only in `IsPublic`, `DbQuery` or `DbContext` have the same `Error()` text, so diagnostics never reach that text |
| ErrorModel.ChainTextOfError | go/types_err.go:37-41 | An `Error` inside a chain renders as its own `Error()` text |
| ErrorUtils.WithStack | go/utils_db.go:147 | `errors.WithStack` keeps nil as nil. Otherwise it adds exactly one outer layer and leaves the text unchanged |
| ErrorUtils.Wrap | go/utils_db.go:199-200 | `errors.Wrap` keeps nil as nil. Otherwise the original chain stays underneath and the text becomes `msg: <original text>` |
| ErrorUtils.Err | go/utils_err.go:29-38 | An `Error` on top is returned unchanged. Anything else becomes the cause of an `Error` whose other fields are zero. Only the top layer is inspected |
| ErrorUtils.ErrOfError | go/utils_err.go:33-36 | `Err` returns an existing `Error` unchanged |
| ErrorUtils.ErrIdempotent | go/utils_err.go:29-38 | Applying `Err` a second time changes nothing |
| ErrorUtils.ErrWith | go/utils_err.go:48-57 | nil stays nil. Otherwise the mutator is applied to a copy of `Err(err)`, and with no mutator the result is `Err(err)` itself |
| ErrorUtils.ErrPub | go/utils_err.go:59-61 | The wrapped error is marked public and no other field or layer changes |
| ErrorUtils.ErrHttp | go/utils_err.go:63-65 | The wrapped error's status is set and no other field or layer changes |
| ErrorUtils.ErrPubIdempotent | go/utils_err.go:59-61 | Marking an error public twice is the same as marking it once |
| ErrorUtils.ErrHttpLastWins | go/utils_err.go:63-65 | When the status is set twice, the second value is the one kept |
| ErrorUtils.ErrPubHttpCommute | go/utils_err.go:59-67 | Marking public and setting the status can be done in either order with the same result |
| ErrorUtils.ErrPubHttp | go/utils_err.go:67 | The result is public and has the given status. Its other fields and its cause are those of `Err(err)` |
| ErrorUtils.ErrPubNotFound | go/utils_err.go:69 | nil iff the input is nil; otherwise a public error whose status resolves to 404, with the cause of `Err(err)` |
| ErrorUtils.ErrPubBadRequest | go/utils_err.go:71 | nil iff the input is nil; otherwise a public error whose status resolves to 400, with the cause of `Err(err)` |
| ErrorUtils.ErrPubUnauthenticated | go/utils_err.go:78 | nil iff the input is nil; otherwise a public error whose status resolves to 401, with the cause of `Err(err)` |
| ErrorUtils.ErrPubForbidden | go/utils_err.go:80 | nil iff the input is nil; otherwise a public error whose status resolves to 403, with the cause of `Err(err)` |
| ErrorUtils.ErrPubInternal | go/utils_err.go:83 | nil iff the input is nil; otherwise a public error whose status resolves to 500, with the cause of `Err(err)` |
| ErrorUtils.PublicPart | go/utils_err.go:105-111 | `errPub` is non-nil iff the outermost `Error` is public. It is then the chain from that `Error` downward |
| ErrorUtils.PublicPartStopsAtFirst | go/utils_err.go:101-111 | A private outermost `Error` makes `errPub` nil, even when a deeper `Error` is public |
| ErrorUtils.PublicPartIsSelf | go/utils_err.go:105-111 | `errPub(err) == err` iff the top layer is itself a public `Error` |
| ErrorUtils.IsErrWithHttpStatus | go/utils_err.go:113-116 | Holds iff the outermost `Error` has exactly this raw status |
| ErrorUtils.IsErrWithDbCode | go/utils_err.go:118-121 | Holds iff the outermost `Error` has exactly this DB code |
| ErrorUtils.IsErrWithDbCodePrefix | go/utils_err.go:123-126 | Holds iff the outermost `Error`'s DB code starts with the prefix |
| ErrorUtils.IsErrNotFound | go/utils_err.go:132-137 | Holds iff the outermost `Error` has status 404 or the chain contains `sql.ErrNoRows` |
| ErrorUtils.IsErrUnauthenticated | go/utils_err.go:183-185 | Holds iff the outermost `Error` has status 401 |
| ErrorUtils.IsPgErrWithCode | go/utils_err.go:187-190 | Holds iff the outermost Postgres error has this code |
| ErrorUtils.IsPgErrWithConstraint | go/utils_err.go:192-195 | Holds iff the outermost Postgres error names this constraint |
| ErrorUtils.IsErrDbConstraint | go/utils_err.go:197-200 | Holds iff the outermost Postgres error names some constraint |
| ErrorUtils.IsErrDbError | go/utils_err.go:203-205 | Holds iff the outermost `Error`'s DB code starts with "db.error." |
| ErrorUtils.IsErrNetCancel | go/utils_err.go:164-166 | Holds iff the error is not nil and `strings.Index` finds "operation was canceled" in its text, at the position that index reports |
| ErrorUtils.IsErrDisconnect | go/utils_err.go:168-172 | Holds iff the outermost errno is ECONNRESET (104) or EPIPE (32) |
| ErrorUtils.IsErrNetDeadlineExceeded | go/utils_err.go:175-180 | Holds iff the outermost network error is a "read" and a deadline-exceeded error is somewhere in the chain |
| ErrorUtils.IsErrCancel | go/utils_err.go:151-166 | Holds iff the chain contains context cancellation or a finished transaction, or has a Postgres 57014, or its text mentions a canceled operation |
| ErrorUtils.IsErrPossiblyCancelRelated | go/utils_err.go:144-180 | Holds iff at least one of the seven signs of client disconnect is present, each spelled out |
| ErrorUtils.ShouldLogError | go/utils_err.go:207-220 | nil is never logged. An error in a canceled context is not logged if the context serves HTTP or the error looks cancel-related. Every other error is logged |
| ErrorUtils.BackgroundCancelStillLogs | go/utils_err.go:212-219 | A canceled background context still logs an error that does not look cancel-related |
| ErrorUtils.ErrNorm | go/utils_err.go:226-232 | A routing error on top becomes a public `Error` with the routing error's cause and status. Every other input, nil included, is returned unchanged |
| ErrorUtils.ErrNormDisclosesRouting | go/utils_err.go:226-232 | A normalised routing error is fully public and resolves to the routing status when that status is positive |
| ErrorUtils.ErrNormIdempotent | go/utils_err.go:226-232 | Normalising a second time changes nothing |
| Text.SliceRunes | go/utils_text.go:51-63 | Gives runes `[start, end)` when both bounds are inside. The end bound applies only when it lies inside the input, and the start bound only when it lies inside what is left. The result is never longer than the input and is always a substring of it |
| Text.StrOr | go/utils_text.go:65-72 | Gives "" iff every argument is empty; otherwise the first non-empty argument |
| Text.ContainsIffOccurs | go/utils_err.go:164-166 | `strings.Contains` holds iff the text occurs at some position |
| Text.Index | go/utils_err.go:165 | `strings.Index` gives the leftmost occurrence, with none before it, and -1 iff `strings.Contains` is false |
| Text.IntToString | go/utils_text.go:9-11 | Decimal rendering is non-empty and starts with '-' iff the value is negative |
| Text.SplitJoin | go/conf.go:86 | Splitting at the separator undoes `strings.Join` when no piece contains the separator |
| Text.Split | go/conf.go:86 | Splitting gives at least one piece, and no piece holds the separator |
| Ints.Wrap64 | go/utils_db.go:131 | Go's 64-bit `int` wrap-around: the result is in range, equals the input when the input is in range, and is congruent to it modulo 2^64 |
| Ints.Atoi | go/utils_db.go:127 | `strconv.Atoi` with its error ignored gives a 64-bit value, and 0 for text that is not a decimal number |
| Ints.AtoiFormatInt | go/utils_db.go:127 | `Atoi` reads back every 64-bit value written in decimal |
| DbCodeScan.MatchAt | go/utils_db.go:84 | At a given position the pattern matches iff the scanner finds a closing quote, and the scanner returns that quote |
| DbCodeScan.ScanFrom | go/utils_db.go:84 | Finds the leftmost match at or after a position, or shows that there is none |
| DbCodeScan.FindDbCode | go/utils_db.go:142-143 | Returns the leftmost quoted token that starts with `db.constraint` or `db.error` and continues in dot-separated word segments; returns nothing iff the text holds no match |
| DbCodeScan.FindQuotedToken | go/utils_db.go:142-144 | A text made of one quoted token yields exactly that token |
| DbErrors.SyntaxWindow | go/utils_db.go:126-133 | The window around a syntax error is never longer than the query and is always a substring of it |
| DbErrors.SyntaxWindowInside | go/utils_db.go:130-131 | Well inside the query, the window is the 128 runes on each side of the position |
| DbErrors.SyntaxWindowNearStart | go/utils_db.go:130-131 | Near the start of the query, the window keeps everything up to position + 128 |
| DbErrors.SyntaxWindowOverflowHarmless | go/utils_db.go:131 | For a query shorter than 2^63 runes, the 64-bit overflow of `pos + 128` never changes the window |
| DbErrors.PgContext | go/utils_db.go:119-133 | `DbContext` is `Where` if set, else `Hint` if set. If both are empty, a syntax error with a positive parsed position gets the window around that position |
| DbErrors.PgToError | go/utils_db.go:113-135 | Public iff a constraint is named or the code is 23514. The status is 0 and the DB code is the constraint name. `DbQuery` is the internal query. The cause is the stack-wrapped original |
| DbErrors.DecodeDbErr | go/utils_db.go:98-148 | nil iff the input is nil. Then, in order: `sql.ErrNoRows` anywhere gives a public 404; a Postgres error gives its classified `Error`; a quoted DB code in the text gives a public `Error` with that code; anything else is only wrapped with a stack |
| DbErrors.DecodeKeepsChain | go/utils_db.go:103-147 | The classified error keeps the whole original chain beneath it, and every sentinel stays detectable with `errors.Is` |
| DbErrors.DecodeNoRowsFirst | go/utils_db.go:103-105 | `sql.ErrNoRows` anywhere in the chain gives a fully public not-found error with status 404 |
| DbErrors.DecodeNamedConstraint | go/utils_db.go:117-124 | A named constraint violation is fully public, resolves to 400 and carries the constraint name as its DB code |
| DbErrors.DecodeUnnamedCheck | go/utils_db.go:117-124 | An unnamed check violation is public but has no DB code, so it resolves to 500 |
| DbErrors.DecodeOtherPgPrivate | go/utils_db.go:117 | Any other Postgres error is not disclosed: `errPub` of the result is nil |
| DbErrors.DecodeSyntaxContext | go/utils_db.go:126-133 | A syntax error without `Where` or `Hint` gets the window around its parsed position as `DbContext` |
| DbErrors.DecodeRaisedCode | go/utils_db.go:138-145 | Text raised by database code as a quoted DB-code token gives a public 400 with that DB code. `isErrDbError` holds iff the token has the "db.error." prefix |
| DbErrors.DecodeOtherUnchangedDisclosure | go/utils_db.go:147 | An unrecognised failure keeps its text, and what `errPub` discloses does not change |
| Transactions.BeginTx | go/utils_db.go:221-224 | A begin fails iff the driver fails. The error reads "failed to start DB transaction: " followed by the driver's text |
| Transactions.WithDbTx | go/utils_db.go:174-179 | A missing callback is an error with no transaction activity. Otherwise the callback runs in a transaction scope |
| Transactions.Panicked | go/utils_db.go:175 | A callback that panics leaves its scope with a non-nil error |
| Transactions.AmbientOnlyEnters | go/utils_db.go:181-184 | Under an ambient transaction, a scope and every nested scope only enter that transaction, however deep the nesting |
| Transactions.AmbientReuse | go/utils_db.go:181-184 | An ambient transaction is reused. The callback's error is returned verbatim, and nothing is begun or committed |
| Transactions.BeginFailure | go/utils_db.go:189-192 | When begin fails, the wrapped error is returned and the callback never runs |
| Transactions.FreshScope | go/utils_db.go:186-200 | Without an ambient transaction, exactly one transaction is begun. It is committed once, as the last event, iff the callback succeeded. A callback error is returned as is. Every event in between enters that transaction |
| Transactions.CommitDecides | go/utils_db.go:199-200 | After a successful callback the scope returns nil iff the commit succeeds. Otherwise the error reads "failed to commit transaction: " followed by the commit error |
| Transactions.PanicBecomesError | go/utils_db.go:175 | A panic becomes the scope's error and nothing is committed |
| Transactions.NestedJoins | go/utils_db.go:181-189 | A nested `withDbTx` inside a fresh scope joins the outer transaction. The whole run begins one transaction and commits it at most once |
| Contexts.CtxDbTx | go/utils_db.go:207-210 | No transaction iff no layer stores one. Otherwise it is the one stored by the newest layer that stores any |
| Contexts.IsCtxHttp | go/utils_server.go:19-29 | Holds iff some layer stores the request |
| Contexts.IsCtxCanceled | go/utils_misc.go:79-86 | Holds iff the context or one of its ancestors has been canceled |
| Contexts.CtxWithDbTx | go/utils_db.go:212-214 | The child's transaction lookup gives the new transaction. Whether it serves HTTP and whether it is canceled are inherited |
| Contexts.ReqWithReqCtx | go/utils_server.go:33-39 | The new context serves HTTP. Its transaction and cancellation are inherited |
| Server.WriteRes | go/utils_server.go:101-105 | Serves the response if there is one, and never logs |
| Server.WriteErr | go/utils_server.go:114-139 | nil does nothing. A log attempt happens iff the error is not itself a public `Error`, and the error is logged iff it also passes `shouldLogError`. With `wrote` set nothing is written. A public outermost `Error` is sent with its resolved status and `Error()` text. Anything else gets 500 "Unexpected Error" |
| Server.PrivateErrorsIndistinguishable | go/utils_server.go:134-138 | Any two errors without a public part produce the same response, so nothing of a private error reaches the client |
| Server.WrappedPublicLoggedAndSent | go/utils_server.go:119-132 | A public `Error` beneath a wrapper is still sent but also gets a log attempt. The bare public `Error` is sent with no log attempt |
| Server.WriteResOrErr | go/utils_server.go:141-147 | An error takes precedence and always writes a response. Without an error, the handler's response, if any, is served |
| Server.UnpanicResWith | go/utils_server.go:72-75 | A panic becomes a non-nil error with no response; a return is passed through |
| Server.ResWith | go/utils_server.go:67-70 | A panicking handler is answered with its error. A handler that returns is answered with its response or its error |
| Server.ResWithDbTx | go/utils_server.go:84-99 | The error `withDbTx` returns, including a commit failure, decides the reply. Without one, the handler's response is served |
| Server.CommitFailureOverridesResponse | go/utils_server.go:77-99 | A successful handler whose commit fails, when the driver's commit error carries no application `Error`, sends 500 "Unexpected Error" instead of its response |
| Server.CommitSuccessServesResponse | go/utils_server.go:84-99 | A successful handler whose commit succeeds has its response served, with no log attempt |
| Server.HandlerErrorAnswered | go/utils_server.go:77-99 | A failing handler is answered with its own error, and nothing is committed |
| Headers.IsHttpStatusOk | go/utils_http.go:17-19 | A status is OK iff it lies in 200..299 (`code / 100 == 2`), the success class |
| Headers.Patched | go/utils_http.go:50-56 | Every source key with values maps to exactly those values, in order. A source key with no values is removed. Other target keys are unchanged |
| Headers.PatchHeaderMut | go/utils_http.go:50-56 | The delete-then-add loop over the source's keys, in any order, leaves exactly the patched header |
| Headers.PatchHeader | go/utils_http.go:42-47 | Right-hand keys with values override. Left-only keys with values are kept. No other key is present |
| Headers.HttpHead | go/utils_http.go:66-70 | Exactly one key with one value |
| Reqdec.DownloadReqdec | go/types_http.go:25-28 | nil iff the download succeeded; otherwise a public 400 over the stack-wrapped library error |
| Reqdec.DecodeStruct | go/types_http.go:36-39 | nil iff decoding succeeded; otherwise a public 400 over the stack-wrapped library error |
| Reqdec.DecodeAt | go/types_http.go:41-44 | nil iff decoding succeeded; otherwise a public 400 over the stack-wrapped library error |
| Reqdec.DecodeValidateStruct | go/types_http.go:46-52 | Validation runs iff decoding succeeded. A decode error is returned as is. A validation failure becomes a public 400. The result is nil iff both succeed |
| Reqdec.ReqDownloadDecode | go/utils_server.go:41-49 | nil iff both download and decode succeed. A download error short-circuits. Every failure is a public 400 |
| Reqdec.ReqDownloadDecodeValidate | go/utils_server.go:51-57 | Validation runs iff download and decode succeeded. The result is nil iff all three succeed. Every failure is a public 400 |
| Reqdec.ToHttpReqParams | go/types_http.go:86-98 | A marshal failure gives empty parameters and the error. Otherwise method, URL and body are copied and the header is the JSON content type patched by the caller's header |
| Reqdec.JsonContentTypeDefault | go/types_http.go:95 | Without a caller `Content-Type` the content type is JSON. A caller's non-empty list replaces it. A caller's empty list removes the header altogether |
| Config.ConnSegments | go/conf.go:71-85 | Six fixed segments in order. Then a password segment iff a password is set, and last a port segment iff a port is set |
| Config.ConnStringSegments | go/conf.go:71-87 | Segments are joined by single spaces: splitting the string at spaces gives back exactly the segments |
| Config.ConnStringSpacedPassword | go/conf.go:80-86 | With a space in the password, splitting the string no longer gives back its segments, because values are not quoted |
| Paging.ValidLimit | go/types_misc.go:40-50 | Gives the default 24 when there is no limit. Otherwise the limit is capped at 48, so the result never exceeds 48 |
| Paging.ValidLimitIdempotent | go/types_misc.go:40-50 | A valid limit is accepted unchanged when asked for again |
| Paging.ValidOffset | go/types_misc.go:52-54 | The offset unchanged |
| Paging.CeilDiv | go/types_misc.go:75 | The least page count whose pages hold all rows |
| Paging.SubU64 | go/types_misc.go:85 | `uint64` subtraction wraps around below zero |
| Paging.PageInfoFrom | go/types_misc.go:72-106 | Total and per-page echo their inputs. A zero limit gives one page. Otherwise the page holds the offset and the page count is the ceiling. Next and previous pages exist iff total > 0 and they are in range, and `HasNext`/`HasPrev` mirror them |
| Paging.PageCountZeroIffEmpty | go/types_misc.go:73-76 | With a positive limit, the page count is 0 iff there are no rows |
| Paging.NextPageHasRows | go/types_misc.go:84-88 | An offered next page starts before the last row |
| Paging.LastPageHasNoNext | go/types_misc.go:84-88 | The page holding the last row offers no next page |
| Paging.IsValid | go/types_misc.go:113-115 | Holds iff the ID is present and at least 1 |
| Paging.Validate | go/types_misc.go:113-125 | nil iff the ID is present and positive. A missing ID gives "missing integer ID" |
| Paging.Maybe | go/types_misc.go:127-132 | Returns the ID iff it is valid |
| Paging.IntIdsIsEmpty | go/types_misc.go:140-142 | Holds iff the list is missing or has no elements |
| Paging.IntIdsStrings | go/types_misc.go:134-150 | One decimal string per ID, in order, and each string reads back as its ID |
| Feeds.QPaging | go/db_misc.go:76-89 | A limit clause iff the valid limit is positive. An offset clause iff the offset is positive. Limit comes before offset, and nothing else is emitted |
| Feeds.DbMaybeGetFeedTotal | go/db_misc.go:53-69 | `NoPageInfo` means no query and nothing changes. A failing count is returned with the feed untouched. Otherwise the page info is computed from the valid limit, the offset and the count |
| Feeds.DbGetFeedUnpaged | go/db_misc.go:14-25 | A total error short-circuits. The items query runs iff the total succeeded and the valid limit is positive. Its error or its rows are the outcome |
| Feeds.DbGetFeedWithFill | go/db_misc.go:32-43 | A total error short-circuits. The key query runs iff the total succeeded and the valid limit is positive. It is followed by exactly the fill calls of `dbQueryWithFill`, whose error is the result. The fetched keys become the feed's items. The page info is the one the total set |
| Feeds.ZeroLimitOnlyCounts | go/db_misc.go:21-23 | A limit of 0 issues at most the count query and reports one page |
| Feeds.MaybeDbFill | go/db_misc.go:132-138 | nil for a value that is not a filler; otherwise `DbFill`'s result |
| Feeds.FillErr | go/db_misc.go:110-120 | nil iff every element fills without error; otherwise the error of the first element that fails |
| Feeds.FillEach | go/db_misc.go:110-120 | The fill loop stops at the first error and returns it. It visits every element when there is no error |
| Feeds.FillQueries | go/db_misc.go:116-130 | Fills are issued only for fillers, in increasing order, and only the last one can fail |
| Feeds.FillQueriesComplete | go/db_misc.go:116-118 | No filler is skipped: every filler reached before any fill fails gets its own fill call |
| Feeds.DbQueryWithFill | go/db_misc.go:152-157 | A failing key query means no fill. Otherwise the fills run and their first error is returned |
| Misc.AllowNotFound | go/utils_misc.go:29-34 | Not-found errors become nil. Every other input, nil included, is returned unchanged |
| Misc.TryFound | go/utils_misc.go:36-42 | Not-found gives false. nil gives true. Any other error aborts with that error |
| Misc.TryFoundAgreesWithAllowNotFound | go/utils_misc.go:29-42 | `tryFound` aborts exactly on the errors `allowNotFound` lets through |
| Misc.AllowNotFoundIdempotent | go/utils_misc.go:29-34 | What `allowNotFound` lets through is never a not-found error, so applying it twice is the same as once |
| Misc.MaybeString | go/utils_misc.go:68-73 | Absent iff the input is ""; otherwise the input itself |
| Misc.ValidateRkind | go/utils_misc.go:47-52 | nil iff the kinds are equal; otherwise an error naming the expected kind, then the actual one |
| Misc.Last | go/utils_misc.go:75 | `i - 1`, wrapping to the maximum at the minimum 64-bit value |
| Misc.LastIndexesFinal | go/utils_misc.go:75 | `last` of a non-empty length is the index of the final element |
| Sql.SingleLineAppend | go/utils_sql.go:72-93 | Flattening a concatenation gives the concatenation of the flattened parts |
| Sql.SqlToSingleLine | go/utils_sql.go:72-93 | The token loop builds exactly the single-line form, and an empty token stream gives "" |
| Sql.CommentVanishes | go/utils_sql.go:83-84 | A line or block comment anywhere leaves no trace |
| Sql.WhitespaceIsOneSpace | go/utils_sql.go:85-86 | A whitespace token of any length becomes exactly one space |
| Sql.SingleLineHasNoNewline | go/utils_sql.go:72-93 | When no ordinary token holds a newline, the result holds none |
| Sql.SingleLineFixedPoint | go/utils_sql.go:87-88 | With no comments and only single-space whitespace, the text is kept verbatim |
| Sql.FormatSql | go/utils_db.go:157-162 | The original text under `PRETTY_SQL`, its single-line form otherwise |
| Sql.Exec | go/utils_sql.go:52-54 | nil iff the driver reports success for the formatted text and the unchanged arguments. A driver failure stays in the chain beneath the classification |
| Sql.Query | go/utils_sql.go:48-50 | nil iff the driver and the row scan both succeed |
| Sql.ExecSingleOutcomes | go/utils_db.go:30-36 | Succeeds iff exactly one row comes back. No row is a public 404 not-found. A driver failure is classified against the formatted text |
| Sql.TxVariantsDelegate | go/utils_sql.go:56-66 | `ExecTx` is `Exec` and `ExecTxSingle` is `ExecSingle` |

## Left out

- Process setup and I/O have no decision logic beyond what is modelled:
  - `Conf.Init` and `TryLogger`;
  - logging itself (`utils_log.go`), beyond whether a log attempt is made;
  - `main.go`, `server.go` and `db.go`;
  - `dbExecFile`/`dbExecFiles` (file reads);
  - the test harness and `testhack`.
- Foreign libraries are represented by their results, given as inputs:
  - query building (sqlb), including `qCount`, `maybeEmptyQuery`, `Cols` and `WrapSelectCols`;
  - row scanning (gos);
  - the SQL tokenizer;
  - request decoding (reqdec);
  - routing (rout, `server_routes.go`);
  - the Postgres driver's error type;
  - JSON encoding (`utils_json.go`).
- Header keys are taken to be canonical. `http.Header.Add` would canonicalise
  them, so `jsonResHeader`'s key is written as `Content-Type`.
- Reflection is represented by whether an element is a `DbFiller`. This
  covers `maybeDbFillRval`'s addressability test. `StructSqlArgs` and the
  `sfield*` helpers are left out.
- Feeds.DbQueryWithFill: the fetched items are always a sequence. So the
  error `maybeDbFillSlice` returns for items that are not a slice
  (`go/db_misc.go:113-114`) is not modelled.
- Cancellation is not modelled as concurrency:
  - whether a cancelable layer has fired is fixed at the moment of asking, so the race in `isCtxCanceled` is not modelled;
  - rolling back by cancelling the child context is represented as "never committed".
- Panics:
  - only panics with error values are modelled;
  - a panic value is recovered unchanged, without the stack trace the try library may attach.
- Paging.PageInfoFrom: `math.Ceil` over `float64` is computed as exact integer ceiling division. The two agree for totals below 2^53.
- `floatToString`, `randomCharSample`/`randomLetters`, `bytesToMutableString`
  and the other unsafe conversions are left out. So are `formatTime`,
  `sprintDetailed`, `StackTrace`, `%+v` formatting and `ctxDefault`/`counter`.
- ErrorModel.VerboseText: the `%+v` rendering of the cause is an abstract parameter, so only its presence is stated.
- ErrorModel.ChainText: the routing library is not part of this model. Its error is assumed to render as its cause's text. A network error renders as its operation, an abstract detail text, and then its cause.
- ErrorModel.Chain: any layer may sit beneath any other. Go cannot build some of these chains: a Postgres error and a sentinel are leaves with nothing beneath them. Every property is proved for all chains, these included.
- Config.PostgresConnString: has no contract of its own. `ConnSegments` describes its segments. `ConnStringSegments` proves they read back only for values without spaces. `ConnStringSpacedPassword` shows that a spaced password does not read back.
- Sql.ExecSingle: the row scanner's error for more than one row is a parameter.
- Sql.Exec: the query's text is represented by its token stream. Rendering the text and tokenizing it again is taken to give back the same tokens.
- Feeds.DbMaybeGetFeedTotal: a count whose scan fails part-way is taken to leave `Total` unwritten.
- Transactions.WithDbTx: `withReqDbTx` is `withDbTx` on the request's context and is not modelled separately.
- Misc.ValidateRkind: the kind names are those Go prints, with `%q` quoting, and are not checked further.
- Text.Index: a string here is a sequence of Unicode scalar values, not Go's byte string. So the offset is counted in runes where `strings.Index` counts bytes, and invalid UTF-8 (which a `[]rune` conversion turns into U+FFFD) cannot be represented. No decision depends on the offset's value: `IsErrNetCancel` only tests it against 0.
