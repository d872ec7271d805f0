# Saved-articles backend: a Dafny model of its decision logic

This project models the part of the saved-articles backend that takes decisions.
The backend is a NestJS service over a hosted Postgres store. The model covers:

- **The article service**: `getArticleById`, `getArticlesByUserId`, `create`,
  `update` and `delete`.
  - Each operation runs its guards and then one or two store calls.
  - It maps each `{data, error}` reply to a result or to a typed HTTP exception.
  - One catch policy covers all five operations. An `HttpException`, including
    any subclass, is rethrown unchanged. Anything else becomes "Internal server
    error" with status 500.
- **The authentication guard**: token extraction by `split("Bearer ")[1]`, the
  decision between "No token provided", "Invalid token" and access, and the
  assignment of `request.user`. What `getClient()` evaluates to is a parameter:
  the client, once awaited, or the pending Promise the guard reads as written
  (see "Findings").
- **The error taxonomy**: the four application exception classes, and the
  framework exceptions the service throws.
- **The global exception filter**: it builds the JSON body from the
  exception's response.
- **The application configuration**:
  - the CORS `origin` callback, with its trailing-slash comparison and its
    unanchored preview-deployment pattern;
  - the rate limiter's `keyGenerator`.

Store replies and identity-provider replies are inputs: every store call's
answer is a parameter. The calls an operation issues are recorded, so
"no store call happened" and "the insert was never issued" can be stated.
The request URL, the current time, `CLIENT_URL` and the request's addresses are
parameters too.

Files:

- `wrappers.dfy`: `Option`, and JavaScript truthiness of an optional string.
- `strings.dfy`: JavaScript `split` for a non-empty separator and its inverse
  `join`. Also the decimal rendering of an integer (`${n}`) and its inverse.
- `json_objects.dfy`: JavaScript objects as ordered lists of entries.
  - Assigning a key keeps an existing key in its place and appends a new key
    last.
  - This gives `{...a, ...b}` its values exactly, and its key order for keys
    that are not array indices (see "Left out").
- `exceptions.dfy`: the exception values and the service's catch policy.
- `exception_filter.dfy`: the global filter.
- `articles.dfy`:
  - the five operations as functions from the replies to the outcome and the
    issued calls;
  - the class `ArticlesService`, whose state-changing operations append to a
    ghost call log.
- `auth_guard.dfy`: token extraction, the decision, and the `Request` and
  `Guard` classes.
- `app_config.dfy`: the CORS origin callback and the rate-limit key.

The service does not throw the application's own `NotFoundException` and
`ConflictException`. It imports the framework's classes of those names
(`src/articles/articles.service.ts:1-9`). The model follows the code. The
framework builds those exceptions' bodies as `{message, error, statusCode}`.

Where the tests and the code disagree, the model follows the code:

- A duplicate article is rejected with the framework's `ConflictException`,
  status 409 (`src/articles/articles.service.ts:144-146`). The test at
  `src/articles/tests/articles.service.test.ts:231-250` names a
  `DatabaseException`, but its assertion compares only the message.
- `update` and `delete` have no guard against an empty id. The tests at
  `src/articles/tests/articles.service.test.ts:471-477` and `:555-559` rely on
  the mocked store throwing, which the catch block turns into the 500
  "Internal server error". In the model, an empty id reaches the store like
  any other id (`Articles.EmptyIdReachesStore`).

## Model

| member | source | states |
|---|---|---|
| Strings.IndexFrom | src/auth/auth.guard.ts:15 | The search `split` uses: the result is an occurrence of the separator at or after the start, with no earlier one; `None` means there is none. |
| Strings.JoinSplit | src/auth/auth.guard.ts:15 | `split` loses nothing: joining the pieces with the separator gives back the header. |
| Strings.SplitPiecesAreFree | src/auth/auth.guard.ts:15 | No piece of `split("Bearer ")` contains "Bearer ". |
| Strings.IntToStringRoundTrip | src/articles/articles.service.ts:164 | The decimal rendering of an id in the success message reads back as the same integer, with a leading '-' exactly for negative ids. |
| Strings.IntToStringInjective | src/articles/articles.service.ts:164 | Different ids render differently. |
| JsonObjects.Get | src/common/filters/http-exception.ts:32 | A property read finds a value exactly when the key is present. |
| JsonObjects.Put | src/common/filters/http-exception.ts:35-37 | Assigning a key keeps an existing key in its place, or appends a new key last. |
| JsonObjects.PutGet | src/common/filters/http-exception.ts:35-37 | After an assignment, the key reads as the new value and every other key reads as before. |
| JsonObjects.SpreadGet | src/common/filters/http-exception.ts:40-45 | After `{...a, ...b}`, a key of `b` reads as in `b`, and any other key reads as in `a`. |
| JsonObjects.SpreadKeyOrder | src/common/filters/http-exception.ts:40-45 | The keys of `{...a, ...b}` are those of `a` in order, then the keys of `b` not already in `a`, in their order in `b`. |
| JsonObjects.SpreadKeys | src/common/filters/http-exception.ts:40-45 | A spread keeps the keys of `a` first and in order, adds exactly the keys of `b`, and keeps keys distinct. |
| JsonObjects.SpreadFreshKeys | src/common/filters/http-exception.ts:24 | Spreading entries whose keys are all new appends them unchanged and in order. |
| JsonObjects.ShallowCopy | src/common/filters/http-exception.ts:24 | `{...o}` is `o`: same keys, same order, same values. |
| Exceptions.DatabaseException | src/common/exceptions/database.exception.ts:4-14 | Status 500. The body keys are, in order, `statusCode` (500, equal to the status), `error` ("Database Error") and `message` (the argument unchanged). |
| Exceptions.NotFoundException | src/common/exceptions/not-found.exception.ts:4-14 | Status 404. The body is `{statusCode: 404, error: "Not Found", message}`, in that order. |
| Exceptions.ConflictException | src/common/exceptions/conflict.exception.ts:5-15 | Status 409. The body is `{statusCode: 409, error: "Conflict", message}`, in that order. |
| Exceptions.ValidationException | src/common/exceptions/validation.exception.ts:4-14 | Status 400. The body is `{statusCode: 400, error: "Validation Error", details}` with the errors unchanged, and it has no `message` key. |
| Exceptions.FrameworkException | src/articles/articles.service.ts:1-9 | A framework exception has the given class and status. Its body keys are, in order, `message`, `error` and `statusCode`, holding the message, the status text and the status. |
| Exceptions.UnauthorizedException | src/auth/auth.guard.ts:18 | Status 401. The body is `{message, error: "Unauthorized", statusCode: 401}`, in that order. It is also thrown at lines 28 and 35, and at src/articles/articles.service.ts:127. |
| Exceptions.FrameworkNotFoundException | src/articles/articles.service.ts:50 | Status 404. The body is `{message, error: "Not Found", statusCode: 404}`, in that order. |
| Exceptions.FrameworkConflictException | src/articles/articles.service.ts:145 | Status 409. The body is `{message, error: "Conflict", statusCode: 409}`, in that order. |
| Exceptions.Rethrow | src/articles/articles.service.ts:60-67 | The catch policy: an HttpException is rethrown unchanged; anything else becomes status 500 "Internal server error". |
| ExceptionFilter.KeepValidationMessages | src/common/filters/http-exception.ts:29-38 | Both arms of the 400-with-array-message branch leave the object exactly as it was. |
| ExceptionFilter.Defaults | src/common/filters/http-exception.ts:40-43 | The default keys are `statusCode`, `timestamp` and `path`, in that order, holding the status, the time and the request URL. |
| ExceptionFilter.Catch | src/common/filters/http-exception.ts:12-45 | The written status is `getStatus()`. The body starts with the keys `statusCode`, `timestamp` and `path`. |
| ExceptionFilter.CatchKeyOrder | src/common/filters/http-exception.ts:40-45 | The body lists `statusCode`, `timestamp` and `path`, then the response's other keys in the response's own order. |
| ExceptionFilter.CatchKeys | src/common/filters/http-exception.ts:40-45 | The body has exactly the three default keys plus the keys of the converted response. |
| ExceptionFilter.CatchOmits | src/common/filters/http-exception.ts:40-45 | A key that is neither a default nor in the response is absent from the body. |
| ExceptionFilter.CatchGet | src/common/filters/http-exception.ts:40-45 | A key the response carries reads as in the response and overrides the default; any other key reads as its default. |
| ExceptionFilter.RecordCopied | src/common/filters/http-exception.ts:23-24 | An object response is taken over as it is. |
| ExceptionFilter.RecordResponseCopied | src/common/filters/http-exception.ts:23-24 | Every key of an object response reads in the body as in the response. |
| ExceptionFilter.TextResponseBody | src/common/filters/http-exception.ts:21-22 | A string response ends up under `error`, beside the default `statusCode`, `timestamp` and `path`, with no `message`. |
| ExceptionFilter.NonObjectResponseBody | src/common/filters/http-exception.ts:25-26 | Any response that is neither a string nor an object gives `error: "Internal server error"`. |
| ExceptionFilter.DatabaseExceptionKeyOrder | src/common/filters/http-exception.ts:40-45 | A DatabaseException's body keys are `statusCode`, `timestamp`, `path`, `error`, `message`, in that order. |
| ExceptionFilter.DatabaseExceptionBody | src/common/exceptions/database.exception.ts:6-13 | A DatabaseException reaches the client as status 500 with `statusCode` 500, `error` "Database Error", its message and the request path. |
| ExceptionFilter.ValidationExceptionBody | src/common/exceptions/validation.exception.ts:6-13 | A ValidationException reaches the client as status 400 with its `details`, its `error` label, and no `message`. |
| ExceptionFilter.ResponseStatusCodeOverrides | src/common/filters/http-exception.ts:40-45 | A response's own `statusCode` (418) wins in the body while the HTTP status stays the exception's (500). |
| Articles.AckMessage | src/articles/articles.service.ts:164 | The message is "Article #", the id in decimal, then " <verb> successfully"; the digits between read back as the id. The same template is used at lines 204 and 241. |
| Articles.AckMessageNamesArticle | src/articles/articles.service.ts:162-165 | A success message determines its article id. |
| Articles.GetArticleById | src/articles/articles.service.ts:25-69 | Covers every branch. An empty id gives 400 "Article ID is required" before any store call. Otherwise the client is obtained and the row is selected, in that order. A store error gives a DatabaseException with the store's message. A null row gives a 404 "Article with id <id> not found". Success happens exactly when there is a row and no error, and returns that row unchanged. |
| Articles.GetArticlesByUserId | src/articles/articles.service.ts:72-115 | An empty user id gives 400 "User ID is required" before any store call. A store error gives a DatabaseException with the store's message. Otherwise the result is the rows, or `[]` for null data. Success happens exactly when there is no error. |
| Articles.CreateArticle | src/articles/articles.service.ts:118-180 | A user-id mismatch gives 401 "User ID mismatch" with no store call. Otherwise the client comes first and the duplicate query on (title, user) second. The insert is issued exactly when that check passes; when it fails, those two are the only calls. Success happens exactly when the check passes and the insert returns an id without an error. The message is "Article #<id> created successfully". |
| Articles.CreateDuplicateCheckFailures | src/articles/articles.service.ts:140-146 | A check error whose code is not PGRST116 gives a DatabaseException. Any list other than `[]`, including null data, gives 409 "Article already exists". Neither case inserts. |
| Articles.CreateInsertFailures | src/articles/articles.service.ts:149-165 | After a passed check, the calls are client, duplicate query and insert. An insert error gives a DatabaseException with the store's message. A null id gives the 500 internal error. |
| Articles.UpdateArticle | src/articles/articles.service.ts:183-218 | The client comes first, then the update by id. A store error gives a DatabaseException with the store's message, or "Error updating article <id>" when that message is empty. A reply with neither data nor error reads `.id` of null and becomes the 500 internal error. A thrown reply follows the catch policy. Success happens exactly when an id comes back, and the message is "Article #<id> updated successfully". |
| Articles.DeleteArticle | src/articles/articles.service.ts:221-256 | The same as update, with "Error deleting article <id>" and "deleted". |
| Articles.ThrownRepliesFollowPolicy | src/articles/articles.service.ts:55-68 | In all five operations, a rejected store call reaches the caller through the catch policy: an HttpException unchanged, anything else as the 500 internal error. For create this holds for the duplicate check whatever the insert would have replied, and for the insert after a passed check. |
| Articles.EmptyIdReachesStore | src/articles/articles.service.ts:183-210 | Update and delete send an empty id to the store. A store error with an empty message gives a DatabaseException with the bare "Error updating article " or "Error deleting article ". A thrown HttpException passes through unchanged, and a thrown non-HTTP failure becomes the 500 internal error. |
| Articles.ArticlesService.Create | src/articles/articles.service.ts:118-180 | The outcome is that of `CreateArticle`. The log grows by exactly the calls `CreateArticle` issues. |
| Articles.ArticlesService.RejectDuplicate | src/articles/articles.service.ts:133-146 | A thrown check follows the catch policy. A check error other than PGRST116 gives a DatabaseException with the store's message. Any list other than `[]` gives 409 "Article already exists". No exception is returned exactly when the check passes. Each result agrees with `CheckDuplicates` under the catch policy. |
| Articles.ArticlesService.SettleInsert | src/articles/articles.service.ts:149-165 | A thrown insert follows the catch policy. An insert error gives a DatabaseException with the store's message. A reply with neither data nor error gives the 500 internal error. Success happens exactly when an id comes back, with "Article #<id> created successfully". The result agrees with `InsertDraft` under the catch policy. |
| Articles.ArticlesService.Update | src/articles/articles.service.ts:183-218 | The outcome is that of `UpdateArticle`. The log grows by the client call and the update. |
| Articles.ArticlesService.Delete | src/articles/articles.service.ts:221-256 | The outcome is that of `DeleteArticle`. The log grows by the client call and the delete. |
| Articles.ArticlesService.Settle | src/articles/articles.service.ts:196-205 | A thrown reply follows the catch policy. A store error gives a DatabaseException with its message, or the fallback "<failure><id>" when the message is empty. A reply with neither data nor error gives the 500 internal error. Success happens exactly when an id comes back, with "Article #<id> <verb> successfully". The result agrees with `WriteById` under the catch policy. |
| AuthGuard.ExtractToken | src/auth/auth.guard.ts:15 | A token comes back exactly when there is a header and it contains "Bearer ". The token never contains "Bearer ". |
| AuthGuard.TokenPresentIffBearer | src/auth/auth.guard.ts:15 | A token segment exists exactly when the header contains "Bearer ". |
| AuthGuard.TokenIsSecondSegment | src/auth/auth.guard.ts:15 | The token is the text right after the first "Bearer ", up to the next "Bearer " or the end, and it never contains "Bearer ". |
| AuthGuard.BearerRoundTrip | src/auth/auth.guard.ts:15 | "Bearer " followed by a token free of "Bearer " yields exactly that token. |
| AuthGuard.ValidTokenExample | src/auth/auth.guard.test.ts:39-44 | "Bearer valid-token" yields "valid-token". |
| AuthGuard.Decide | src/auth/auth.guard.ts:13-37 | Every rejection is 401. "No token provided" occurs exactly when no non-empty token was extracted, so it is never rewritten. Every other rejection is "Invalid token", including a provider error, a null user or a throw. Access is granted exactly when the client was awaited and the provider answers a token with a user and no error, and with that user. |
| AuthGuard.ProviderCalls | src/auth/auth.guard.ts:17-25 | The provider is asked at most once. It is asked exactly when there is a token and the client was awaited, and with exactly that token. |
| AuthGuard.UnawaitedClientNeverGrants | src/auth/auth.guard.ts:25 | With `getClient()` not awaited, no request is granted, the provider is never asked, and every request with a token is rejected with "Invalid token". |
| AuthGuard.ValidTokenRejectedAsWritten | src/auth/auth.guard.test.ts:39-44 | "Bearer valid-token" with a resolved user is granted with the awaited client and rejected with "Invalid token" as the guard is written. |
| AuthGuard.Guard.CanActivate | src/auth/auth.guard.ts:13-37 | The result is that of `Decide`. `request.user` is set to the user only on access and is unchanged otherwise. The provider log grows by exactly `ProviderCalls`. |
| AppConfig.StripTrailingSlash | src/configApp.ts:68-70 | A string without a trailing slash is unchanged. Otherwise the result is the string with exactly its last slash removed. |
| AppConfig.StripAppendedSlash | src/configApp.ts:68-70 | Removing the slash just appended gives the string back. |
| AppConfig.StripEqualIff | src/configApp.ts:68-71 | Stripping one trailing slash from each side makes two strings equal exactly when they differ by at most one trailing slash on one side. |
| AppConfig.LazyFromCorrect | src/configApp.ts:64 | The lazy `.*?` succeeds exactly when the suffix occurs after a run of characters that are not line terminators. |
| AppConfig.SearchFromCorrect | src/configApp.ts:64 | The unanchored search from a position succeeds exactly when a match starts at or after it. |
| AppConfig.IsVercelPreview | src/configApp.ts:62-66 | The executable test answers true exactly when the preview pattern matches somewhere in the origin. |
| AppConfig.PreviewNeedsLength | src/configApp.ts:64 | A matching origin has at least 57 characters. |
| AppConfig.OriginCallback | src/configApp.ts:57-76 | An origin is allowed exactly when it is missing or empty, contains a preview match, or equals CLIENT_URL up to one trailing slash. A refusal carries exactly "Not allowed by CORS", and an allowed origin carries no error. |
| AppConfig.TrailingSlashExamples | src/configApp.ts:68-71 | "https://a.com/" matches CLIENT_URL "https://a.com", and "https://a.com//" does not. |
| AppConfig.PreviewAllowedAnywhere | src/configApp.ts:62-66 | A preview origin is allowed whatever CLIENT_URL is, even when the match is embedded in a longer origin. |
| AppConfig.NoClientUrl | src/configApp.ts:68-71 | Without CLIENT_URL, only an empty origin or a preview origin passes. |
| AppConfig.RateLimitKey | src/configApp.ts:29-36 | The key is never empty. It is the first truthy value of the IP, `x-forwarded-for`, the socket address and "unknown". |

## Findings

| source | as written | input that shows it | evidently intended | confidence | as-written member | corrected member |
|---|---|---|---|---|---|---|
| src/auth/auth.guard.ts:25 | `getClient()` is `async` (src/supabase/index.ts:22) and is not awaited, so `.auth` is read off a Promise and calling `getUser` throws a TypeError, which line 35 turns into "Invalid token". No request with a token is ever granted. | Header "Bearer valid-token" with a provider that resolves the user `{id: "1", email: "test@example.com"}` | `(await this.supabaseService.getClient()).auth.getUser(token)`: the user is resolved and access is granted | not executed | AuthGuard.ValidTokenRejectedAsWritten | AuthGuard.Decide |

## Left out

- The `@Timeout()` decorator on every service operation is left out. It races the operation against a timer, which is timing and concurrency. Its rule that a negative timeout still counts is not modelled.
- Obtaining the store client is not modelled as a source of failure. `getClient` is recorded as a call but cannot fail in the model. A rejection there would follow the same catch policy as a rejected query.
- The store, the network and the identity provider are not modelled. Their replies are inputs.
- Logging is left out. Its only effect on an outcome is through the catch blocks, which log `(error as any).message` (src/articles/articles.service.ts:57, 104, 169, 208, 245): a store call rejected with `null` or `undefined` makes that read throw a TypeError inside the catch block, so the operation rejects with the TypeError instead of the 500 "Internal server error". Such rejections are not modelled: `Thrown` has no value for them, and store clients reject with error objects.
- Concurrent `create` calls are not modelled. Two of them can both pass the duplicate check before either inserts. The model covers one call at a time.
- The framework's own exception classes (`UnauthorizedException`, `NotFoundException`, `ConflictException`) are framework code. Their bodies are modelled as the framework builds them, `{message, error, statusCode}`.
- JSON numbers are integers in the model. Store ids are integers, and `${id}` is modelled only for integers.
- DTO validation, the controller, module wiring, bootstrapping, helmet, compression and the rate-limit window are left out. They are library configuration or routing.
- `x-forwarded-for` as a list of values is not modelled. The header is treated as a single optional string, as the code's cast assumes.
- The filter's final `res.status(status).json(body)` write is I/O. `ExceptionFilter.Catch` returns the status and the body instead.
- `timestamp` is an input string. `new Date().toISOString()` is a clock read.
- AuthGuard.Guard.CanActivate: `request.user` and the provider log describe the guard with an awaited client (`AwaitedClient`); as written it takes the `PendingPromise` path, which never sets `request.user` and never asks the provider (see "Findings").
- AuthGuard.ProviderCalls: nonempty only with `AwaitedClient`, for the same reason.
- JsonObjects.Put: keys keep insertion order. JavaScript lists array-index keys such as "0" or "42" first, in ascending order, so for a response object with such keys the body's key order in the model differs. Values are unaffected.
- ExceptionFilter.Catch: an array returned by `getResponse()` (typeof "object") is not one of the modelled response cases, which are a string, a plain object, `null` and any other value.
- Strings.IntToString: ids above `Number.MAX_SAFE_INTEGER` (2^53 - 1) are not modelled. JavaScript numbers are doubles: parsing the store's JSON already rounds such ids, and `${n}` prints the shortest digits that read back to the same double, padded with zeros (2^60 renders as "1152921504606847000"), and switches to exponent notation from 1e21 on. The model writes every digit of the exact integer.
