# Olirum user-management API core, in Dafny

This project models the decision logic of a Laravel API that manages user
accounts under a role-based access-control scheme. The roles are root, admin,
gerente, vendedor and cliente. The model covers:

- the permission matrix (`config/permissions.php`) and `AuthService::checkPermission`,
  which admits a user for a (module, action) pair;
- `AuthService::canManageUser` as shipped (it returns before evaluating anything)
  and, separately, the manager/target hierarchy rule written after that `return`;
- the `CheckModulePermission` middleware, which turns any denial into a 403 envelope;
- the `RateLimitLogin` middleware: the throttle key and a per-key attempt counter
  (a class over a `map<string, nat>`);
- the `UserController` actions `index` (filter, order, defaults), `store` and `update`
  (validation, one or two hierarchy checks, then the write to a users table class)
  and `uploadClientes` (file rules, storage, job dispatch);
- the two form requests `StoreUserRequest` and `UpdateUserRequest`;
- the queued CSV import job `ProcessarUploadClientes`, an imperative loop over the
  rows that inserts clients and counts successes, wrong profiles and duplicates;
- the two mail notifications, the `ReturnJson` envelope of `TraitReturnJsonOlirum`,
  the `User` model, and the API exception renderer.

Each source file is one module: `Permissions`, `AuthService`, `CheckModulePermission`,
`RateLimitLogin`, `UserController`, `UserRequests` (both form requests), `ImportClientes`,
`Json`, `ApiExceptionHandler`, `ClientesImportados`, `ResumoClientes` and `UserModel`.
`UserTable` is the users table that the controller and the job write to. `Exceptions`,
`Text` and `Wrappers` are shared definitions.

The controller takes a `Policy` argument. `AsShipped` calls `canManageUser` as the code
stands. `RuleEnforced` calls the hierarchy rule its body documents. This lets both be
stated and compared (see "Findings").

Where the code behaves differently from what its design describes, the model follows the code:

- `canManageUser` enforces nothing, because it returns at its first line.
- A missing user in `checkPermission` is answered with 403, not 401. It is an
  `AccessDeniedHttpException`, and the middleware turns every exception into 403.
- Self-edit needs a truthy target id (`$idAlvo && ...`), so id 0 never counts as self.
- The import never falls back to status `ativo`. `fgetcsv` fields are strings, never
  null, so `?? 'ativo'` cannot fire, and the row's own status, even an empty one, is stored.
- Root is admitted before the matrix is read. Its `'*' => ['*']` entry is never consulted,
  and `*` means nothing special for the other roles.

## Model

| member | source | states |
|---|---|---|
| Permissions.RoleKeys | api/config/permissions.php:14-43 | the matrix's role keys are exactly root, admin, gerente, vendedor, cliente |
| Permissions.RootEntry | api/config/permissions.php:15-17 | root's entry is the single pair `*` => [`*`] |
| Permissions.DestroyUsersOnlyAdmin | api/config/permissions.php:18-42 | among non-root roles only admin lists destroy on users; cliente has no users module |
| Permissions.SummaryOnlyAdminGerente | api/config/permissions.php:20-27 | notifications/solicitarResumoClientes is granted to admin and gerente only |
| Permissions.UsersActionsNested | api/config/permissions.php:19-33 | vendedor's users actions are among gerente's, gerente's among admin's |
| Permissions.UploadClientesUnlisted | api/config/permissions.php:19-33 | no non-root role lists the routed action uploadClientes, nor a `*` module or action; the route table binds uploadClientes and never usersUploadCsv |
| AuthService.CheckPermission | api/app/Services/AuthService.php:31-77 | passes iff the user exists and is root, or is active and the matrix literally lists the action under the module for the role; every failure is a 403 access-denied or the config-missing exception |
| AuthService.CheckPermissionReasons | api/app/Services/AuthService.php:36-65 | the denial message of each failing case, in check order: unauthenticated, inactive (root exempt), config missing, role not configured |
| AuthService.CheckPermissionShippedMatrix | api/app/Services/AuthService.php:63-76 | with the shipped matrix an active non-root user passes exactly for the listed pairs; an unknown role and `*` never pass |
| AuthService.UploadClientesRootOnly | api/app/Services/AuthService.php:71-76 | users/uploadClientes passes the check for root alone |
| AuthService.CanManageUser | api/app/Services/AuthService.php:89-91 | as shipped: never denies; only a null target role fails, with the TypeError of the `string` parameter |
| AuthService.HierarchyRule | api/app/Services/AuthService.php:92-127 | the rule body: every failure is the TypeError or a 403 access denial |
| AuthService.Rank | api/app/Services/AuthService.php:103-127 | a privilege rank defined exactly on the five configured roles |
| AuthService.RootAndSelfAlwaysAllowed | api/app/Services/AuthService.php:93-100 | root manages any role; any operator manages its own record (same non-zero id) |
| AuthService.HierarchyIsStrictRank | api/app/Services/AuthService.php:103-127 | outside root and self-edit, on a configured target the rule passes iff the operator's rank is strictly higher; unknown operator roles manage nobody |
| AuthService.HierarchyUnknownTarget | api/app/Services/AuthService.php:103-127 | a target role outside the five passes admin and gerente and is refused by vendedor |
| AuthService.ShippedSkipsHierarchy | api/app/Services/AuthService.php:89-121 | vendedor over admin: passes as shipped, refused by the rule |
| CheckModulePermission.Handle | api/app/Http/Middleware/CheckModulePermission.php:41-74 | a passing check forwards `next` unchanged; any exception becomes a 403 envelope with null data and the exception's message |
| CheckModulePermission.DenialIgnoresNext | api/app/Http/Middleware/CheckModulePermission.php:56-72 | on denial the answer does not depend on `next` and is a 403 failure envelope |
| CheckModulePermission.ConfigMissingIs403 | api/app/Http/Middleware/CheckModulePermission.php:61-72 | the config-missing exception is answered with 403 and its message |
| CheckModulePermission.RouteTableAccess | api/routes/api/v1/private/users.php:10-25 | for every protected route, an active user passes iff root or granted the route's (module, action); the upload route admits root alone |
| RateLimitLogin.ResolveKey | api/app/Http/Middleware/RateLimitLogin.php:75-82 | the key is the prefix, the lower-cased e-mail (anonymous when absent), `|`, the IP: its length, prefix, separator position, tail and lower case |
| RateLimitLogin.KeyIgnoresCase | api/app/Http/Middleware/RateLimitLogin.php:78 | e-mails equal up to case give the same key |
| RateLimitLogin.KeyDeterminesEmailAndIp | api/app/Http/Middleware/RateLimitLogin.php:75-82 | equal keys mean equal IPs and equal lower-cased e-mails, for IPs without `|` |
| RateLimitLogin.ThrottledResponse | api/app/Http/Middleware/RateLimitLogin.php:37-49 | the 429 failure envelope carrying retry_after_seconds and max_attempts 5 |
| RateLimitLogin.Remaining | api/app/Http/Middleware/RateLimitLogin.php:65 | attempts left: at most 5, and 5 minus the attempts while they are at most 5 |
| RateLimitLogin.WithLimitHeaders | api/app/Http/Middleware/RateLimitLogin.php:63-66 | the forwarded response keeps status and body and gains the limit (5) and remaining headers |
| RateLimitLogin.LoginThrottle.Handle | api/app/Http/Middleware/RateLimitLogin.php:29-69 | for the cleaned key of the request's e-mail and IP: forwarded iff fewer than 5 attempts; refused: 429, counters unchanged; forwarded: that cleaned key's counter plus one, all other counters unchanged, headers from the new count |
| RateLimitLogin.LoginThrottle.Hit | api/app/Http/Middleware/RateLimitLogin.php:37-66 | the same decision for a given key: refused at 5 attempts without counting; otherwise exactly that counter is incremented |
| RateLimitLogin.LoginThrottle.Expire | api/app/Http/Middleware/RateLimitLogin.php:27 | the elapsed window drops this key's counter only |
| RateLimitLogin.CleanedKeysShareCounter | api/app/Http/Middleware/RateLimitLogin.php:37-55 | two requests whose keys clean to the same string share one counter: once it holds 5 attempts, the other request is refused too, counters unchanged |
| RateLimitLogin.SixthAttemptThrottled | api/app/Http/Middleware/RateLimitLogin.php:26-55 | from a fresh cache, on one key: five passes, the sixth refused, and one more passes after expiry |
| Json.ReturnJson | api/app/Traits/TraitReturnJsonOlirum.php:28-61 | the status is in 100..599, an in-range code is kept and any other becomes 200; the body has exactly data, message, status (cast to bool) and code (equal to the status sent) |
| Json.ReturnJsonCodeStable | api/app/Traits/TraitReturnJsonOlirum.php:35-37 | re-sending the resulting code gives the same response |
| Exceptions.Flatten | api/app/Exceptions/ApiExceptionHandler.php:56 | a message is in the flattened list iff some field carries it |
| Exceptions.AccessDenied | api/app/Services/AuthService.php:37 | an access-denied HTTP exception is an Exception with status 403 and the given message |
| ApiExceptionHandler.Render | api/app/Exceptions/ApiExceptionHandler.php:44-101 | renders iff the path is under `api/` and the throwable is an Exception; every rendered answer is a failure envelope with a valid status |
| ApiExceptionHandler.RenderStatus | api/app/Exceptions/ApiExceptionHandler.php:49-101 | the classification: 422, 409, 404, 401, 404, 405, the HTTP exception's own status and message, 500 |
| ApiExceptionHandler.SpecificHttpArmsWin | api/app/Exceptions/ApiExceptionHandler.php:71-92 | not-found and method-not-allowed HTTP exceptions get the fixed 404/405 answers |
| ApiExceptionHandler.ValidationDataIsAllMessages | api/app/Exceptions/ApiExceptionHandler.php:55-56 | the 422 data lists a message iff some field carries it |
| ApiExceptionHandler.UniqueViolationResponse | api/app/Exceptions/ApiExceptionHandler.php:109-126 | 409 failure envelope whose data is the one friendly message naming the column |
| ApiExceptionHandler.UnexpectedResponse | api/app/Exceptions/ApiExceptionHandler.php:131-153 | 500 with the generic message; data empty unless debug, then error, file and the first (at most five) trace frames |
| ApiExceptionHandler.FindSuffix | api/app/Exceptions/ApiExceptionHandler.php:114 | the lazy `(.*?)_unique'`: the first `_unique'` at or after a position, not crossing a newline |
| ApiExceptionHandler.FindSuffixFirst | api/app/Exceptions/ApiExceptionHandler.php:114 | the first such suffix is the one found |
| ApiExceptionHandler.TryDotsReachesDot | api/app/Exceptions/ApiExceptionHandler.php:114 | the lazy `.*?\.` stops at the first dot that a suffix follows |
| ApiExceptionHandler.MatchColumnFirst | api/app/Exceptions/ApiExceptionHandler.php:114 | the leftmost `for key '` that matches gives the capture |
| ApiExceptionHandler.ColumnOfFirstKey | api/app/Exceptions/ApiExceptionHandler.php:112-116 | the column is the upper-cased text between the first dot after the first `for key '` and the next `_unique'` |
| ApiExceptionHandler.TryDotsNoSuffix | api/app/Exceptions/ApiExceptionHandler.php:114 | without any `_unique'` no dot matches |
| ApiExceptionHandler.MatchColumnNoSuffix | api/app/Exceptions/ApiExceptionHandler.php:114 | without any `_unique'` the pattern does not match |
| ApiExceptionHandler.ColumnDefaultsToRegistro | api/app/Exceptions/ApiExceptionHandler.php:112-116 | a message without `_unique'` reports REGISTRO |
| ApiExceptionHandler.NoSuffixBeforeQuote | api/app/Exceptions/ApiExceptionHandler.php:114 | `_unique'` cannot start before a match when no quote lies in between |
| ApiExceptionHandler.KeyColumn | api/app/Exceptions/ApiExceptionHandler.php:112-118 | for a key `table.index_unique` with a dot-free table and a quote-free index name, the column is the upper-cased index name |
| ApiExceptionHandler.UpperUsersEmail | api/app/Exceptions/ApiExceptionHandler.php:115 | upper-casing users_email gives USERS_EMAIL |
| ApiExceptionHandler.MysqlEmailKeyColumn | api/app/Exceptions/ApiExceptionHandler.php:112-118 | the duplicate-email key `users.users_email_unique` reports USERS_EMAIL |
| UserModel.AtMostOneRole | api/app/Models/User.php:101-129 | isAtivo is status == ativo; at most one role predicate holds |
| UserModel.SetName | api/app/Models/User.php:92 | the stored name has the same length and no upper-case letter |
| UserModel.GetName | api/app/Models/User.php:91 | the read name has the same length and lower-cases to the stored one |
| UserModel.SetNameIdempotent | api/app/Models/User.php:92 | setting a name twice stores the same as once |
| UserModel.NameRoundTrip | api/app/Models/User.php:90-93 | reading after writing x gives ucwords(lower(x)); writing back what was read stores the same |
| UserModel.Serialize | api/app/Models/User.php:37-40 | serialised output has every attribute but password and remember_token, with the name through its accessor |
| UserModel.Fill | api/app/Models/User.php:25-32 | each fillable key present is written (name through the mutator, password hashed), everything else kept |
| UserModel.FillIgnoresUnfillable | api/app/Models/User.php:25-32 | keys outside the fillable list change nothing |
| UserModel.Create | api/app/Http/Controllers/Api/V1/Users/UserController.php:64-70 | a created row has the given id, e-mail, role, status, the given password hash, the mutated name, and no verification time or remember token |
| Text.Lower | api/app/Http/Middleware/RateLimitLogin.php:78 | ASCII lower-casing, character by character |
| Text.UcWords | api/app/Models/User.php:91 | the first character and each one after a delimiter upper-cased, the others kept |
| Text.LowerUndoesUcWords | api/app/Models/User.php:91-92 | lower-casing undoes ucwords |
| UserRequests.ProfileKeysAreConfiguredRoles | api/app/Http/Requests/V1/User/StoreUserRequest.php:24 | the allowed tipo values are exactly the matrix's role keys |
| UserRequests.TipoInListsProfileKeys | api/app/Http/Requests/V1/User/StoreUserRequest.php:40-65 | the tipo.in message names the configured profiles joined by `, ` |
| UserRequests.NameErrors | api/app/Http/Requests/V1/User/StoreUserRequest.php:26 | no error iff present when required and, when filled, 3..255 characters |
| UserRequests.EmailErrors | api/app/Http/Requests/V1/User/StoreUserRequest.php:27 | no error iff present when required and, when filled, well-formed, at most 255 and not taken |
| UserRequests.PasswordErrors | api/app/Http/Requests/V1/User/StoreUserRequest.php:28 | no error iff present when required and, when filled, at least the minimum length |
| UserRequests.InErrors | api/app/Http/Requests/V1/User/StoreUserRequest.php:29-30 | no error iff a filled value is in the allowed list |
| UserRequests.Validated | api/app/Http/Controllers/Api/V1/Users/UserController.php:112 | validated() holds exactly the present rule fields with their values |
| UserRequests.ValidateStore | api/app/Http/Requests/V1/User/StoreUserRequest.php:21-32 | Ok iff the create rules hold, with the validated fields; otherwise a non-empty validation exception |
| UserRequests.StoreReportsMissingFields | api/app/Http/Requests/V1/User/StoreUserRequest.php:44-56 | missing name, e-mail and password are each reported with their own message |
| UserRequests.ValidateUpdate | api/app/Http/Requests/V1/User/UpdateUserRequest.php:21-50 | not found iff no row has the id, before any rule; Ok iff found and the partial rules hold with the row's own e-mail ignored |
| UserRequests.EmptyUpdateValid | api/app/Http/Requests/V1/User/UpdateUserRequest.php:37-49 | an update with no field validates to nothing |
| UserRequests.UpdateKeepsOwnEmail | api/app/Http/Requests/V1/User/UpdateUserRequest.php:40-45 | re-sending the row's own e-mail passes `unique` |
| UserRequests.PasswordStricterOnUpdate | api/app/Http/Requests/V1/User/UpdateUserRequest.php:46 | a 6- or 7-character password passes on create and fails on update |
| UserTable.IndexOf | api/app/Http/Controllers/Api/V1/Users/UserController.php:88 | finds a row with the id, and finds none iff no row has it |
| UserTable.Table.Insert | api/app/Http/Controllers/Api/V1/Users/UserController.php:64-70 | a stored e-mail is refused by the unique index with nothing written; otherwise the row with the next id is appended |
| UserTable.ReplaceKeepsWellFormed | api/app/Http/Controllers/Api/V1/Users/UserController.php:113 | a row rewritten with its own id and an e-mail no other row holds keeps ids increasing and e-mails unique |
| UserTable.Table.Update | api/app/Http/Controllers/Api/V1/Users/UserController.php:113 | refused iff another row holds the filled row's e-mail, with the duplicate-entry error and no change; otherwise exactly that row becomes the filled row; table stays well formed |
| UserController.Manage | api/app/Http/Controllers/Api/V1/Users/UserController.php:59-62 | a pass needs a target role; as shipped it passes iff there is one |
| UserController.Newest | api/app/Http/Controllers/Api/V1/Users/UserController.php:47 | the selected rows, each row kept iff selected |
| UserController.NewestDescending | api/app/Http/Controllers/Api/V1/Users/UserController.php:47 | rows in increasing id order come out in strictly decreasing id order |
| UserController.Listing | api/app/Http/Controllers/Api/V1/Users/UserController.php:32-47 | a row is listed iff the filter is inactive or matches name, e-mail or numeric id |
| UserController.ListingDescending | api/app/Http/Controllers/Api/V1/Users/UserController.php:47 | the listing is in strictly decreasing id order |
| UserController.NumericFilterFindsId | api/app/Http/Controllers/Api/V1/Users/UserController.php:40-42 | a numeric filter lists the row with that id |
| UserController.PageSize | api/app/Http/Controllers/Api/V1/Users/UserController.php:29-47 | the page size the paginator reports: 30 when absent, the model's 15 for 0, otherwise the given value; never 0 |
| UserController.CurrentPage | api/app/Http/Controllers/Api/V1/Users/UserController.php:30-47 | the current page the paginator reports: at least 1; the given page is kept exactly when it is at least 1; 1 when absent |
| UserController.Index | api/app/Http/Controllers/Api/V1/Users/UserController.php:26-49 | 200 envelope with the serialised listing, and per_page and current_page as the paginator resolves them |
| UserController.StoreSpec | api/app/Http/Controllers/Api/V1/Users/UserController.php:54-78 | Ok iff the create rules hold and the role check passes; then the new user and a 201 |
| UserController.Store | api/app/Http/Controllers/Api/V1/Users/UserController.php:54-78 | the table gains the created row exactly when StoreSpec is Ok, else nothing changes |
| UserController.StoreWithoutTipoFails | api/app/Http/Controllers/Api/V1/Users/UserController.php:59-62 | a valid create request without tipo fails with the TypeError, which the API renderer does not handle |
| UserController.ShippedStoreCreatesAnyRole | api/app/Http/Controllers/Api/V1/Users/UserController.php:59-70 | as shipped any operator creates any requested role |
| UserController.StoreHasNoSelfPath | api/app/Http/Controllers/Api/V1/Users/UserController.php:59-62 | under the rule a gerente cannot create a gerente, though it may edit itself |
| UserController.UpdateChecks | api/app/Http/Controllers/Api/V1/Users/UserController.php:93-110 | passes iff the current-role check passes and, for a different requested role, the new-role check passes |
| UserController.UpdateSpec | api/app/Http/Controllers/Api/V1/Users/UserController.php:85-115 | not found for a missing id; when Ok, the row with that id filled with the validated fields, and a 200 |
| UserController.UpdateSpecOkIff | api/app/Http/Controllers/Api/V1/Users/UserController.php:85-115 | Ok iff the id exists, validation passes, both role checks pass and the filled row's e-mail is free |
| UserController.UpdateSpecDenied | api/app/Http/Controllers/Api/V1/Users/UserController.php:93-110 | after validation, a failed role check is the answer |
| UserController.UpdateSpecWrite | api/app/Http/Controllers/Api/V1/Users/UserController.php:112-114 | after validation and both checks, the unique index decides between the duplicate-entry error and the filled row with a 200 |
| UserController.Update | api/app/Http/Controllers/Api/V1/Users/UserController.php:85-115 | only the target row changes, and only when UpdateSpec is Ok |
| UserController.OthersAreIgnoredRows | api/app/Http/Requests/V1/User/UpdateUserRequest.php:44 | the other rows' e-mails are exactly those `unique` with ignore compares against |
| UserController.FilledEmailIsFree | api/app/Http/Controllers/Api/V1/Users/UserController.php:112-113 | after validation the written e-mail belongs to no other row |
| UserController.ValidatedUpdateNeverClashes | api/app/Http/Controllers/Api/V1/Users/UserController.php:112-113 | update never fails on the unique index once validated |
| UserController.SelfPromotion | api/app/Http/Controllers/Api/V1/Users/UserController.php:93-110 | a vendedor cannot make itself admin under the rule, and can as shipped |
| UserController.ValidateUpload | api/app/Http/Controllers/Api/V1/Users/UserController.php:150-160 | passes iff a file was uploaded, is csv or txt and is at most 10240 KB; failures are validation errors on arquivo |
| UserController.UploadClientes | api/app/Http/Controllers/Api/V1/Users/UserController.php:147-180 | a valid file is stored under uploads/csv, one job is queued and 202 answered; else nothing is stored or queued |
| UserController.UploadAnswer | api/app/Http/Controllers/Api/V1/Users/UserController.php:174-179 | the 202 answer is a success envelope with null data |
| ImportClientes.DataRows | api/app/Jobs/ProcessarUploadClientes.php:37 | the first line is dropped |
| ImportClientes.Step | api/app/Jobs/ProcessarUploadClientes.php:40-68 | a row with another field count changes nothing; a non-cliente row moves only the profile counter; a failing client row changes nothing; a client row with a stored e-mail moves only the duplicate counter; a client row with a new e-mail moves only the success counter and stores the e-mail |
| ImportClientes.CountersBounded | api/app/Jobs/ProcessarUploadClientes.php:45-69 | the three counters grow by at most the number of five-field rows |
| ImportClientes.SuccessesAreNewEmails | api/app/Jobs/ProcessarUploadClientes.php:54-62 | each success adds exactly one new e-mail |
| ImportClientes.MalformedRowsIgnored | api/app/Jobs/ProcessarUploadClientes.php:39-43 | rows without five fields leave everything as it was |
| ImportClientes.RepeatedClientRow | api/app/Jobs/ProcessarUploadClientes.php:55-64 | two identical client rows with a new e-mail give one success and one duplicate |
| ImportClientes.ProcessRow | api/app/Jobs/ProcessarUploadClientes.php:40-69 | the counters and the stored e-mails after one row are what `Step` gives; a success appends exactly the row created from the CSV name, e-mail, hashed password and status with role cliente, keeping the others; otherwise the table is unchanged |
| ImportClientes.Handle | api/app/Jobs/ProcessarUploadClientes.php:25-78 | one notification with the counters of the row fold, the table gains one client row per success, each created from some data row of the file, old rows kept, the file deleted |
| ClientesImportados.Via | api/app/Notifications/ClientesImportadosNotification.php:19-22 | always the mail channel only |
| ClientesImportados.ToMail | api/app/Notifications/ClientesImportadosNotification.php:24-50 | starts with subject, greeting, intro and the success line; the profile and duplicate lines appear iff their counts are positive; guidance iff any error, congratulations otherwise; ends with the panel action and thanks |
| ResumoClientes.Via | api/app/Notifications/ResumoClientesNotification.php:22-25 | always the mail channel only |
| ResumoClientes.EngagementFor | api/app/Notifications/ResumoClientesNotification.php:44-55 | none iff zero, fast iff above 50, steady otherwise (negatives included) |
| ResumoClientes.ToMail | api/app/Notifications/ResumoClientesNotification.php:27-39 | nine parts: the total, then the new count, then the engagement line, and the link to the users listing |
| ResumoClientes.OneEngagementSentence | api/app/Notifications/ResumoClientesNotification.php:35 | exactly one engagement sentence is in the mail, the one chosen for the new count |

## Left out

- Pagination: `index` returns the whole ordered listing with the resolved per_page and current_page; slicing into pages and the paginator's other meta fields (total, last_page, links, …) are not modelled.
- UserController.CurrentPage: a page value that is not an integer is not modelled; the request type carries integers only.
- Database collation: `LIKE` and `unique` compare case-sensitively here, while MySQL's default collation does not; `%` and `_` inside a filter are taken literally.
- UserModel.Serialize: the `created_at` and `updated_at` timestamps are not attributes of the model, so they are absent from its serialised form; a freshly created model serialises `email_verified_at` as null, whereas Eloquent omits keys it never set.
- Multibyte case mapping: `strtolower`, `Str::lower`, `strtoupper` and `ucwords` are modelled on ASCII letters only.
- UserController.IsNumeric: `is_numeric` is simplified to an optional sign and digits, with no decimals, exponents or surrounding blanks.
- The e-mail format rule and `Hash::make` are parameters (`isEmail`, `hash`), not implemented.
- RateLimitLogin.LoginThrottle.Handle: `RateLimiter::cleanRateLimiterKey` (HTML entities reduced to their first letter) is the parameter `clean`; its entity table is not modelled.
- RateLimitLogin.LoginThrottle.Handle: the clock is left out; `availableIn` is a parameter and the end of the window is the explicit `Expire` step; concurrent requests on one key are not modelled.
- ImportClientes.Handle: database errors other than the unique index are a parameter `fault` on the row, decided before the uniqueness check; the stored file must exist.
- ImportClientes.Handle: `fgetcsv` quoting, LazyCollection streaming, `ini_set`, `set_time_limit` and the log line are not modelled; the rows arrive already split.
- Request input is strings or absent; present nulls, arrays and the `ConvertEmptyStringsToNull`/`TrimStrings` middlewares are not modelled, and `string` rules always pass.
- The `authorize` methods of both form requests return true unconditionally, so they add nothing to the model.
- `show` and `destroy` are one-line Eloquent calls and are not modelled.
- The config-missing path of the form requests (`config('permissions.roles', [])`) is not modelled; the shipped matrix is used.
- Storage paths, the queue, mail rendering, `Log::error`, `url()` (a parameter `appUrl`) and authentication (`auth:sanctum`) are left to the framework.
- `EnvioSemanalRelatorioClientes`, `NotificationController`, the seeder and route registration are not part of this model; the route table appears only as data.

## Findings

| source | as written | input that shows it | evidently intended | confidence | as-written member | corrected member |
|---|---|---|---|---|---|---|
| api/app/Services/AuthService.php:89-91 | `canManageUser` returns at its first statement, so the hierarchy table after it never runs and every create/update passes the hierarchy check | a vendedor operator (id 7) editing an admin target (id 3): allowed | the documented table: vendedor manages only cliente, so the request is refused with 403 | not executed | AuthService.ShippedSkipsHierarchy | AuthService.HierarchyIsStrictRank |
