# Report sharing backend — a Dafny model of its handlers

This project models the core of the report sharing backend: an Express service
where employees upload report files, owners and managers view, edit and delete
them, and the report status moves between `Submitted` and `Reviewed`. It models:

- the report handlers of `backend/src/controllers/reportController.js` as methods of
  a `ReportStore` class. The class holds the Reports table as a map keyed by id,
  the autoincrement counter and the set of files in the upload directory;
- the pagination arithmetic of that file as pure functions;
- the Report record of `backend/src/models/Report.js` as a datatype, with the
  schema's defaults and checks in `ReportModel.Create`;
- `register` and `login` (`backend/src/controllers/authController.js`) as methods
  over a `UserTable` class;
- `getMe` and `getReporters` (`backend/src/controllers/userController.js`) as pure
  queries, and `updateMe` and `deleteMe` as methods over the same table;
- `authenticateJWT` (`backend/src/middleware/auth.js`) as a method that sets
  `req.user` on a `Request` object, and `requireRole` as a pure gate;
- the one route composition that matters for authorization:
  `PUT /reports/:id/status` runs `authenticateJWT`, then `requireRole('Yonetici')`,
  then `updateReportStatus`.

Every handler reply is a `Response`: a success code with a body, or an error code
with the handler's literal message. Roles are plain strings throughout:

- registration issues `"Calisan"`;
- the report handlers treat only `"manager"` as elevated;
- the status route demands `"Yonetici"`.

`ReportRoutes.IssuedRolesFailStatusGate` records what follows from this. Neither
role the code issues or honours gets through the status route's gate. The model
keeps the three strings exactly as written.

The model replaces outside behaviour with parameters:

- `parseDate` stands for `new Date(text)`;
- `now` stands for the clock;
- `arrange` stands for the database's ordering of the table under an ORDER BY
  list. It must list every id exactly once;
- `verify` stands for `jwt.verify`;
- `salt` stands for bcrypt's random salt.

A signed token is represented by the claims it carries.

Invariants kept by every state change:

- `ReportStore.Valid`: keys match row ids and lie below the counter, and every
  row's file is in the upload directory;
- `ReportStore.NoneRejected`: no handler ever writes `Rejected`;
- `UserTable.Valid`: keys match ids, and emails are unique.

## Model

| member | source | states |
|---|---|---|
| Paging.GetPagination | backend/src/controllers/reportController.js:6-10 | limit is `size` when given and 10 otherwise; offset is (page − 1)·limit, and 0 without a page or for page 1 |
| Paging.CeilDiv | backend/src/controllers/reportController.js:15 | the result is the least page count whose pages of `limit` hold `total` items (ceiling of the quotient) |
| Paging.GetPagingData | backend/src/controllers/reportController.js:12-17 | totals and rows are passed through; currentPage is the page or 1; totalPages is ⌈totalItems/limit⌉, and it is 0 exactly when there are no items |
| Paging.Window | backend/src/controllers/reportController.js:68-69 | LIMIT/OFFSET: at most `limit` rows, the rows from `offset` in order, and none past the end |
| Paging.FirstPagesArePrefix | backend/src/controllers/reportController.js:6-10 | pages 1..k laid end to end are exactly the first k·size items |
| Paging.NextPageExtendsPrefix | backend/src/controllers/reportController.js:8 | the prefix before a page's offset followed by that page is the prefix up to the page's end |
| Paging.PagesCoverListing | backend/src/controllers/reportController.js:12-17 | pages 1..totalPages together are the whole listing: every item once, in order |
| Paging.PageLengths | backend/src/controllers/reportController.js:6-17 | every page before totalPages is full, the last page is non-empty and holds the remainder, and later pages are empty |
| Paging.TwentyFiveItemsInPagesOfTen | backend/src/controllers/reportController.js:12-17 | 25 items with limit 10 give 3 pages: page 1 holds 10 items and page 3 holds 5 |
| ReportModel.ParseStatus | backend/src/models/Report.js:19-20 | the status enum accepts exactly "Submitted", "Reviewed" and "Rejected", each naming its value |
| ReportModel.StatusNameRoundTrip | backend/src/models/Report.js:19-20 | every status value round-trips through its stored name |
| ReportModel.Create | backend/src/models/Report.js:5-32 | a create succeeds exactly when filePath is present and any status given is in the enum; a missing status defaults to Submitted and a missing date to now; notes may be absent; the row has exactly one owner, `userId` |
| ReportController.NewStatus | backend/src/controllers/reportController.js:122-124 | the status whitelist accepts exactly "Submitted" and "Reviewed" and never yields Rejected |
| ReportController.ParseNat | backend/src/controllers/reportController.js:46 | a `userId` text reads as an owner id exactly when it is a non-empty string of decimal digits, and then as the value of those digits |
| ReportController.Decimal | backend/src/controllers/reportController.js:46 | the decimal numeral of an id is a non-empty string of digits |
| ReportController.DecimalRoundTrip | backend/src/controllers/reportController.js:46 | the numeral of an id reads back as that id |
| ReportController.OwnerQueryKeepsOwnerRows | backend/src/controllers/reportController.js:44-46 | a `userId` query holding the numeral of n keeps exactly the rows of owner n that the date and status filters keep |
| ReportController.Select | backend/src/controllers/reportController.js:61-70 | the selected rows are table rows that satisfy the WHERE clause, and every satisfying row is selected |
| ReportController.SelectAppend | backend/src/controllers/reportController.js:61-70 | selecting over two stretches of the arrangement is the two selections in turn: filtering never reorders rows |
| ReportController.SelectOne | backend/src/controllers/reportController.js:61-70 | one id selects its row exactly when the WHERE clause keeps it |
| ReportController.SelectKeepsOrder | backend/src/controllers/reportController.js:61-70 | of two kept ids, the one earlier in the ORDER BY arrangement gives the earlier row of the result |
| ReportController.SelectCounts | backend/src/controllers/reportController.js:61-70 | over distinct ids, the selection has one row per kept id |
| ReportController.SelectCountsTable | backend/src/controllers/reportController.js:61-73 | the count `findAndCountAll` returns is the number of table rows the WHERE clause keeps |
| ReportController.ReportStore.UploadReport | backend/src/controllers/reportController.js:19-34 | no file gives 400 "File is required" and no change; otherwise exactly one new row at the next id, owned by the caller whatever the body says, with the uploaded filename, the body's notes and status Submitted, answered with 201; invariants kept |
| ReportController.ReportStore.GetAllReports | backend/src/controllers/reportController.js:40-80 | WHERE keeps a row iff it meets each non-blank filter: date as a lower bound on createdAt, status and userId by exact match; sort key "employee" orders by owner firstName then lastName, any other key by that column; defaults are createdAt and desc; the reply is the requested window of the selection, and totalItems counts every matching row |
| ReportController.ReportStore.GetMyReports | backend/src/controllers/reportController.js:82-114 | as GetAllReports, but the owner is always the caller and the query's userId is never read; the sort key is always used as a column; every returned row belongs to the caller |
| ReportController.ReportStore.UpdateReportStatus | backend/src/controllers/reportController.js:116-134 | a status other than Submitted/Reviewed gives 400 before any lookup; then a missing id gives 404; otherwise only that row's status changes, from either status; no role is checked; Rejected is never written |
| ReportController.ReportStore.GetReportById | backend/src/controllers/reportController.js:141-153 | a missing id gives 404; otherwise success iff the role is exactly "manager" or the caller owns the row, and 403 "Forbidden" otherwise |
| ReportController.ReportStore.UpdateReport | backend/src/controllers/reportController.js:174-194 | 404, then 403 unless owner or "manager"; on success only `notes` of that row is replaced, verbatim; owner, status and filePath stay |
| ReportController.ReportStore.DeleteReport | backend/src/controllers/reportController.js:201-220 | 404, then 403 unless owner or "manager"; on success exactly that row is removed, the reply is 204, and its file stays in the upload directory |
| UserModel.BcryptKey | backend/src/controllers/authController.js:23 | the part of a password bcrypt hashes: at most 72 characters, a prefix of the password, and the whole password when it is no longer |
| UserModel.HashPassword | backend/src/controllers/authController.js:23 | the stored hash matches its password, and exactly the passwords that agree with it in their first 72 characters |
| UserModel.CompareIgnoresTail | backend/src/controllers/authController.js:54 | `bcrypt.compare` accepts a password that agrees with the hashed one in the first 72 characters, whatever follows |
| UserModel.ShortPasswordsCompareExactly | backend/src/controllers/authController.js:54 | for passwords of at most 72 characters, `bcrypt.compare` accepts exactly the hashed password |
| AuthController.Register | backend/src/controllers/authController.js:7-34 | a missing field gives 400 "All fields are required"; then a taken email gives 400 "Email already registered"; neither adds anyone; otherwise exactly one user is added with role "Calisan" whatever the body says and the hash of the password; the reply is 201 with the signed claims; emails stay unique |
| AuthController.Login | backend/src/controllers/authController.js:40-68 | a missing email or password gives 400; it succeeds iff a user with that email exists and the password matches its hash; an unknown email and a wrong password give the same 401 "Invalid credentials."; success signs that user's id, email and role |
| AuthController.RegisterThenLogin | backend/src/controllers/authController.js:16-58 | after a registration with a fresh email, emails stay unique, login with that email and password succeeds, and login with a password whose first 72 characters differ fails |
| AuthController.RegisteredPrefixLogsIn | backend/src/controllers/authController.js:23-58 | after the same registration, a longer password sharing the first 72 characters of the registered one also logs in |
| UserController.GetMe | backend/src/controllers/userController.js:5-13 | 404 "User not found" iff the caller's id is absent; otherwise that user's id, email, names and role |
| UserController.InsertByFirstName | backend/src/controllers/userController.js:29 | insertion into the firstName order adds exactly one entry and keeps the others |
| UserController.StrLeTotal | backend/src/controllers/userController.js:29 | the string order used for firstName is total |
| UserController.StrLeTrans | backend/src/controllers/userController.js:29 | the string order used for firstName is transitive |
| UserController.InsertKeepsSorted | backend/src/controllers/userController.js:29 | inserting keeps the list ascending by firstName |
| UserController.InsertKeepsDistinct | backend/src/controllers/userController.js:28 | inserting a new id keeps each user listed once |
| UserController.SortedReporters | backend/src/controllers/userController.js:27-29 | the given users, ascending by firstName, each once, with id and names |
| UserController.GetReporters | backend/src/controllers/userController.js:19-31 | exactly the users that own at least one report, each listed once, ascending by firstName |
| UserController.Updated | backend/src/controllers/userController.js:46-55 | a non-empty email or name replaces the old value and an absent or empty one keeps it; id, role and hash never change |
| UserController.ResubmitChangesNothing | backend/src/controllers/userController.js:46-55 | sending the same profile body a second time asks for no email change, so it cannot get the 400, and leaves the user unchanged |
| UserController.UpdateMe | backend/src/controllers/userController.js:38-64 | 404 when the caller is absent; 400 "Email already in use" with nothing saved, names included, when a new email is taken; otherwise only the caller's row changes, to `Updated`; emails stay unique |
| UserController.DeleteMe | backend/src/controllers/userController.js:70-77 | removes exactly the caller's row with 204, or 404 when absent |
| AuthMiddleware.SplitOnSpace | backend/src/middleware/auth.js:9 | `split(' ')`: the parts hold no space, and joining them with spaces gives the header back |
| AuthMiddleware.TokenOf | backend/src/middleware/auth.js:9 | a second part exists iff the header contains a space |
| AuthMiddleware.SingleSpaceFreePart | backend/src/middleware/auth.js:9 | a header splits into one part exactly when it has no space |
| AuthMiddleware.BearerToken | backend/src/middleware/auth.js:9 | for "scheme token" with no space in either word, the token taken is the second word |
| AuthMiddleware.SplitAfterChar | backend/src/middleware/auth.js:9 | a leading character other than a space joins the first part of the split |
| AuthMiddleware.SplitAfterSpace | backend/src/middleware/auth.js:9 | a leading space gives an empty first part |
| AuthMiddleware.SplitAfterWord | backend/src/middleware/auth.js:9 | a space-free word, a space and more split into that word and the split of the rest |
| AuthMiddleware.EmptyTokenRefused | backend/src/middleware/auth.js:9-11 | a header made of a scheme and a space with nothing after it is refused, whatever the verifier |
| AuthMiddleware.AuthenticateJwt | backend/src/middleware/auth.js:5-15 | no header gives 401 "No token provided"; a missing, empty or unverifiable token gives 403 "Invalid token"; in both cases `req.user` is untouched and the request stops; otherwise `req.user` becomes the verified claims and the request goes on |
| AuthMiddleware.RequireRole | backend/src/middleware/auth.js:17-24 | passes iff the role is exactly the required string; otherwise 403 "Forbidden: Insufficient role" |
| ReportRoutes.PutReportStatus | backend/src/routes/reports.js:33 | no header gives 401 "No token provided" and a missing, empty or unverifiable token 403 "Invalid token"; a role other than exactly "Yonetici" gives 403 "Forbidden: Insufficient role"; none of these changes the table; `req.user` becomes the verified claims when there are any and is untouched otherwise; otherwise the reply and the new table are updateReportStatus's |
| ReportRoutes.IssuedRolesFailStatusGate | backend/src/routes/reports.js:33 | callers with role "Calisan" or "manager" are refused by the status route's role gate |

## Left out

- Owner joins in responses: the handlers attach the owner's fields to each report through `include`. The model answers with the stored row alone, and the owner is its `userId`.
- `downloadReportFile`: path joining and `res.download` are filesystem I/O.
- UserModel.HashPassword: bcrypt reads the first 72 UTF-8 bytes of a password, and the model takes the first 72 characters instead. The two agree on ASCII passwords, and a password with multi-byte characters is cut later in the model than in bcrypt. Two different 72-character keys are taken never to share a hash, so hash collisions are not modelled.
- bcrypt and JWT: hashing, comparison, signing and verification are foreign code. `HashPassword`/`PasswordMatches` stand in for bcrypt and `verify` for `jwt.verify`; the model itself refuses an empty token, as `jwt.verify` does. Token expiry and the secret are not modelled.
- Database mechanics: SQL generation, collation and the plain-object conversion. The ORDER BY outcome is the `arrange` parameter. firstName order in `getReporters` is lexicographic order on Unicode code points.
- ReportController.ParseNat: the database's coercion of a `userId` text to the integer column is modelled only for decimal numerals. Any other text matches no row.
- ReportController.ReportStore.GetAllReports: a `status` filter outside the enum is modelled as matching no row. The database may instead reject the query.
- JavaScript coercion of `page` and `size`:
  - the text-to-number conversion is not modelled;
  - `NaN` from a non-numeric value is not modelled;
  - the value `'0'` is truthy, so it gives limit 0 and a division by zero, or a negative offset.
  `page` and `size` are optional naturals of at least 1; GetPagination, GetAllReports and GetMyReports require that.
- Dates: `new Date(...)` is the `parseDate` parameter and the clock is `now`. The DATEONLY truncation of `date` is not modelled. The date filter compares against `createdAt`, as the code does.
- ReportController.ReportStore.GetMyReports: with `sortBy=employee` the code orders by a column that does not exist, which would fail in the store. The model passes the name on like any other key.
- Faults and concurrency: the 500 branches are not modelled. Neither is console logging, nor interleaving between concurrent requests.
- Referential effects of deleting a user on that user's reports: the code does not show them, so `DeleteMe` leaves the report table alone.
- The users schema file is not part of this model. The user fields are the ones the handlers read and write.
- ReportController.ReportStore.UpdateReport: an absent `notes` is stored as an absent value, which stands for the null the store writes.
- Express wiring other than the status route, as well as CORS, static serving and logging middleware, are not modelled.
