# Expense API model

A Dafny model of the expense-tracking backend in `Test_backend/Test_backend/app.py`.
The backend has two SQLite tables: `user_info` and `expenses`. It has six route handlers and the `get_current_user` dependency they share:

- `get_current_user` resolves the caller from the `Authorization` header.
- `signup` and `login` register a user and issue a token.
- `get_expenses`, `create_expense`, `update_expense` and `delete_expense` act on the caller's own expense rows.

The model is a sequential state machine:

- `Tables` (tables.dfy) holds the row types, the table constraints and the SQL statements. Each statement is a function on the rows, kept in rowid order. The module also holds the lemmas about these functions.
- `ExpenseApi.Store` (expense_api.dfy) is a class. Its fields are both tables and the two AUTOINCREMENT counters (the `sqlite_sequence` entries). `Valid()` states the DDL constraints: primary keys, UNIQUE email, ids from 1 up to the counter, and every expense owned by an existing user. SQLite does not enforce the FOREIGN KEY (`foreign_keys` is off by default); the owner conjunct holds because no handler deletes users and `create_expense` stores a resolved caller's id.
  - The read-only handlers are functions that read the store.
  - The handlers that run INSERT, UPDATE or DELETE are methods that modify it.
  - Every handler that depends on `get_current_user` takes the raw header and resolves the caller first. When that fails, its body never runs.
- `AuthHeader` (auth_header.dfy) models Python's `header.split(" ")[1]`.
- `Crypto` (crypto.dfy) stands for bcrypt and PyJWT. PyJWT issues HS256 tokens per RFC 7519, with the algorithm of section 3.2 of RFC 7518. Both libraries are pairs of functions passed in with the configuration. The properties the API relies on are stated as predicates, and lemmas take them as hypotheses:
  - `JwtLaws`: a token signed over `{"user_id": id}` decodes, under the signing key, to that payload; and a compact token contains no space. The law is stated only for the payload login signs: PyJWT rejects other correctly signed payloads (an expired `exp`, a future `nbf`, an unexpected `aud`).
  - `BcryptLaws`: a password checks against any hash made from it.
- `Http` (http.dfy) holds the status codes, details and messages the handlers raise or return.

The code departs from a conventional bearer-token API in four places, and the model follows the code:

- No handler checks that the header's first word is `Bearer`, the scheme of section 2.1 of RFC 6750. Any space-free first word is accepted (`SchemeIgnored`).
- Users have no username. The signup body is email and password only.
- An empty expense title is accepted. The column is only NOT NULL.
- Update and delete on a missing or non-owned id succeed silently, with no 404.

## Model

| member | source | states |
|---|---|---|
| AuthHeader.Split | Test_backend/Test_backend/app.py:73 | `split(" ")` yields at least one field, no field contains a space, and there is exactly one field iff the header has no space |
| AuthHeader.TokenField | Test_backend/Test_backend/app.py:73 | element `[1]` exists (no IndexError) iff the header contains a space, and the token taken contains no space |
| AuthHeader.JoinSplit | Test_backend/Test_backend/app.py:73 | splitting loses nothing: joining the fields with single spaces gives back the header |
| AuthHeader.SplitJoin | Test_backend/Test_backend/app.py:73 | splitting inverts joining for space-free fields |
| AuthHeader.SplitWord | Test_backend/Test_backend/app.py:73 | a header without a space is one field, so element `[1]` does not exist |
| AuthHeader.SplitAfterWord | Test_backend/Test_backend/app.py:73 | a space-free first word and a space are split off as exactly one field |
| AuthHeader.TokenAfterAnyScheme | Test_backend/Test_backend/app.py:73 | after any space-free first word, the token is the first field of the rest; for a space-free rest, it is the rest itself |
| Tables.SelectUserByEmail | Test_backend/Test_backend/app.py:88-90 | the lookup finds nothing iff no row has the email; any row it finds is in the table and has that email |
| Tables.SelectUserById | Test_backend/Test_backend/app.py:75-77 | the lookup finds nothing iff no row has the id; any row it finds is in the table and has that id |
| Tables.SelectUserByEmailUnique | Test_backend/Test_backend/app.py:35 | with UNIQUE email, the lookup by email returns exactly the one row holding it |
| Tables.SelectUserByIdUnique | Test_backend/Test_backend/app.py:34 | with a unique primary key, the lookup by id returns exactly the one row holding it |
| Tables.SelectExpensesByOwner | Test_backend/Test_backend/app.py:119-121 | the listing holds exactly the rows whose `user_id` is the caller's, each as often as in the table, and no other row |
| Tables.UpdateRows | Test_backend/Test_backend/app.py:141-151 | the UPDATE keeps the row count, and every row keeps its id and its owner |
| Tables.UpdateRowsAt | Test_backend/Test_backend/app.py:143 | a row gets the new title and amount iff its id and `user_id` both match; every other row is unchanged |
| Tables.UpdateRowsKeys | Test_backend/Test_backend/app.py:143 | every row after the UPDATE has the id and owner of some row before it |
| Tables.UpdateRowsMiss | Test_backend/Test_backend/app.py:141-151 | an UPDATE matching no row leaves the table identical |
| Tables.UpdateRowsIsolation | Test_backend/Test_backend/app.py:143 | an UPDATE scoped to one user leaves every other user's listing identical |
| Tables.DeleteRows | Test_backend/Test_backend/app.py:159-162 | a row survives the DELETE iff it is in the table and does not match both id and `user_id`; the table never grows |
| Tables.DeleteRowsMiss | Test_backend/Test_backend/app.py:159-162 | a DELETE matching no row leaves the table identical |
| Tables.DeleteRowsCount | Test_backend/Test_backend/app.py:160 | with a unique primary key, a DELETE removes exactly one row if some row matches both id and owner, and none otherwise |
| Tables.DeleteRowsIsolation | Test_backend/Test_backend/app.py:160 | a DELETE scoped to one user leaves every other user's listing identical |
| Tables.DeleteRowsUniqueIds | Test_backend/Test_backend/app.py:45 | a DELETE keeps expense ids unique |
| ExpenseApi.Store.constructor | Test_backend/Test_backend/app.py:33-50 | freshly created tables are empty, both sequences are 0, and `Valid()` holds: the DDL constraints every method keeps — unique primary keys in both tables, UNIQUE email, AUTOINCREMENT ids between 1 and the table's sequence, and every expense's `user_id` naming an existing user (a constraint the handlers keep, since SQLite does not enforce the FOREIGN KEY by default) |
| ExpenseApi.Store.GetCurrentUser | Test_backend/Test_backend/app.py:69-82 | the result is always a row of `user_info` with the token's `user_id`; a missing or empty header gives 401 "Missing token"; each other failure gives 401 "Invalid token": no second field, a token that does not decode, a payload without `user_id`, an id with no row |
| ExpenseApi.Store.Signup | Test_backend/Test_backend/app.py:87-99 | a taken email gives 400 "Email already exists" and changes nothing; a fresh email appends exactly one row with the next id and the bcrypt hash; expenses are untouched, the constraints (so email uniqueness) are kept, and a login with the same credentials then succeeds |
| ExpenseApi.Store.Login | Test_backend/Test_backend/app.py:104-113 | every failure is the same 401 "Invalid email or password", whether the email is unknown or the password is wrong; with unique emails, login succeeds iff some row has the email and the password checks; the token signs `{"user_id": id}` of that row |
| ExpenseApi.Store.GetExpenses | Test_backend/Test_backend/app.py:118-122 | fails exactly when caller resolution fails, with the same error; otherwise it returns exactly the caller's rows, with their multiplicity, and no other user's |
| ExpenseApi.Store.CreateExpense | Test_backend/Test_backend/app.py:127-135 | on success, exactly one row is appended, owned by the caller, with a fresh id one past the sequence; the body's id is ignored; users are unchanged; on a resolution failure nothing changes |
| ExpenseApi.Store.UpdateExpense | Test_backend/Test_backend/app.py:140-153 | "Expense updated" for any resolved caller; the expenses table becomes the UPDATE scoped to the caller's id; other users' listings and the user table are unchanged; the constraints are kept |
| ExpenseApi.Store.DeleteExpense | Test_backend/Test_backend/app.py:158-164 | "Expense deleted" for any resolved caller; at most one row, the caller's with that id, is removed; other users' listings and the user table are unchanged; the constraints are kept |
| ExpenseApi.LoginThenResolve | Test_backend/Test_backend/app.py:73-80 | the token from a successful login, behind any space-free first word, resolves to the user row that logged in (its email and password check) |
| ExpenseApi.SchemeIgnored | Test_backend/Test_backend/app.py:73 | any two space-free first words in front of the same rest resolve to the same caller, so the `Bearer` scheme is never inspected |

## Left out

- FastAPI routing, `Depends`/`Header` injection, CORS middleware and uvicorn startup are framework wiring. Pydantic's 422 rejection of malformed bodies is part of that wiring.
- `load_dotenv` and the `"secret"` default of `SECRET_KEY` are left out. The key is the `secretKey` field of the configuration passed to each handler.
- The engine and connection are not modelled. Executing the DDL is not modelled either; only its constraints are kept, in `Valid()`.
- Storage errors that surface as a generic server error are not modelled.
- The bcrypt and HS256 signing internals are foreign library calls. `bcrypt.gensalt()` is random, so the salt is a parameter of `Signup`. The `.encode()`/`.decode()` UTF-8 conversions around bcrypt are not modelled, and neither is bcrypt's 72-byte password limit.
- The `amount` column is a float. It is modelled as a `real` that is copied through with no arithmetic.
- The `user_id` claim is modelled as an integer. JSON payloads whose `user_id` is another type are not modelled.
- Row ids are unbounded integers. SQLite's 64-bit rowid limit is not modelled, nor the error when AUTOINCREMENT reaches it.
- Concurrent signups racing on the email check are not modelled, because the model is sequential. In that setting the application-level check always runs before the storage UNIQUE constraint could fire.
- `Test_backend/Test_backend/database.py` (MySQL connection and table-creation setup) is not part of this model.
- `Practice-Exercise/src/Components/Dashboard.jsx` (React UI and `fetch` calls) is not part of this model.
- Tables.SelectUserByEmail: states that the row found has the email, not that it is the first such row as `fetchone()` returns. Under UNIQUE email there is only one (`SelectUserByEmailUnique`).
- Tables.SelectUserById: states that the row found has the id, not that it is the first such row. Under the primary key there is only one (`SelectUserByIdUnique`).
- Tables.SelectExpensesByOwner: states which rows are listed and how often, not that they come in table order.
- ExpenseApi.Store.GetExpenses: returns the selected rows themselves, reading `[dict(row) for row in rows]` as the intended list of row mappings. Under SQLAlchemy 2.x a `Row` has no `keys()`, so `dict(row)` raises TypeError and the handler answers 500 to any caller who owns an expense; under 1.x the `Connection` from `engine.connect()` has no `commit()`, so the writing handlers answer 500 after their statement was autocommitted. The model assumes a library in which both calls work and does not capture those 500 responses.
