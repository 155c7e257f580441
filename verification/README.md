# Volunteer Connect server: request-handling rules

A Dafny model of the write and identity routes of the Volunteer Connect
REST server (`server/server.js`): the `authenticateToken` middleware, and
the handlers of `POST /api/register`, `POST /api/login`, `GET /api/me`,
`POST /api/opportunities` and `POST /api/applications`.

The MySQL database is modelled as four tables, `users`, `organizations`,
`opportunities` and `applications`. Each table is a sequence of rows in
insertion order. Each has its own auto-increment counter, which stands for
`result.insertId`.

- `wrappers.dfy` (`Wrappers`): `Option`, the error response `Failure(status, message)`,
  `Result`, and the exact error responses the routes send.
- `crypto.dfy` (`Crypto`): bcrypt and jsonwebtoken are left uninterpreted.
  They are the function-valued fields of a `Primitives` value. `Sound` states
  the only library facts the proofs use:
  - a password matches its own hash;
  - a signed token verifies to its claims;
  - a signed token is non-empty and has no space.
- `auth.dfy` (`Auth`): the `Authorization` header is split on spaces exactly
  as JavaScript's `split(' ')` does. The token is the second field, and a
  missing or empty one is a 401. A token that fails verification is a 403.
- `tables.dfy` (`Tables`): the rows, `SELECT ... WHERE` as `FirstMatch`, and
  the table invariants (`Consistent`):
  - each id column is auto-increment: positive, strictly increasing, below its counter;
  - emails are unique;
  - organization-role users and organizations rows correspond;
  - there is at most one application per (user_id, opportunity_id);
  - every application names an existing opportunity.
- `handlers.dfy` (`Handlers`): each route as a pure transition from the tables
  before the request to the tables after it, together with the response.
- `properties.dfy` (`Properties`): each route preserves `Consistent`, plus
  properties of request sequences: register twice, register then login,
  register then `/me`, apply twice, create then apply.
- `server.dfy` (`Server`): the class `Store` holds the tables as sequence
  fields with counters. Its handler methods check their guards, then append
  rows and advance counters in place. Each method is proved to follow the
  transition of the same name. A client scenario runs on a fresh store: a
  volunteer and an organization register, the organization posts, and the
  volunteer applies twice.

Behaviours of the code that the model keeps as they are:
- The first word of the `Authorization` header is never checked. `Basic t` works as well as `Bearer t` (`Auth.BearerTokenOf`).
- Tokens carry no expiry, so a signed token verifies forever.
- `role` is not validated at registration. Roles are free strings in the code, and the model keeps them so. A role other than `organization` or `volunteer` can neither post nor apply.

## Model

| member | source | states |
|---|---|---|
| `Auth.Split` | server/server.js:32 | `split(' ')` yields at least one field, and no field contains a space |
| `Auth.JoinSplit` | server/server.js:32 | joining the split fields with spaces gives back the header |
| `Auth.SplitJoin` | server/server.js:32 | splitting the join of space-free fields gives back exactly those fields |
| `Auth.BearerToken` | server/server.js:31-34 | a token taken from the header is non-empty and space-free, and a missing header gives none |
| `Auth.NoSpaceNoToken` | server/server.js:32-35 | a header without a space has no second field, so it carries no token |
| `Auth.BearerTokenOf` | server/server.js:32 | `scheme token` yields `token` for any space-free scheme word (the scheme is not checked) |
| `Auth.Authenticate` | server/server.js:30-44 | 401 exactly when there is no token; 403 exactly when the token does not verify; otherwise the verified claims; no other failure |
| `Auth.MissingTokenIs401` | server/server.js:31-36 | a missing header, or one with no space, is refused with 401 before any handler runs |
| `Auth.SignedTokenAuthenticates` | server/server.js:38-43 | a header carrying a token the server signed authenticates as exactly the signed claims |
| `Tables.FirstMatch` | server/server.js:53-54 | the lookup finds the first matching row, and finds none exactly when no row matches |
| `Tables.AutoIncrementInsert` | server/server.js:62-65 | inserting with the counter's value and advancing it keeps the ids positive, increasing and below the counter |
| `Handlers.Register` | server/server.js:48-85 | refused with 400 "User already exists" exactly when the email is taken, with no table changed. Otherwise it appends one users row (new id, hashed password) and leaves the other tables alone. It appends one organizations row (user_id = new id, org_name = name) exactly when the role is `organization`. The response is the row's public columns, and the token is signed over the row's {id, email, role} |
| `Handlers.Login` | server/server.js:92-117 | every failure is the same 400 "Invalid credentials", and an unknown email always fails. A success is the session of a row whose email matches and whose hash accepts the password |
| `Handlers.Me` | server/server.js:125-136 | authentication failures pass through unchanged. Otherwise it is the public columns of a row with the token's id, or 404 exactly when no row has that id |
| `Handlers.CreateOpportunity` | server/server.js:217-233 | authentication failures, and 403 for every role but `organization`, leave the tables unchanged. Otherwise exactly one row is appended with the body's fields, the response is the fresh id with the message "Opportunity created successfully", and `org_id` is the caller's id from the token |
| `Handlers.ApplyCheck` | server/server.js:242-267 | guards in order: a role other than volunteer gets 403, whatever the tables hold; a missing opportunity gets 404; an earlier (user, opportunity) application gets 400; it passes exactly when none of these holds |
| `Handlers.Apply` | server/server.js:241-274 | only a request that passes authentication and every guard changes the tables. It appends exactly one pending application of the caller to the opportunity. Every refusal leaves the tables unchanged |
| `Properties.RegisterPreservesConsistency` | server/server.js:53-73 | register keeps emails unique, keeps the organization rows matched to organization-role users, and keeps the auto-increment columns well formed |
| `Properties.CreateOpportunityPreservesConsistency` | server/server.js:225-228 | creating an opportunity keeps every table invariant |
| `Properties.ApplyPreservesConsistency` | server/server.js:250-272 | apply keeps at most one application per (user_id, opportunity_id), and every application keeps naming an existing opportunity |
| `Properties.LoginSucceedsIff` | server/server.js:96-105 | with unique emails, login succeeds exactly when a row has the email and its hash accepts the password; otherwise it is 400 "Invalid credentials" |
| `Properties.RegisterTwiceRefused` | server/server.js:53-56 | after any register with an email, a second register with that email is refused with 400 and changes nothing |
| `Properties.RegisterThenLogin` | server/server.js:59-117 | logging in with the credentials just registered returns exactly the register response |
| `Properties.RegisterThenMe` | server/server.js:75-136 | the token a register returns, sent as `Bearer <token>`, makes `/me` return the registered user |
| `Properties.ApplyTwiceRefused` | server/server.js:259-272 | repeating an application that succeeded gets 400 "Already applied" and changes nothing |
| `Properties.NewOpportunityAcceptsApplication` | server/server.js:225-272 | a volunteer's first application to an opportunity just created succeeds |
| `Server.Store.Register` | server/server.js:48-85 | the in-place register (check, hash, insert user, insert organization row when the role says so, sign) gives the tables and response of `Handlers.Register` and keeps the invariants |
| `Server.Store.Login` | server/server.js:92-117 | the read-only login returns the response of `Handlers.Login` on the current tables |
| `Server.Store.Me` | server/server.js:125-136 | `/me` returns the response of `Handlers.Me` on the current tables |
| `Server.Store.CreateOpportunity` | server/server.js:217-233 | the in-place insert gives the tables and response of `Handlers.CreateOpportunity` and keeps the invariants |
| `Server.Store.Apply` | server/server.js:241-274 | the guarded in-place insert gives the tables and response of `Handlers.Apply` and keeps the invariants |
| `Server.RegisterAnn` | server/server.js:48-85 | a volunteer registering on a fresh store gets id 1 and a bearer header that authenticates as {1, email, volunteer} |
| `Server.RegisterAnnAndHelpers` | server/server.js:48-85 | a second, organization-role registration gets id 2 and its own working bearer header |
| `Server.VolunteerScenario` | server/server.js:217-274 | the organization's post gets id 1 and the success message; the volunteer's application to it succeeds; the repeated application gets 400 "Already applied" |

## Left out

- Express and CORS wiring, the MySQL connection, `app.listen` and console logging (server/server.js:1-25, 290-294): process and network plumbing.
- bcrypt and jsonwebtoken are uninterpreted. The random bcrypt salt is a parameter. Only the facts in `Crypto.Sound` are assumed: hash collisions, forged signatures and the JWT secret are not modelled.
- The GET list routes `/api/users`, `/api/opportunities`, `/api/organizations`, `/api/events`, `/api/applications` (server/server.js:144-214): SQL joins ordered by timestamps, with no decision of the server's own.
- `/api/health` (server/server.js:282-288): its timestamp comes from the wall clock.
- The 500 "Server error" paths: they need database failures that the model does not have.
- `created_at` and `applied_at` are not modelled, because they are wall-clock defaults of the database schema. `/api/me` in the model returns the other public columns.
- The server never sets an application's `status`. The model assumes the column default is `pending`; the database schema is not part of this model.
- Email comparison is exact string equality. MySQL's default collation would treat case and trailing spaces differently, and that is not modelled.
- Request body fields are strings, and `opportunity_id` is an integer. Missing fields (`undefined`, stored as NULL) and type coercion by the database are not modelled.
- Concurrency: requests run one at a time. The race between a duplicate check and its insert (email, application) cannot happen in this model.
- Foreign keys of `opportunities.org_id` and `applications.user_id`: these ids come from verified token claims. The model does not tie claims to stored rows, so these keys are not proved to reference existing users.
- `client/src/App.jsx`: the browser UI, its required-field checks and its client-side `user_id` filters are not part of this model.
