# Scout management: access control and membership, modelled in Dafny

This project models the decision logic of a scout-troop management system. The system has two parts:

- a FastAPI backend (`backend/server.py`) that keeps users and events;
- a React front end, whose route guard is in `frontend/src/App.js`.

The backend is a sequential state machine. The MongoDB collections become the fields of one class, `Server.Backend`:

- `users` is a map from email to record. Lookups match the email string exactly.
- `events` is a sequence in insertion order. Event names may repeat, and a lookup by name takes the first match.
- `clock` is the wall clock, in minutes.

Every endpoint is a method that returns either `Ok(value)` (a 200 response) or `Err(status)`. The status is 400, 401, 403 or 404. The checks run in a fixed order:

1. the bearer token authenticates the caller, or the endpoint fails with 401;
2. `require_admin` admits only the stored role `"admin"`, or the endpoint fails with 403;
3. the target is looked up (404), or a duplicate is rejected (400);
4. only then does anything change.

The class invariant `Store.Consistent` states two things:

- each user's stored `events_joined_count` equals the number of events whose `users_assigned` list holds that user's email;
- every email listed on an event names a stored user, and no list repeats an email.

Every mutating endpoint keeps this invariant. Registration, event creation, assignment and joining each call a preservation lemma about the two collections as plain values. Adding an achievement touches only the achievement list of one record, so it keeps the invariant without a lemma.

Passwords and tokens are abstract. A bcrypt digest accepts exactly the password it was made from. A JWT is reduced to three things: whether it decodes, its `sub`, and its `exp`. A token issued at time `t` expires at `t + 10080` minutes. It is rejected once the clock reaches that time.

The front end is modelled as pure functions:

- `ProtectedRoute` decides between showing the spinner, rendering the page, and redirecting;
- `AppRoutes` is the routing table;
- `Home` maps a role to its landing page.

The lemmas state the guard's decisions route by route and show that redirects never loop.

The code behaves as follows, and the model follows it. Each item names the member whose contract proves it, except the fact about deletion, which no lemma can state:

- Registration accepts any role string, including `"admin"` and `"chief"`. A self-registered `"admin"` therefore passes the admin gate (`Server.SelfRegisteredRoleIsTrusted`).
- `require_admin` refuses `"chief"` with 403, even though the front end sends chiefs to the admin pages (`Server.RequireAdmin`, `Routes.AdminRouteGate`).
- Assigning a user who is already on the event fails with 400, with nothing changed (`Server.Backend.AssignUserToEvent`).
- Achievements have set semantics (`$addToSet`), so earning one twice keeps a single copy (`Store.AddToSetIdempotent`).
- Event names are not unique: creating an event never checks its name, and a lookup takes the first match (`Server.Backend.CreateEvent`, `Store.FindEvent`).
- `events_joined_count` is a counter stored in the user record and updated by assignment, not a value derived at read time. The invariant `Store.Consistent` states that it always agrees with the lists.
- The counter counts only `users_assigned`. Joining as an admin leaves every user record unchanged (`Server.Backend.JoinEventAsAdmin`).
- The backend has no endpoint that deletes an account or an event, so there is no cascade to model. This is a fact about `backend/server.py`, not a proved property.

## Model

| member | source | states |
|---|---|---|
| `Crypto.VerifyPassword` | backend/server.py:71-72 | a password verifies against a digest iff the digest was made from that password |
| `Crypto.HashPassword` | backend/server.py:68-72 | the stored digest verifies the password it was made from and no other password |
| `Crypto.CreateAccessToken` | backend/server.py:74-79 | the issued token decodes to its subject at every time before issue time + 7·24·60 minutes, and to nothing from then on |
| `Crypto.DecodeToken` | backend/server.py:85-96 | a token yields a subject iff it is signed, carries `sub` and, if it carries `exp`, the clock has not reached `exp`; the subject is the token's `sub` |
| `Store.NewUser` | backend/server.py:114-118 | a registered record starts with `events_joined_count` 0 and no achievements, keeps the requested role verbatim, and stores a digest that verifies the password |
| `Store.JoinedCount` | backend/server.py:182-194 | the number of events listing an email never exceeds the number of events |
| `Store.JoinedCountCountsEvents` | backend/server.py:182-194 | `JoinedCount` equals the size of the set of event indices whose `users_assigned` holds the email |
| `Store.Consistent` | backend/server.py:117 | the class invariant: each stored `events_joined_count` equals `JoinedCount` for that email, every email on an event's lists names a stored user, and no list repeats an email; in particular it implies that every stored count lies between 0 and the number of events |
| `Store.CountRole` | backend/server.py:216-218 | `count_documents({"role": r})`: at most the number of users, and 0 exactly when no stored user has role r |
| `Store.AddToSet` | backend/server.py:152-155 | `$addToSet`: the result holds exactly the old elements plus the value; it is unchanged if the value was present and otherwise one longer, with the old list as its prefix; no duplicates are introduced |
| `Store.AddToSetIdempotent` | backend/server.py:152-155 | adding the same value twice is the same as adding it once |
| `Store.FindEvent` | backend/server.py:175-177 | `find_one` by name: the index of the FIRST event with that name, or none exactly when no event has it |
| `Store.JoinedCountAppend` | backend/server.py:162-165 | appending an event adds one to an email's count iff the new event's `users_assigned` holds it |
| `Store.JoinedCountUpdate` | backend/server.py:186-189 | replacing one event changes an email's count by that event's old and new membership only |
| `Store.JoinedCountAbsent` | backend/server.py:117 | an email on no `users_assigned` list has count 0 |
| `Store.RegisterKeepsConsistent` | backend/server.py:110-120 | inserting a record with count 0 under an unused email keeps counters and lists in agreement |
| `Store.CreateEventKeepsConsistent` | backend/server.py:160-165 | appending an event with empty member lists keeps the invariant |
| `Store.AssignKeepsConsistent` | backend/server.py:179-194 | adding a stored, not-yet-assigned email to event i and incrementing that user's counter keeps the invariant |
| `Store.JoinKeepsConsistent` | backend/server.py:204-210 | adding a stored email to `admins_joined` keeps the invariant (no counter changes) |
| `Store.StatsPartition` | backend/server.py:214-224 | the "user" count, the "admin" count and all other roles partition the users, so a chief is counted in neither and the two counts fall short of the total whenever a chief exists |
| `Server.Authenticate` | backend/server.py:81-101 | the caller authenticates iff a credential is present, decodes to a subject, and that subject is a stored email; the caller's profile, role included, is the stored record, never the token; every failure is answered with the 401 that the handler's exception clauses are written to give (what the code as written does instead is under Left out) |
| `Server.RequireAdmin` | backend/server.py:103-106 | an authentication failure is 401; an authenticated caller passes iff the stored role is exactly `"admin"`, otherwise 403 (so `"chief"` and `"user"` get 403) |
| `Server.IssuedTokenAuthenticates` | backend/server.py:74-101 | a token issued for a stored email authenticates that user's stored profile until it expires and is a 401 afterwards |
| `Server.SelfRegisteredRoleIsTrusted` | backend/server.py:103-124 | after self-registration under a fresh email, the returned token passes the admin gate iff the requested role was `"admin"`, else 403 |
| `Server.Backend.constructor` | backend/server.py:19-21 | the server starts with empty collections, the invariant holds, and the clock is the given time |
| `Server.Backend.Tick` | backend/server.py:76 | the clock advances by the given minutes and nothing else changes |
| `Server.Backend.Register` | backend/server.py:108-124 | an email already stored is 400 with nothing changed; otherwise exactly one user is added, with the requested role and uniform, or the request defaults "user" and "Standard Scout Uniform" of `UserBase` (server.py lines 36-37) when they are omitted, count 0 and no achievements, other users and all events unchanged, and the reply carries the new profile and a token for that email; the invariant is kept |
| `Server.Backend.Login` | backend/server.py:126-135 | succeeds iff the email is stored and the password verifies; an unknown email and a wrong password both give the same 401; success returns the stored profile and a fresh token |
| `Server.Backend.GetCurrentUserProfile` | backend/server.py:137-139 | returns the caller's stored profile iff the token authenticates, else 401 |
| `Server.Backend.GetAllUsers` | backend/server.py:141-144 | 401/403 from the admin gate; otherwise one profile per stored email, equal to the stored record without its hash |
| `Server.Backend.AddAchievement` | backend/server.py:146-156 | 401/403, then 404 for an unknown user with nothing changed; otherwise only that user's achievements change, by `$addToSet`; events unchanged; invariant kept |
| `Server.Backend.CreateEvent` | backend/server.py:158-166 | 401/403 with nothing changed; otherwise one event is appended with the caller as creator and empty member lists, even if the name is taken; users unchanged; invariant kept |
| `Server.Backend.GetEvents` | backend/server.py:168-171 | 401 for an unauthenticated caller; otherwise all events, for any role |
| `Server.Backend.AssignUserToEvent` | backend/server.py:173-196 | 401/403, then 404 missing event, then 400 already assigned, then 404 missing user, each with nothing changed; otherwise the email is appended to the first event of that name, that user's counter and the number of events listing the user both go up by exactly 1, and no other event or user changes; invariant kept |
| `Server.Backend.JoinEventAsAdmin` | backend/server.py:198-212 | 401/403, then 404 missing event, then 400 already joined, with nothing changed; otherwise the caller's email is appended to `admins_joined` of the first event of that name; users, every `users_assigned` list and the number of events unchanged; invariant kept |
| `Server.Backend.GetStats` | backend/server.py:214-224 | 401/403 from the admin gate; otherwise the number of users with role "user", with role "admin", and of events; nothing changes |
| `Routes.Home` | frontend/src/App.js:46 | chief → `/chief`, admin → `/admin`, any other role → `/dashboard`, each case iff its role condition |
| `Routes.AfterSignIn` | frontend/src/pages/Login.js:23-29 | the post-sign-in destination coincides with `Home` for every role |
| `Routes.ProtectedRoute` | frontend/src/App.js:12-39 | spinner while loading; `/login` when signed out; otherwise renders iff the chief flag is unset or the role is "chief" and the admin flag is unset or the role is "admin" or "chief"; redirects only to `/login`, `/admin` or `/dashboard` |
| `Routes.AppRoutes` | frontend/src/App.js:41-75 | a path yields no match iff it is not one of the seven table paths; `/login` shows the login page when nobody is signed in and otherwise redirects to `Home` of the user's role |
| `Routes.Follow` | frontend/src/App.js:27-72 | following redirects: a screen that is not a redirect is final, zero hops shows the route itself, and a result that is still a redirect started from a redirect |
| `Routes.SpinnerWhileLoading` | frontend/src/App.js:15-24 | while loading, every protected route shows the spinner whatever the user |
| `Routes.SignedOutGoesToLogin` | frontend/src/App.js:26-28 | signed out, every route but `/login` redirects to `/login`, which then shows the login page |
| `Routes.ChiefRouteGate` | frontend/src/App.js:30-32 | `/chief` renders only for "chief"; "admin" goes to `/admin`, anything else to `/dashboard` |
| `Routes.AdminRouteGate` | frontend/src/App.js:34-36 | `/admin` renders for "admin" and "chief"; anything else goes to `/dashboard` |
| `Routes.OpenRoutesRender` | frontend/src/App.js:57-71 | `/dashboard`, `/events` and `/profile` render for every signed-in role string |
| `Routes.HomeRenders` | frontend/src/App.js:46-71 | each role's home route renders for that role |
| `Routes.RedirectTargetRenders` | frontend/src/App.js:30-71 | no redirect loop: for a signed-in user, every redirect from the guard or from `/login` lands on a route that renders for the same role |
| `Routes.EveryRouteSettles` | frontend/src/App.js:12-75 | from every table path, following at most two redirects reaches a non-redirect (the longest chain is `/` → `/login` → the role's home); once loading is over it reaches a rendered page |
| `Routes.RootGoesToLogin` | frontend/src/App.js:46-72 | `/` always redirects to `/login`, and for a signed-in user one hop from `/` is still a redirect, to the role's home, so two hops are needed |

## Left out

- Persistence, I/O and configuration are not modelled: MongoDB/motor, async execution, CORS, logging and environment variables. The collections are in-memory fields. `Server.Backend.constructor` starts from empty collections.
- Concurrency is not modelled. The model is sequential, so it cannot show the check-then-write races in `register` and `assign_user_to_event`.
- bcrypt is reduced to "a digest accepts exactly its own password". Salting, the cost factor and any byte-length limit on passwords are not modelled.
- JWT signing and encoding are not modelled, and neither is the secret key. A token is its decoded `sub` and `exp` plus a flag that says whether it decodes. Every decoding failure is the same 401. The exception classes the decoder raises, and the distinct `detail` strings, are not modelled.
- The framework's behaviour when the `Authorization` header is missing is not modelled. An absent credential is handled as `get_current_user` handles it: 401.
- The clock counts whole minutes. JWT `exp` timestamps in seconds and clock leeway are not modelled.
- Request validation by pydantic is not modelled, apart from the two request defaults, which `Server.Backend.Register` applies through `Store.DefaultRole` and `Store.DefaultUniform`. In particular, `EmailStr` syntax checking and normalisation are left out: emails are arbitrary strings compared exactly.
- Server.Authenticate: returns 401 for every token failure, which is what the exception clauses of `get_current_user` are written to give. As written, server.py:93 names `jwt.JWTError`, which the imported PyJWT module does not define. Evaluating that clause for any failure other than an expired signature raises an AttributeError that escapes the handler. A malformed or badly signed token, and a token without `sub`, then most likely get a 500, not a 401. The outcome depends on which JWT library is installed, and the model does not capture it.
- Routes.AppRoutes: compares paths as exact strings. The router's own matching, which ignores letter case and a trailing slash by default (so `/Chief` and `/chief/` reach the `/chief` guard), is not modelled.
- Server.Backend.GetAllUsers: does not model the cap of 1000 documents returned by `to_list(1000)`. It returns every stored user, and the store has no order for them.
- Server.Backend.GetEvents: does not model the cap of 1000 documents returned by `to_list(1000)`. It returns every event.
- The page components are not modelled: dashboards, events, profile, and the login form's rendering and form state. Their only logic is client-side filtering and back-button targets. The login form's post-sign-in mapping is modelled, as `Routes.AfterSignIn`.
- Three endpoints the pages call are never defined by the backend: creating a user, deleting a user, and deleting an event. Nothing is modelled for them.
