# Study-session membership and rules, in Dafny

This project models the rules layer of a small study-session web application.
Users register and log in. They create study sessions, join and leave sessions,
and comment on them. The model covers four parts, each with its proved properties:

- **Models** (`models.dfy`): the `user`, `study_session` and `session_comment`
  tables as maps from primary key to row. The `session_members` association
  table is a set of `(user, session)` pairs whose whole row is its key.
  - The relationship views are functions of those values: `members`,
    `joined_sessions`, `created_sessions` and `comments`.
  - `get_participant_count` and `is_past` are functions on that data too.
  - The declared constraints form one invariant, `Consistent`: unique
    usernames and emails, and every foreign key naming an existing row.
  - A `Database` class holds the tables. Its insert, join and leave methods
    keep that invariant and say exactly how each table changes.
  - A `User` class models the object whose `set_password` assigns its hash field.
- **LocationSuggestion** (`location.dfy`): `suggest_location`, the three-way
  choice of room from the participant count.
- **Forms** (`forms.dfy`): the login, registration and study-session forms.
  Each is a list of fields with validator chains, evaluated the way WTForms
  evaluates them. For each form there is a lemma stating exactly which
  submissions it accepts.
- **Wrappers** (`wrappers.dfy`): `Option` and `Outcome`.

Inputs that the application takes from its environment are parameters here:
- The clock: a `DateTime` with a whole day number and a second of the day.
- Werkzeug's password hasher and checker: the functions `hash` and `verify`.
- The email-format check of the `Email()` validator: `isEmail`.

Join and leave follow the route tests: joining inserts the pair, leaving
deletes it. The creator is not a member automatically and may leave like
anyone else.
- `tests/conftest.py:70-85` builds a session whose creator is the test user.
- `tests/test_routes_integration.py:40-66` has that same user join the session
  and then leave it, and the test expects both steps to succeed.
- `Models.CreatorJoinsAndLeaves` replays that scenario.

The session fixture (`tests/conftest.py:76-82`) and `tests/test_models.py:40-46`
build sessions without a `time`. The `time` column is declared NOT NULL
(`app/models.py:59`), so the fixture as written fails when it commits. In
this model `time` is a plain string, so a session without one cannot be
written.

## Model

| member | source | states |
|---|---|---|
| `Models.MembersOf` | app/models.py:27-31 | a user is in `session.members` exactly when the pair (user, session) is in the association table |
| `Models.JoinedSessionsOf` | app/models.py:27-31 | a session is in `user.joined_sessions` exactly when the pair (user, session) is in the association table |
| `Models.ViewsAgree` | app/models.py:27-31 | `u` is among `s`'s members exactly when `s` is among `u`'s joined sessions |
| `Models.ParticipantCount` | app/models.py:77-79 | the count of association rows of the session equals the number of its distinct members |
| `Models.MembersCountIsPairCount` | app/models.py:10-14 | because the pair is the row's whole key, a session's rows and its members are equally many (proved by induction on the relation) |
| `Models.JoinIdempotent` | app/models.py:10-14 | inserting a pair that is already present leaves the relation unchanged |
| `Models.JoinEffect` | tests/test_routes_integration.py:40-55 | after a join the user is a member, the count rises by exactly one for a new member and not at all otherwise, and every other session's members are unchanged |
| `Models.LeaveEffect` | tests/test_routes_integration.py:57-66 | after a leave the user is not a member, the count drops by exactly one for a member and not at all otherwise, and every other session's members are unchanged |
| `Models.JoinThenLeave` | tests/test_routes_integration.py:40-66 | joining and then leaving restores the relation exactly, with no exception for the creator |
| `Models.IsPastOnlyDays` | app/models.py:81-83 | `is_past` depends only on the session's calendar day and the clock's calendar day, not on the times of day |
| `Models.IsPastToday` | app/models.py:81-83 | a session dated today, at any time, is not past; one dated on an earlier day is past |
| `Models.IsPastMonotone` | app/models.py:81-83 | a session past on one day is past on every later day |
| `Models.CreatedSessionsPartition` | app/models.py:33-38 | under the declared constraints the `created_sessions` of different users are disjoint and together are all the stored sessions |
| `Models.CommentsOnPartition` | app/models.py:103-104 | under the declared constraints the `comments` of different sessions are disjoint and together are all the stored comments |
| `Models.CommentsByPartition` | app/models.py:101-102 | under the declared constraints the `comments` of different users are disjoint and together are all the stored comments |
| `Models.UniqueColumnCount` | app/models.py:20-22 | a column no two users share holds exactly as many distinct values as there are users (proved by induction on the keys) |
| `Models.UsernamesCount` | app/models.py:20 | with the UNIQUE username constraint there are exactly as many usernames in use as users |
| `Models.EmailsCount` | app/models.py:22 | with the UNIQUE email constraint there are exactly as many emails in use as users |
| `Models.JoinKeepsConsistent` | app/models.py:12-13 | inserting a pair whose user and session both exist keeps every declared constraint, the association table's foreign keys included |
| `Models.EverySessionHasOneCreator` | app/models.py:65 | under the declared constraints every session is among the created sessions of an existing user, and of no other user |
| `Models.EveryCommentHasOneAuthorAndSession` | app/models.py:96-99 | under the declared constraints every comment has exactly one existing author and exactly one existing session |
| `Models.User.constructor` | app/models.py:16-24 | a new user object has the given username and email and no password hash yet |
| `Models.User.SetPassword` | app/models.py:40-42 | `set_password` stores the hash of the given password and changes nothing else |
| `Models.PasswordRoundTrip` | app/models.py:40-46 | if the checker accepts every hash the hasher makes, a password just set passes `check_password` |
| `Models.Database.constructor` | app/models.py:10-14 | a new database has empty tables and satisfies the declared constraints |
| `Models.Database.AddUser` | app/models.py:18-24 | saving a user fails with the username error if the username is taken, otherwise with the email error if the email is taken; otherwise exactly that row is added; nothing else changes and the constraints still hold |
| `Models.Database.AddSession` | app/models.py:51-75 | saving a session fails if its creator does not exist or its parent does not exist; otherwise exactly that row is added; nothing else changes and the constraints still hold |
| `Models.Database.AddComment` | app/models.py:88-99 | saving a comment fails if its author or its session does not exist; otherwise exactly that row is added; nothing else changes and the constraints still hold |
| `Models.Database.Join` | tests/test_routes_integration.py:40-55 | joining inserts the pair when the user and the session exist; the user is then a member, the count follows `JoinEffect`, and no other table or session changes |
| `Models.Database.Leave` | tests/test_routes_integration.py:57-66 | leaving deletes the pair and reports whether it was there; the user is then not a member, the count follows `LeaveEffect`, and no other table or session changes |
| `Models.CreatorJoinsAndLeaves` | tests/conftest.py:70-85 | in the fixture's scenario the creator of a session dated tomorrow is a member after joining it and is not a member after leaving it |
| `LocationSuggestion.LocationFor` | app/main/utils.py:10-15 | counts up to 3 give the library group study room, 4 to 6 the student union tables, 7 and more the private library room; each count gets exactly one |
| `LocationSuggestion.SuggestLocation` | app/main/utils.py:4-15 | the suggestion for a session is the suggestion for its number of distinct members |
| `LocationSuggestion.LabelsDistinct` | app/main/utils.py:10-15 | the three label texts are pairwise different, so a label determines the suggestion |
| `LocationSuggestion.LocationMonotone` | app/main/utils.py:10-15 | a larger count never gets a lower-ranked suggestion |
| `LocationSuggestion.LocationBoundaries` | app/main/utils.py:10-15 | 3 and 4, and 6 and 7, fall on the two sides of the boundaries |
| `LocationSuggestion.SuggestionDependsOnCountOnly` | app/main/utils.py:8 | two sessions with equal participant counts get the same suggestion |
| `Forms.ChainNoErrors` | app/forms.py:8-38 | a validator chain ends without errors exactly when no earlier error was recorded and every validator passes (proved by induction on the chain) |
| `Forms.FieldErrors` | app/forms.py:8-38 | a field has no errors exactly when every one of its validators passes |
| `Forms.LoginValidIff` | app/forms.py:7-10 | the login form validates exactly when the email is non-blank and well-formed and the password is non-blank |
| `Forms.LoginRejectsEmptyPassword` | tests/test_forms.py:32-43 | an empty password makes the form invalid and records the required-field error on the password field |
| `Forms.LoginRejectsMalformedEmail` | tests/test_forms.py:18-29 | a malformed email makes the form invalid and records an error on the email field |
| `Forms.RegistrationValidIff` | app/forms.py:13-30 | registration validates exactly when: the username is non-blank, 3 to 80 characters and not taken; the email is non-blank, well-formed and not taken; the password is non-blank and at least 6 characters; and the confirmation is non-blank and equal to the password |
| `Forms.RegistrationKeepsUsersUnique` | app/forms.py:20-30 | a user saved from a valid registration keeps usernames and emails unique among the stored users |
| `Forms.StudySessionValidIff` | app/forms.py:33-38 | the session form validates exactly when title (at most 200), date, time (at most 20) and location (at most 200) are non-blank and the topic is at most 100 characters |
| `Forms.ContentIsNonEmpty` | app/forms.py:14 | a value the required-field check accepts is never empty |

## Left out

- Password hashing and checking are Werkzeug's. They enter as the parameters `hash` and `verify`.
- Models.User.SetPassword: treats `hash` as a function of the password alone. `generate_password_hash` draws a random salt, so two calls with the same password give different hashes; the model does not capture that.
- The email-address syntax check of `Email()` belongs to a library. It enters as the parameter `isEmail`.
- The `utcnow()` defaults of `created_at` and `timestamp`: the caller supplies those values in the row.
- Primary keys of new rows are supplied by the caller, with a precondition that the key is unused. The database's choice of the next key is not modelled.
- Foreign keys are modelled as the schema declares them. SQLite enforces them only when a connection enables them, which the application's setup does not show.
- Maximum column lengths (`String(80)` and the like) are not modelled. SQLite does not enforce them. The form lengths are modelled.
- Precedence of errors: when a row breaks several constraints at once, the model reports the first in its own fixed order.
- Join and leave have no routes in this repository, and the model adds no rule of its own: it does not refuse to join a past session, reports no "already a member" or "not a member" error, lets the creator leave, and does not add the creator automatically. A ban on the creator leaving would contradict `tests/test_routes_integration.py:66`.
- Session creation with recurrence expansion, editing, deletion, cascades and the comment length limit have no code here. The recurrence columns are stored and never read.
- DataRequired uses the whitespace that Python's `str.strip()` removes. The list covers the characters Python counts as whitespace. It is written out by hand and does not come from a Unicode database.
- The error messages of the validators are not modelled. A field's errors are the list of validators that failed.
- CSRF protection, the login flow, route handlers and templates are not part of this model. Neither are the application factory, the login manager and ORM loading.
