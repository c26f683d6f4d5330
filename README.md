# Blog access control and content rules, in Dafny

This project models the request handlers of a small Flask blog. Visitors read
posts. Registered users log in and comment. Admins create, edit and delete
posts and delete comments. A fixed code typed at login promotes a user to
admin.

The database is abstracted as one map per table: `users`, `blog_posts` and
`comments`, keyed by row id. Each table also has a counter for the next id.
The browser session is an `Identity`: `Anonymous`, or `Authenticated(userId)`.

The modules are:

- `Records`: the row types, the role strings `"user"` and `"admin"`, and the
  promotion code `"siisi321"`. It also holds `Hasher`, the hashing pair the
  code calls. `hash(password, salt)` makes the stored value and
  `check(stored, password)` tests a submitted password against it. The salt
  is an input because the hashing library draws it at random. `Sound` and
  `Exact` are the properties a hasher may be assumed to have. Lemmas take
  them as hypotheses.
- `Access`: `current_user.is_authenticated` and the `admin_only` guard.
- `Handlers`: the state (`Db` plus session) and its invariant `Valid`. It
  has one function per route handler, mapping the state before the request
  to the state after it and the response. Each function's contract states
  what that handler changes and what it leaves alone.
- `Invariants`: every handler keeps `Valid`. `Valid` covers ids below their
  counters, unique emails and titles, known roles, every post written by an
  admin, comment authors and the session naming existing users, and comment
  posts that exist or are NULL.
- `Properties`: facts that span several requests. Register then log in.
  Register twice. Repeat a promotion. Reopen an edited post.
- `Traces`: runs of any number of requests. Users are never removed. Their
  email, name and password hash never change. Admins are never demoted. In a
  blog that started empty, every post was written by an admin.
- `Store`: the imperative form of the application. Class `BlogStore` holds
  the tables and the session as fields. Its methods update them in place,
  one per route. Each method is proved to produce exactly the state and
  response of the matching `Handlers` function. The email lookup
  `filter_by(email=…).first()` is a scan over the users table.

## Model

| member | source | states |
|---|---|---|
| `Access.IsAuthenticated` | main.py:56-58 | The anonymous session is not authenticated, and neither is a session whose user id has no row. An authenticated session names an existing user. |
| `Access.AdminOnly` | main.py:126-134 | An anonymous identity never passes the guard. A logged-in user passes exactly when its role is `"admin"`. |
| `Access.Promotes` | main.py:211 | Promotion happens exactly when the code equals `"siisi321"` and the user is not already an admin. The separate non-empty test adds nothing. |
| `Handlers.Valid` | main.py:62-113 | In a valid state the next id of each table is unused. Every post's author and every comment's author is an existing user. The full invariant also covers unique emails (main.py:65) and titles (main.py:89), the two roles, posts written by admins, and comment posts that exist or are NULL. |
| `Handlers.EmailTaken` | main.py:154 | The email is free exactly when no user has it. |
| `Handlers.TitleTaken` | main.py:89 | The title is free exactly when no post other than the one being edited has it. |
| `Handlers.LookupEmail` | main.py:198 | The lookup returns a user with that email, and returns none exactly when no user has it. |
| `Handlers.LookupUnique` | main.py:65 | Because `users.email` is unique, the lookup finds the one user with that email. |
| `Handlers.Register` | main.py:148-179 | A GET changes nothing. An email already on file changes nothing and redirects to login. A fresh email adds exactly one user with that email and name, role `"user"`, and the hash of the submitted password. That user becomes the session identity. The other tables and their id counters are unchanged. |
| `Handlers.Login` | main.py:189-217 | An unknown email, or a password the hasher rejects, changes nothing and redirects to login with a distinct notice. A correct password makes that user the session identity. The user's role becomes `"admin"` if the code is `"siisi321"` and otherwise stays as it was. Nothing else changes. |
| `Handlers.Logout` | main.py:227-230 | The session is anonymous afterwards, whatever it was before. The database is unchanged. |
| `Handlers.ShowPost` | main.py:233-257 | A comment from an anonymous browser adds nothing and redirects to login. A logged-in user's comment adds exactly one comment: the submitted text, by the current user, on the requested post. No other row and no other id counter changes. |
| `Handlers.AddNewPost` | main.py:278-294 | Non-admins get 403 and nothing changes. An admin's submission adds exactly one post, written by the current admin, with the submitted fields and date. The other tables and their id counters are unchanged. A title already in use fails the commit and changes nothing. |
| `Handlers.EditPost` | main.py:303-329 | Non-admins get 403 and nothing changes. The admin's GET returns the form filled from the post. A POST that fails validation changes nothing and shows the form again with the values as submitted. A valid submission replaces exactly the post's title, subtitle, image URL and body. Its author, its date and every other row are unchanged. |
| `Handlers.DeletePost` | main.py:332-339 | Non-admins get 403 and nothing changes. Otherwise exactly that post is removed. Its comments stay, with `post_id` NULL. Every other comment and every other row is unchanged. |
| `Handlers.DeleteComment` | main.py:342-349 | Non-admins get 403 and nothing changes. Otherwise exactly that comment is removed. |
| `Invariants.RegisterKeepsValid` | main.py:148-179 | Registering keeps emails unique, ids fresh and roles known. |
| `Invariants.LoginKeepsValid` | main.py:189-217 | Login, including promotion, keeps the invariant. No user is removed, and every user's role afterwards is either its old role or `"admin"`. |
| `Invariants.LogoutKeepsValid` | main.py:227-230 | Logout keeps the invariant. |
| `Invariants.ShowPostKeepsValid` | main.py:233-257 | Adding a comment keeps the invariant. The new comment's author exists. |
| `Invariants.AddNewPostKeepsValid` | main.py:278-294 | Creating a post keeps titles unique and every post's author an admin. |
| `Invariants.EditPostKeepsValid` | main.py:303-321 | Editing keeps titles unique. |
| `Invariants.DeletePostKeepsValid` | main.py:332-339 | Deleting a post keeps the invariant. In particular no comment is left naming the deleted post. |
| `Invariants.DeleteCommentKeepsValid` | main.py:342-349 | Deleting a comment keeps the invariant. |
| `Properties.RegisterThenLogin` | main.py:160-175 | With a sound hasher, after registering, logging in with the same email and password succeeds as the new user. |
| `Properties.RegisterThenWrongPassword` | main.py:204-207 | With an exact hasher, after registering, any other password is rejected and nothing changes. |
| `Properties.RegisterTwice` | main.py:153-158 | Registering the same email a second time adds no second user and redirects to login. |
| `Properties.LoginWithCodeGrantsAdmin` | main.py:209-216 | A successful login with the promotion code passes the `admin_only` guard afterwards. |
| `Properties.LoginIdempotent` | main.py:211-213 | Repeating a successful login with the same inputs changes nothing more. Promotion is idempotent. |
| `Properties.LogoutIdempotent` | main.py:227-230 | Logging out twice equals logging out once. |
| `Properties.NewPostOpensInEditForm` | main.py:284-293 | A post an admin has just created opens in the edit form with the fields it was created with. |
| `Properties.EditThenReopen` | main.py:307-320 | After an edit, the edit form shows the submitted fields. |
| `Traces.StepGrows` | main.py:148-349 | Every handler keeps the invariant. No handler removes a user, changes a user's email, name or password hash, or demotes an admin. |
| `Traces.RunGrows` | main.py:148-349 | The same holds over any sequence of requests. |
| `Traces.AdminIsForever` | main.py:209-213 | Once a user is an admin, no sequence of requests takes the role away. |
| `Traces.PostsAreByAdmins` | main.py:278-293 | In a blog that started empty, every post was written by a current admin and every comment by an existing user, after any sequence of requests. |
| `Store.FindUserByEmail` | main.py:198 | The table scan returns a user with the email, or none only when no user has it. |
| `Store.BlogStore.constructor` | main.py:61-117 | The store starts with empty tables and an anonymous session. |
| `Store.BlogStore.Register` | main.py:148-179 | It updates the tables and session in place exactly as `Handlers.Register` describes, and keeps the invariant. |
| `Store.BlogStore.Login` | main.py:189-217 | It does exactly what `Handlers.Login` describes, including the in-place role assignment, and keeps the invariant. |
| `Store.BlogStore.Logout` | main.py:227-230 | It does exactly what `Handlers.Logout` describes. |
| `Store.BlogStore.ShowPost` | main.py:233-257 | It does exactly what `Handlers.ShowPost` describes. |
| `Store.BlogStore.AddNewPost` | main.py:278-294 | It does exactly what `Handlers.AddNewPost` describes, guard included. |
| `Store.BlogStore.EditPost` | main.py:303-329 | It does exactly what `Handlers.EditPost` describes, including the in-place field assignments and the re-shown rejected submission. |
| `Store.BlogStore.DeletePost` | main.py:332-339 | It does exactly what `Handlers.DeletePost` describes, including setting the post's comments' `post_id` to NULL. |
| `Store.BlogStore.DeleteComment` | main.py:342-349 | It does exactly what `Handlers.DeleteComment` describes. |

Behaviour the model keeps:

- Deleting a post does not delete its comments. The `comments` relationship
  (main.py:96) declares no delete cascade and no `passive_deletes`. When
  `delete_post` deletes the post, the ORM therefore keeps its comments and
  sets their `post_id` to NULL. The model does the same, so no comment ever
  names a post that is gone.
- A new post or an edit whose title another post already has is not turned
  into a handled error. `blog_posts.title` is a unique column (main.py:89),
  so the commit raises an uncaught integrity error and nothing is stored.
  The model answers `CommitFailed` with the state unchanged.
- A login with an unknown email and one with a wrong password give different
  notices (main.py:202, main.py:206). The model keeps the two apart.

## Left out

- Page rendering, flashed message text, Bootstrap, CKEditor, Gravatar, the
  `flask.Markup` patch and the favicon route: these are presentation only. A
  flash before a redirect to login is kept as a `Notice` tag. The
  promotion flash is not kept.
- `get_all_posts`, `about` and `contact` only render pages and change no
  state.
- The internals of the password hashing library are not modelled. Hashing is
  the `Hasher` pair. That the stored hash never equals the plaintext is a
  property of the library, not of this code, and is not stated.
- The SQL session and its commits are not modelled. Each handler's writes
  are applied together, and a failed commit leaves the tables as they were.
- Ids come from a per-table counter and are never reused. A SQLite table
  without AUTOINCREMENT may reuse the largest deleted id. That reuse is not
  modelled.
- The user loader (main.py:56-58) appears only as the test that the session's
  user id has a row (`Access.IsAuthenticated`).
- Post dates come from the wall clock and are an opaque input string. Form
  validation (`validate_on_submit`, and the POST test in `register` and
  `login`) is a `submitted` flag; which field check fails is not modelled.
  `add_new_post`, `show_post` and `edit_post` all show a rejected submission
  again as it was submitted. Only `RenderEditPost` carries form values in
  the model; `RenderNewPost` and `RenderPost` carry none. So only `edit_post`
  tells a GET from a rejected POST (`Submission`). Form values arrive as
  strings, and a missing promotion code is the empty string.
- Looking up a missing post or comment is not modelled. `show_post`,
  `edit_post`, `delete_post` and `comment_to_delete` use the fetched record
  unchecked. Their models require the record to exist, and for the guarded
  handlers only when the guard passes.
- The debugging prints in `register` (main.py:155, main.py:177) are output
  only. One of them writes the password hash to the console.
- Only one browser session is modelled. Concurrent requests and several
  browsers are not.
- The migration that adds the `role` column with default `"user"` runs
  before the application and has no runtime logic.
- `Store.BlogStore.constructor`: the model starts from an empty database.
  `db.create_all()` (main.py:116-117) keeps rows already on disk. The role
  migration
  (migrations/versions/761169325ade_add_role_column_to_users.py:21-22) gives
  every existing user the role `"user"`, including the author of any
  existing post. Such a database breaks `PostAuthorsAreAdmins`, so it is not
  `Valid`. The `Store` methods and the `Invariants` lemmas require `Valid`
  and do not cover it, although the handlers still run on it.
