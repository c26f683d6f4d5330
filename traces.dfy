/** Sequences of requests from one browser. Over any run: no user is removed,
    a user's email, name and password hash never change, an admin never loses
    the role, and the state invariant holds, so every post in a store that
    started empty was written by an admin. */
module Traces {
  import opened Records
  import opened Access
  import opened Handlers
  import opened Invariants

  /** One request to one of the modelled routes, with its form inputs. */
  datatype Request =
    | RegisterRequest(submitted: bool, email: string, name: string, password: string, salt: string)
    | LoginRequest(submitted: bool, email: string, password: string, code: string)
    | LogoutRequest
    | ShowPostRequest(postId: nat, submitted: bool, text: string)
    | NewPostRequest(submitted: bool, form: PostForm, date: string)
    | EditPostRequest(postId: nat, submission: Submission, form: PostForm)
    | DeletePostRequest(postId: nat)
    | DeleteCommentRequest(commentId: nat)

  /** The record a request looks up by id exists (the handlers use it unchecked). */
  ghost predicate Enabled(s: State, req: Request)
  {
    match req
    case ShowPostRequest(postId, _, _) => postId in s.db.posts
    case EditPostRequest(postId, _, _) => AdminOnly(s.db.users, s.session) ==> postId in s.db.posts
    case DeletePostRequest(postId) => AdminOnly(s.db.users, s.session) ==> postId in s.db.posts
    case DeleteCommentRequest(commentId) => AdminOnly(s.db.users, s.session) ==> commentId in s.db.comments
    case _ => true
  }

  ghost function Step(s: State, h: Hasher, req: Request): (State, Response)
    requires Enabled(s, req)
  {
    match req
    case RegisterRequest(submitted, email, name, password, salt) => Register(s, h, submitted, email, name, password, salt)
    case LoginRequest(submitted, email, password, code) => Login(s, h, submitted, email, password, code)
    case LogoutRequest => Logout(s)
    case ShowPostRequest(postId, submitted, text) => ShowPost(s, postId, submitted, text)
    case NewPostRequest(submitted, form, date) => AddNewPost(s, submitted, form, date)
    case EditPostRequest(postId, submission, form) => EditPost(s, postId, submission, form)
    case DeletePostRequest(postId) => DeletePost(s, postId)
    case DeleteCommentRequest(commentId) => DeleteComment(s, commentId)
  }

  /** The state after serving `reqs` in order, or None when some request
      names a record that is not there. */
  ghost function Run(s: State, h: Hasher, reqs: seq<Request>): Option<State>
    decreases |reqs|
  {
    if reqs == [] then Some(s)
    else if !Enabled(s, reqs[0]) then None
    else Run(Step(s, h, reqs[0]).0, h, reqs[1..])
  }

  /** `t` is a later state of `s`: every user is still there with the same
      email, name and password hash, and every admin is still an admin. */
  ghost predicate Grows(s: State, t: State)
  {
    forall id :: id in s.db.users ==>
      && id in t.db.users
      && t.db.users[id].email == s.db.users[id].email
      && t.db.users[id].name == s.db.users[id].name
      && t.db.users[id].password == s.db.users[id].password
      && (s.db.users[id].role == AdminRole ==> t.db.users[id].role == AdminRole)
  }

  /** Each request keeps the invariant and only grows the users table. */
  lemma StepGrows(s: State, h: Hasher, req: Request)
    requires Valid(s) && Enabled(s, req)
    ensures Valid(Step(s, h, req).0)
    ensures Grows(s, Step(s, h, req).0)
  {
    match req
    case RegisterRequest(submitted, email, name, password, salt) =>
      RegisterKeepsValid(s, h, submitted, email, name, password, salt);
    case LoginRequest(submitted, email, password, code) =>
      LoginKeepsValid(s, h, submitted, email, password, code);
    case LogoutRequest =>
      LogoutKeepsValid(s);
    case ShowPostRequest(postId, submitted, text) =>
      ShowPostKeepsValid(s, postId, submitted, text);
    case NewPostRequest(submitted, form, date) =>
      AddNewPostKeepsValid(s, submitted, form, date);
    case EditPostRequest(postId, submission, form) =>
      EditPostKeepsValid(s, postId, submission, form);
    case DeletePostRequest(postId) =>
      DeletePostKeepsValid(s, postId);
    case DeleteCommentRequest(commentId) =>
      DeleteCommentKeepsValid(s, commentId);
  }

  lemma GrowsTransitive(r: State, s: State, t: State)
    requires Grows(r, s) && Grows(s, t)
    ensures Grows(r, t)
  {
  }

  /** Over a whole run the invariant holds and the users table only grows. */
  lemma {:induction false} RunGrows(s: State, h: Hasher, reqs: seq<Request>)
    requires Valid(s)
    ensures Run(s, h, reqs).Some? ==> Valid(Run(s, h, reqs).value) && Grows(s, Run(s, h, reqs).value)
    decreases |reqs|
  {
    if reqs != [] && Enabled(s, reqs[0]) {
      var next := Step(s, h, reqs[0]).0;
      StepGrows(s, h, reqs[0]);
      RunGrows(next, h, reqs[1..]);
      if Run(s, h, reqs).Some? {
        GrowsTransitive(s, next, Run(s, h, reqs).value);
      }
    }
  }

  /** Once an admin, always an admin: no sequence of requests demotes a user. */
  lemma AdminIsForever(s: State, h: Hasher, reqs: seq<Request>, id: nat)
    requires Valid(s) && id in s.db.users && s.db.users[id].role == AdminRole
    requires Run(s, h, reqs).Some?
    ensures id in Run(s, h, reqs).value.db.users
    ensures Run(s, h, reqs).value.db.users[id].role == AdminRole
  {
    RunGrows(s, h, reqs);
  }

  /** In a blog that started empty, every post was written by a user who is
      an admin, and every comment by an existing user. */
  lemma PostsAreByAdmins(h: Hasher, reqs: seq<Request>)
    requires Run(Empty(), h, reqs).Some?
    ensures var t := Run(Empty(), h, reqs).value;
            forall p :: p in t.db.posts ==>
              t.db.posts[p].authorId in t.db.users && t.db.users[t.db.posts[p].authorId].role == AdminRole
    ensures var t := Run(Empty(), h, reqs).value;
            forall c :: c in t.db.comments ==> t.db.comments[c].authorId in t.db.users
  {
    RunGrows(Empty(), h, reqs);
  }
}
