/** The route handlers of the blog as functions from the state before a
    request to the state after it and the response. The database is a map per
    table plus an id counter per table; the session is the browser's login
    identity. */
module Handlers {
  import opened Records
  import opened Access

  /** The three tables; each `next…Id` is the id the next inserted row gets. */
  datatype Db = Db(
    users: map<nat, User>,
    posts: map<nat, BlogPost>,
    comments: map<nat, Comment>,
    nextUserId: nat,
    nextPostId: nat,
    nextCommentId: nat)

  datatype State = State(db: Db, session: Identity)

  /** The flashed message that accompanies a redirect back to the login page. */
  datatype Notice = AlreadySignedUp | UnknownEmail | WrongPassword | LoginToComment

  /** The fields of the post form (title, subtitle, image URL, body). */
  datatype PostForm = PostForm(title: string, subtitle: string, imgUrl: string, body: string)

  /** How a request reaches the edit form. A GET (`Show`) fills the form from
      the stored post. A POST binds the submitted fields over those defaults:
      if `validate_on_submit` fails (`Rejected`) they are shown again as
      submitted, and if it passes (`Accepted`) they are written to the post. */
  datatype Submission = Show | Rejected | Accepted

  /** What a handler sends back. `CommitFailed` is the uncaught integrity
      error of a commit whose row breaks a unique column (a server error). */
  datatype Response =
    | Forbidden
    | RedirectToLogin(notice: Notice)
    | RedirectToHome
    | RedirectToPost(postId: nat)
    | RenderRegister
    | RenderLogin
    | RenderPost(postId: nat)
    | RenderNewPost
    | RenderEditPost(form: PostForm)
    | CommitFailed

  /** An empty database and an anonymous browser. */
  function Empty(): State
  {
    State(Db(map[], map[], map[], 1, 1, 1), Anonymous)
  }

  // ---------------------------------------------------------------------
  // Invariant of the state

  ghost predicate IdsAllocated(db: Db)
  {
    && (forall id :: id in db.users ==> id < db.nextUserId)
    && (forall id :: id in db.posts ==> id < db.nextPostId)
    && (forall id :: id in db.comments ==> id < db.nextCommentId)
  }

  /** users.email is a unique column. */
  ghost predicate EmailsUnique(users: map<nat, User>)
  {
    forall a, b :: a in users && b in users && users[a].email == users[b].email ==> a == b
  }

  /** blog_posts.title is a unique column. */
  ghost predicate TitlesUnique(posts: map<nat, BlogPost>)
  {
    forall a, b :: a in posts && b in posts && posts[a].title == posts[b].title ==> a == b
  }

  ghost predicate RolesKnown(users: map<nat, User>)
  {
    forall id :: id in users ==> users[id].role == UserRole || users[id].role == AdminRole
  }

  /** Every post was written by a user who is (still) an admin. */
  ghost predicate PostAuthorsAreAdmins(db: Db)
  {
    forall p :: p in db.posts ==> db.posts[p].authorId in db.users && db.users[db.posts[p].authorId].role == AdminRole
  }

  ghost predicate CommentAuthorsExist(db: Db)
  {
    forall c :: c in db.comments ==> db.comments[c].authorId in db.users
  }

  /** A comment's post_id is NULL or names an existing post. */
  ghost predicate CommentPostsExist(db: Db)
  {
    forall c :: c in db.comments && db.comments[c].postId.Some? ==> db.comments[c].postId.value in db.posts
  }

  /** The state invariant: fresh ids, the unique columns users.email
      and blog_posts.title, the two roles, posts by admins, and foreign keys
      (post and comment authors, comment posts, the session) that resolve. */
  ghost predicate Valid(s: State): (valid: bool)
    ensures valid ==> s.db.nextUserId !in s.db.users && s.db.nextPostId !in s.db.posts
                      && s.db.nextCommentId !in s.db.comments
    ensures valid ==> forall p :: p in s.db.posts ==> s.db.posts[p].authorId in s.db.users
    ensures valid ==> forall c :: c in s.db.comments ==> s.db.comments[c].authorId in s.db.users
  {
    && IdsAllocated(s.db)
    && EmailsUnique(s.db.users)
    && TitlesUnique(s.db.posts)
    && RolesKnown(s.db.users)
    && PostAuthorsAreAdmins(s.db)
    && CommentAuthorsExist(s.db)
    && CommentPostsExist(s.db)
    && (s.session.Authenticated? ==> s.session.userId in s.db.users)
  }

  // ---------------------------------------------------------------------
  // Queries

  /** Some user already has the email. */
  ghost predicate EmailTaken(users: map<nat, User>, email: string): (taken: bool)
    ensures !taken <==> forall id :: id in users ==> users[id].email != email
  {
    exists id :: id in users && users[id].email == email
  }

  /** `User.query.filter_by(email=email).first()`: some user with that email. */
  ghost function LookupEmail(users: map<nat, User>, email: string): (found: Option<nat>)
    ensures found.Some? ==> found.value in users && users[found.value].email == email
    ensures found.None? <==> !EmailTaken(users, email)
  {
    if EmailTaken(users, email) then
      var id :| id in users && users[id].email == email; Some(id)
    else
      None
  }

  /** With unique emails the lookup finds the one user that has the email. */
  lemma LookupUnique(users: map<nat, User>, email: string, id: nat)
    requires EmailsUnique(users)
    requires id in users && users[id].email == email
    ensures LookupEmail(users, email) == Some(id)
  {
  }

  /** A post other than `except` already has the title. */
  predicate TitleTaken(posts: map<nat, BlogPost>, title: string, except: Option<nat>): (taken: bool)
    ensures !taken <==> forall id :: id in posts && Some(id) != except ==> posts[id].title != title
  {
    exists id :: id in posts && posts[id].title == title && Some(id) != except
  }

  // ---------------------------------------------------------------------
  // Handlers

  /** `register`: on submission, an email already on file redirects to login;
      otherwise one user is inserted with the hashed password and role "user",
      and the browser is logged in as that user. */
  ghost function Register(s: State, h: Hasher, submitted: bool, email: string, name: string,
                          password: string, salt: string): (out: (State, Response))
    ensures !submitted ==> out == (s, RenderRegister)
    ensures submitted && EmailTaken(s.db.users, email) ==> out == (s, RedirectToLogin(AlreadySignedUp))
    ensures submitted && !EmailTaken(s.db.users, email) ==>
      var id := s.db.nextUserId;
      && out.1 == RedirectToHome
      && out.0.session == Authenticated(id)
      && out.0.db.users.Keys == s.db.users.Keys + {id}
      && out.0.db.users[id] == User(email, h.hash(password, salt), name, UserRole)
      && (forall k :: k in s.db.users && k != id ==> out.0.db.users[k] == s.db.users[k])
      && out.0.db.nextUserId > id
      && out.0.db.(users := s.db.users, nextUserId := s.db.nextUserId) == s.db
  {
    if !submitted then (s, RenderRegister)
    else if EmailTaken(s.db.users, email) then (s, RedirectToLogin(AlreadySignedUp))
    else
      var id := s.db.nextUserId;
      var user := User(email, h.hash(password, salt), name, UserRole);
      (State(s.db.(users := s.db.users[id := user], nextUserId := id + 1), Authenticated(id)), RedirectToHome)
  }

  /** `login`: an unknown email or a password the hasher rejects redirects back
      to login with nothing changed; a correct password logs the user in, and
      the promotion code makes that user an admin. */
  ghost function Login(s: State, h: Hasher, submitted: bool, email: string, password: string,
                       code: string): (out: (State, Response))
    ensures !submitted ==> out == (s, RenderLogin)
    ensures submitted && !EmailTaken(s.db.users, email) ==> out == (s, RedirectToLogin(UnknownEmail))
    ensures submitted && EmailTaken(s.db.users, email) ==>
      var id := LookupEmail(s.db.users, email).value;
      && (!h.check(s.db.users[id].password, password) ==> out == (s, RedirectToLogin(WrongPassword)))
      && (h.check(s.db.users[id].password, password) ==>
            && out.1 == RedirectToHome
            && out.0.session == Authenticated(id)
            && out.0.db.users.Keys == s.db.users.Keys
            && out.0.db.users[id].role == (if code == AdminCode then AdminRole else s.db.users[id].role)
            && out.0.db.users[id] == s.db.users[id].(role := out.0.db.users[id].role)
            && (forall k :: k in s.db.users && k != id ==> out.0.db.users[k] == s.db.users[k])
            && out.0.db.(users := s.db.users) == s.db)
  {
    if !submitted then (s, RenderLogin)
    else match LookupEmail(s.db.users, email)
      case None => (s, RedirectToLogin(UnknownEmail))
      case Some(id) =>
        var user := s.db.users[id];
        if !h.check(user.password, password) then (s, RedirectToLogin(WrongPassword))
        else
          var users := if Promotes(user.role, code) then s.db.users[id := user.(role := AdminRole)] else s.db.users;
          (State(s.db.(users := users), Authenticated(id)), RedirectToHome)
  }

  /** `logout`: the browser becomes anonymous whatever it was; the database is
      untouched. */
  function Logout(s: State): (out: (State, Response))
    ensures out.0.session == Anonymous
    ensures out.0.db == s.db
    ensures out.1 == RedirectToHome
  {
    (State(s.db, Anonymous), RedirectToHome)
  }

  /** `show_post`: a submitted comment from an anonymous browser redirects to
      login; from a logged-in user it adds one comment by that user on the
      post; the post page is then shown. */
  ghost function ShowPost(s: State, postId: nat, submitted: bool, text: string): (out: (State, Response))
    requires postId in s.db.posts
    ensures !submitted ==> out == (s, RenderPost(postId))
    ensures submitted && !IsAuthenticated(s.db.users, s.session) ==> out == (s, RedirectToLogin(LoginToComment))
    ensures submitted && IsAuthenticated(s.db.users, s.session) ==>
      var id := s.db.nextCommentId;
      && out.1 == RenderPost(postId)
      && out.0.session == s.session
      && out.0.db.comments.Keys == s.db.comments.Keys + {id}
      && out.0.db.comments[id] == Comment(s.session.userId, Some(postId), text)
      && (forall k :: k in s.db.comments && k != id ==> out.0.db.comments[k] == s.db.comments[k])
      && out.0.db.nextCommentId > id
      && out.0.db.(comments := s.db.comments, nextCommentId := s.db.nextCommentId) == s.db
  {
    if !submitted then (s, RenderPost(postId))
    else if !IsAuthenticated(s.db.users, s.session) then (s, RedirectToLogin(LoginToComment))
    else
      var id := s.db.nextCommentId;
      var comment := Comment(s.session.userId, Some(postId), text);
      (s.(db := s.db.(comments := s.db.comments[id := comment], nextCommentId := id + 1)), RenderPost(postId))
  }

  /** `add_new_post` behind `admin_only`: a submitted form inserts one post
      written by the current admin, dated `date`; a title already in use
      fails the commit. */
  ghost function AddNewPost(s: State, submitted: bool, form: PostForm, date: string): (out: (State, Response))
    ensures !AdminOnly(s.db.users, s.session) ==> out == (s, Forbidden)
    ensures AdminOnly(s.db.users, s.session) && !submitted ==> out == (s, RenderNewPost)
    ensures AdminOnly(s.db.users, s.session) && submitted && TitleTaken(s.db.posts, form.title, None) ==>
      out == (s, CommitFailed)
    ensures AdminOnly(s.db.users, s.session) && submitted && !TitleTaken(s.db.posts, form.title, None) ==>
      var id := s.db.nextPostId;
      && out.1 == RedirectToHome
      && out.0.session == s.session
      && out.0.db.posts.Keys == s.db.posts.Keys + {id}
      && out.0.db.posts[id] == BlogPost(s.session.userId, form.title, form.subtitle, date, form.body, form.imgUrl)
      && (forall k :: k in s.db.posts && k != id ==> out.0.db.posts[k] == s.db.posts[k])
      && out.0.db.nextPostId > id
      && out.0.db.(posts := s.db.posts, nextPostId := s.db.nextPostId) == s.db
  {
    if !AdminOnly(s.db.users, s.session) then (s, Forbidden)
    else if !submitted then (s, RenderNewPost)
    else if TitleTaken(s.db.posts, form.title, None) then (s, CommitFailed)
    else
      var id := s.db.nextPostId;
      var post := BlogPost(s.session.userId, form.title, form.subtitle, date, form.body, form.imgUrl);
      (s.(db := s.db.(posts := s.db.posts[id := post], nextPostId := id + 1)), RedirectToHome)
  }

  /** `edit_post` behind `admin_only`: shows the form filled from the post,
      shows a rejected submission again as it was submitted, or replaces the
      post's title, subtitle, image URL and body with the submitted ones,
      keeping its author and date. */
  ghost function EditPost(s: State, postId: nat, submission: Submission, form: PostForm): (out: (State, Response))
    requires AdminOnly(s.db.users, s.session) ==> postId in s.db.posts
    ensures !AdminOnly(s.db.users, s.session) ==> out == (s, Forbidden)
    ensures AdminOnly(s.db.users, s.session) && submission == Show ==>
      var post := s.db.posts[postId];
      out == (s, RenderEditPost(PostForm(post.title, post.subtitle, post.imgUrl, post.body)))
    ensures AdminOnly(s.db.users, s.session) && submission == Rejected ==> out == (s, RenderEditPost(form))
    ensures AdminOnly(s.db.users, s.session) && submission == Accepted && TitleTaken(s.db.posts, form.title, Some(postId)) ==>
      out == (s, CommitFailed)
    ensures AdminOnly(s.db.users, s.session) && submission == Accepted && !TitleTaken(s.db.posts, form.title, Some(postId)) ==>
      && out.1 == RedirectToPost(postId)
      && out.0.session == s.session
      && out.0.db.posts.Keys == s.db.posts.Keys
      && var old_ := s.db.posts[postId];
      var new_ := out.0.db.posts[postId];
      && new_.title == form.title && new_.subtitle == form.subtitle
      && new_.imgUrl == form.imgUrl && new_.body == form.body
      && new_.authorId == old_.authorId && new_.date == old_.date
      && (forall k :: k in s.db.posts && k != postId ==> out.0.db.posts[k] == s.db.posts[k])
      && out.0.db.(posts := s.db.posts) == s.db
  {
    if !AdminOnly(s.db.users, s.session) then (s, Forbidden)
    else
      var post := s.db.posts[postId];
      match submission
      case Show => (s, RenderEditPost(PostForm(post.title, post.subtitle, post.imgUrl, post.body)))
      case Rejected => (s, RenderEditPost(form))
      case Accepted =>
        if TitleTaken(s.db.posts, form.title, Some(postId)) then (s, CommitFailed)
        else
          var edited := post.(title := form.title, subtitle := form.subtitle, imgUrl := form.imgUrl, body := form.body);
          (s.(db := s.db.(posts := s.db.posts[postId := edited])), RedirectToPost(postId))
  }

  /** The comments after their post `postId` is deleted: the `comments`
      relationship has no delete cascade, so the ORM keeps them and sets their
      post_id to NULL. */
  function DetachComments(comments: map<nat, Comment>, postId: nat): map<nat, Comment>
  {
    map c | c in comments :: if comments[c].postId == Some(postId) then comments[c].(postId := None) else comments[c]
  }

  /** `delete_post` behind `admin_only`: removes the post row; its comments
      stay, with no post; no other row changes. */
  ghost function DeletePost(s: State, postId: nat): (out: (State, Response))
    requires AdminOnly(s.db.users, s.session) ==> postId in s.db.posts
    ensures !AdminOnly(s.db.users, s.session) ==> out == (s, Forbidden)
    ensures AdminOnly(s.db.users, s.session) ==>
      && out.1 == RedirectToHome
      && out.0.session == s.session
      && out.0.db.posts.Keys == s.db.posts.Keys - {postId}
      && (forall k :: k in out.0.db.posts ==> out.0.db.posts[k] == s.db.posts[k])
      && out.0.db.comments.Keys == s.db.comments.Keys
      && (forall c :: c in s.db.comments && s.db.comments[c].postId == Some(postId) ==>
            out.0.db.comments[c] == s.db.comments[c].(postId := None))
      && (forall c :: c in s.db.comments && s.db.comments[c].postId != Some(postId) ==>
            out.0.db.comments[c] == s.db.comments[c])
      && out.0.db.(posts := s.db.posts, comments := s.db.comments) == s.db
  {
    if !AdminOnly(s.db.users, s.session) then (s, Forbidden)
    else
      var db := s.db.(posts := s.db.posts - {postId}, comments := DetachComments(s.db.comments, postId));
      (s.(db := db), RedirectToHome)
  }

  /** `comment_to_delete` behind `admin_only`: removes one comment row. */
  ghost function DeleteComment(s: State, commentId: nat): (out: (State, Response))
    requires AdminOnly(s.db.users, s.session) ==> commentId in s.db.comments
    ensures !AdminOnly(s.db.users, s.session) ==> out == (s, Forbidden)
    ensures AdminOnly(s.db.users, s.session) ==>
      && out.1 == RedirectToHome
      && out.0.session == s.session
      && out.0.db.comments.Keys == s.db.comments.Keys - {commentId}
      && (forall k :: k in out.0.db.comments ==> out.0.db.comments[k] == s.db.comments[k])
      && out.0.db.(comments := s.db.comments) == s.db
  {
    if !AdminOnly(s.db.users, s.session) then (s, Forbidden)
    else (s.(db := s.db.(comments := s.db.comments - {commentId})), RedirectToHome)
  }
}
