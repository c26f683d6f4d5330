/** The blog as the running application holds it: the three tables and the
    browser session as mutable state, and one method per route handler that
    updates them in place. Each method is proved to do what the matching
    function of module Handlers describes, and to keep the state invariant. */
module Store {
  import opened Records
  import opened Access
  import opened Handlers
  import opened Invariants

  /** `User.query.filter_by(email=email).first()`: scans the users table and
      returns some user with the email, or None when no user has it. */
  method FindUserByEmail(users: map<nat, User>, email: string) returns (found: Option<nat>)
    ensures found.Some? ==> found.value in users && users[found.value].email == email
    ensures found.None? ==> forall id :: id in users ==> users[id].email != email
  {
    var unseen := users.Keys;
    while unseen != {}
      invariant unseen <= users.Keys
      invariant forall id :: id in users && id !in unseen ==> users[id].email != email
      decreases unseen
    {
      var id :| id in unseen;
      if users[id].email == email {
        return Some(id);
      }
      unseen := unseen - {id};
    }
    found := None;
  }

  class BlogStore {
    /** The password hashing pair the application calls. */
    const hasher: Hasher

    var users: map<nat, User>
    var posts: map<nat, BlogPost>
    var comments: map<nat, Comment>
    var nextUserId: nat
    var nextPostId: nat
    var nextCommentId: nat
    var session: Identity

    ghost function Model(): State
      reads this
    {
      State(Db(users, posts, comments, nextUserId, nextPostId, nextCommentId), session)
    }

    ghost predicate Valid()
      reads this
    {
      Handlers.Valid(Model())
    }

    /** Empty tables and an anonymous browser. */
    constructor (h: Hasher)
      ensures Valid() && hasher == h
      ensures Model() == Empty()
    {
      hasher := h;
      users, posts, comments := map[], map[], map[];
      nextUserId, nextPostId, nextCommentId := 1, 1, 1;
      session := Anonymous;
    }

    method Register(submitted: bool, email: string, name: string, password: string, salt: string)
      returns (r: Response)
      requires Valid()
      modifies this
      ensures Valid()
      ensures (Model(), r) == Handlers.Register(old(Model()), hasher, submitted, email, name, password, salt)
    {
      if !submitted {
        return RenderRegister;
      }
      var existing := FindUserByEmail(users, email);
      if existing.Some? {
        return RedirectToLogin(AlreadySignedUp);
      }
      RegisterKeepsValid(Model(), hasher, submitted, email, name, password, salt);
      var id := nextUserId;
      users := users[id := User(email, hasher.hash(password, salt), name, UserRole)];
      nextUserId := id + 1;
      session := Authenticated(id);
      r := RedirectToHome;
    }

    method Login(submitted: bool, email: string, password: string, code: string) returns (r: Response)
      requires Valid()
      modifies this
      ensures Valid()
      ensures (Model(), r) == Handlers.Login(old(Model()), hasher, submitted, email, password, code)
    {
      if !submitted {
        return RenderLogin;
      }
      var found := FindUserByEmail(users, email);
      if found.None? {
        return RedirectToLogin(UnknownEmail);
      }
      var id := found.value;
      LookupUnique(users, email, id);
      LoginKeepsValid(Model(), hasher, submitted, email, password, code);
      var user := users[id];
      if !hasher.check(user.password, password) {
        return RedirectToLogin(WrongPassword);
      }
      if Promotes(user.role, code) {
        users := users[id := user.(role := AdminRole)];
      }
      session := Authenticated(id);
      r := RedirectToHome;
    }

    method Logout() returns (r: Response)
      requires Valid()
      modifies this
      ensures Valid()
      ensures (Model(), r) == Handlers.Logout(old(Model()))
    {
      session := Anonymous;
      r := RedirectToHome;
    }

    method ShowPost(postId: nat, submitted: bool, text: string) returns (r: Response)
      requires Valid() && postId in posts
      modifies this
      ensures Valid()
      ensures (Model(), r) == Handlers.ShowPost(old(Model()), postId, submitted, text)
    {
      if submitted {
        if !IsAuthenticated(users, session) {
          return RedirectToLogin(LoginToComment);
        }
        comments := comments[nextCommentId := Comment(session.userId, Some(postId), text)];
        nextCommentId := nextCommentId + 1;
      }
      r := RenderPost(postId);
    }

    method AddNewPost(submitted: bool, form: PostForm, date: string) returns (r: Response)
      requires Valid()
      modifies this
      ensures Valid()
      ensures (Model(), r) == Handlers.AddNewPost(old(Model()), submitted, form, date)
    {
      if !AdminOnly(users, session) {
        return Forbidden;
      }
      if !submitted {
        return RenderNewPost;
      }
      if TitleTaken(posts, form.title, None) {
        return CommitFailed;
      }
      AddNewPostKeepsValid(Model(), submitted, form, date);
      posts := posts[nextPostId := BlogPost(session.userId, form.title, form.subtitle, date, form.body, form.imgUrl)];
      nextPostId := nextPostId + 1;
      r := RedirectToHome;
    }

    method EditPost(postId: nat, submission: Submission, form: PostForm) returns (r: Response)
      requires Valid() && (AdminOnly(users, session) ==> postId in posts)
      modifies this
      ensures Valid()
      ensures (Model(), r) == Handlers.EditPost(old(Model()), postId, submission, form)
    {
      if !AdminOnly(users, session) {
        return Forbidden;
      }
      var post := posts[postId];
      if submission == Show {
        return RenderEditPost(PostForm(post.title, post.subtitle, post.imgUrl, post.body));
      }
      if submission == Rejected {
        return RenderEditPost(form);
      }
      if TitleTaken(posts, form.title, Some(postId)) {
        return CommitFailed;
      }
      EditPostKeepsValid(Model(), postId, submission, form);
      posts := posts[postId := post.(title := form.title, subtitle := form.subtitle,
                                     imgUrl := form.imgUrl, body := form.body)];
      r := RedirectToPost(postId);
    }

    method DeletePost(postId: nat) returns (r: Response)
      requires Valid() && (AdminOnly(users, session) ==> postId in posts)
      modifies this
      ensures Valid()
      ensures (Model(), r) == Handlers.DeletePost(old(Model()), postId)
    {
      if !AdminOnly(users, session) {
        return Forbidden;
      }
      ghost var expected := Handlers.DeletePost(Model(), postId).0;
      DeletePostKeepsValid(Model(), postId);
      posts, comments := posts - {postId}, DetachComments(comments, postId);
      r := RedirectToHome;
      assert Model() == expected;
    }

    method DeleteComment(commentId: nat) returns (r: Response)
      requires Valid() && (AdminOnly(users, session) ==> commentId in comments)
      modifies this
      ensures Valid()
      ensures (Model(), r) == Handlers.DeleteComment(old(Model()), commentId)
    {
      if !AdminOnly(users, session) {
        return Forbidden;
      }
      comments := comments - {commentId};
      r := RedirectToHome;
    }
  }
}
