/** Properties that relate several requests: registering then logging in,
    repeating a registration, repeating a promotion, and reading back an
    edited post. */
module Properties {
  import opened Records
  import opened Access
  import opened Handlers

  /** After registering with a fresh email, logging in with the same email and
      password succeeds (for a hasher that accepts what it hashed) and logs the
      browser in as the new user. */
  lemma RegisterThenLogin(s: State, h: Hasher, email: string, name: string,
                            password: string, salt: string, code: string)
    requires Valid(s) && Sound(h)
    requires !EmailTaken(s.db.users, email)
    ensures var t := Register(s, h, true, email, name, password, salt).0;
            Login(t, h, true, email, password, code).1 == RedirectToHome
            && Login(t, h, true, email, password, code).0.session == Authenticated(s.db.nextUserId)
  {
  }

  /** With an exact hasher, any other password is rejected after registering,
      and nothing changes. */
  lemma RegisterThenWrongPassword(s: State, h: Hasher, email: string, name: string,
                                    password: string, salt: string, attempt: string, code: string)
    requires Valid(s) && Exact(h)
    requires !EmailTaken(s.db.users, email) && attempt != password
    ensures var t := Register(s, h, true, email, name, password, salt).0;
            Login(t, h, true, email, attempt, code) == (t, RedirectToLogin(WrongPassword))
  {
  }

  /** Registering the same email twice adds no second user: the second request
      changes nothing and redirects to login. */
  lemma RegisterTwice(s: State, h: Hasher, email: string, name: string, password: string,
                        salt: string, name2: string, password2: string, salt2: string)
    requires !EmailTaken(s.db.users, email)
    ensures var t := Register(s, h, true, email, name, password, salt).0;
            Register(t, h, true, email, name2, password2, salt2) == (t, RedirectToLogin(AlreadySignedUp))
  {
  }

  /** A successful login with the promotion code gives the user admin access. */
  lemma LoginWithCodeGrantsAdmin(s: State, h: Hasher, email: string, password: string)
    ensures var out := Login(s, h, true, email, password, AdminCode);
            out.1 == RedirectToHome ==> AdminOnly(out.0.db.users, out.0.session)
  {
  }

  /** Promotion is idempotent: repeating a successful login with the same
      inputs leaves the state as the first login left it. */
  lemma LoginIdempotent(s: State, h: Hasher, email: string, password: string, code: string)
    requires Valid(s)
    requires Login(s, h, true, email, password, code).1 == RedirectToHome
    ensures var t := Login(s, h, true, email, password, code).0;
            Login(t, h, true, email, password, code) == (t, RedirectToHome)
  {
  }

  /** Logging out twice is the same as logging out once. */
  lemma LogoutIdempotent(s: State)
    ensures Logout(Logout(s).0) == Logout(s)
  {
  }

  /** A post an admin has just created opens in the edit form with the fields
      it was created with. */
  lemma NewPostOpensInEditForm(s: State, form: PostForm, date: string)
    requires AdminOnly(s.db.users, s.session)
    requires !TitleTaken(s.db.posts, form.title, None)
    ensures var t := AddNewPost(s, true, form, date).0;
            EditPost(t, s.db.nextPostId, Show, form) == (t, RenderEditPost(form))
  {
  }

  /** After an edit, the edit form shows the submitted fields. */
  lemma EditThenReopen(s: State, postId: nat, form: PostForm, other: PostForm)
    requires AdminOnly(s.db.users, s.session) && postId in s.db.posts
    requires !TitleTaken(s.db.posts, form.title, Some(postId))
    ensures var t := EditPost(s, postId, Accepted, form).0;
            EditPost(t, postId, Show, other) == (t, RenderEditPost(form))
  {
  }
}
