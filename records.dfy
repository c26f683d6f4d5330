/** The three tables of the blog (users, blog_posts, comments), the browser's
    login identity, and the password-hashing pair the application calls. */
module Records {

  datatype Option<T> = None | Some(value: T)

  /** Values of the users.role column; new rows get UserRole by default. */
  const UserRole: string := "user"
  const AdminRole: string := "admin"

  /** The fixed code that promotes a user to AdminRole when submitted at login. */
  const AdminCode: string := "siisi321"

  /** A row of the users table (the id is the key of the map holding it).
      `password` holds the value the hasher's `hash` returned. */
  datatype User = User(email: string, password: string, name: string, role: string)

  /** A row of the blog_posts table; `date` is an opaque display string. */
  datatype BlogPost = BlogPost(
    authorId: nat,
    title: string,
    subtitle: string,
    date: string,
    body: string,
    imgUrl: string)

  /** A row of the comments table; `postId` is None once the post is gone. */
  datatype Comment = Comment(authorId: nat, postId: Option<nat>, text: string)

  /** Who the browser session is logged in as. */
  datatype Identity = Anonymous | Authenticated(userId: nat)

  /** The password hashing pair: `hash(password, salt)` produces the stored
      value, `check(stored, password)` compares a submitted password with it.
      The salt is drawn at random by the hashing library, so it is an input. */
  datatype Hasher = Hasher(hash: (string, string) -> string, check: (string, string) -> bool)

  /** A hasher accepts the password a hash was made from. */
  ghost predicate Sound(h: Hasher)
  {
    forall password, salt :: h.check(h.hash(password, salt), password)
  }

  /** An idealised hasher that accepts exactly that password and no other. */
  ghost predicate Exact(h: Hasher)
  {
    forall password, salt, attempt :: h.check(h.hash(password, salt), attempt) <==> attempt == password
  }
}
