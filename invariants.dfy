/** Every handler keeps the state invariant: ids below their counters, unique
    emails and titles, known roles, posts written by admins, comments and the
    session pointing at existing users. */
module Invariants {
  import opened Records
  import opened Access
  import opened Handlers

  lemma RegisterKeepsValid(s: State, h: Hasher, submitted: bool, email: string, name: string,
                           password: string, salt: string)
    requires Valid(s)
    ensures Valid(Register(s, h, submitted, email, name, password, salt).0)
  {
  }

  lemma LoginKeepsValid(s: State, h: Hasher, submitted: bool, email: string, password: string, code: string)
    requires Valid(s)
    ensures Valid(Login(s, h, submitted, email, password, code).0)
    ensures var t := Login(s, h, submitted, email, password, code).0;
            forall id :: id in s.db.users ==>
              id in t.db.users && (t.db.users[id].role == s.db.users[id].role || t.db.users[id].role == AdminRole)
  {
  }

  lemma LogoutKeepsValid(s: State)
    requires Valid(s)
    ensures Valid(Logout(s).0)
  {
  }

  lemma ShowPostKeepsValid(s: State, postId: nat, submitted: bool, text: string)
    requires Valid(s) && postId in s.db.posts
    ensures Valid(ShowPost(s, postId, submitted, text).0)
  {
  }

  lemma AddNewPostKeepsValid(s: State, submitted: bool, form: PostForm, date: string)
    requires Valid(s)
    ensures Valid(AddNewPost(s, submitted, form, date).0)
  {
  }

  lemma EditPostKeepsValid(s: State, postId: nat, submission: Submission, form: PostForm)
    requires Valid(s) && (AdminOnly(s.db.users, s.session) ==> postId in s.db.posts)
    ensures Valid(EditPost(s, postId, submission, form).0)
  {
  }

  lemma DeletePostKeepsValid(s: State, postId: nat)
    requires Valid(s) && (AdminOnly(s.db.users, s.session) ==> postId in s.db.posts)
    ensures Valid(DeletePost(s, postId).0)
  {
  }

  lemma DeleteCommentKeepsValid(s: State, commentId: nat)
    requires Valid(s) && (AdminOnly(s.db.users, s.session) ==> commentId in s.db.comments)
    ensures Valid(DeleteComment(s, commentId).0)
  {
  }
}
