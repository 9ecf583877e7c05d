/** Users and the follow relation between them (backend/users/models.py). */
module UserModels {
  import opened Common

  type UserId = nat

  /** A GramUser row; the avatar image is not part of this model. */
  datatype User = User(id: UserId, username: string, email: string, firstName: string, lastName: string)

  /** A Follow row: `user` subscribes to `author`. */
  datatype Follow = Follow(user: UserId, author: UserId)

  /** The users table: keyed by id, usernames unique, emails unique. */
  ghost predicate UsersOk(users: map<UserId, User>) {
    && (forall id :: id in users ==> users[id].id == id)
    && (forall a, b :: a in users && b in users && users[a].username == users[b].username ==> a == b)
    && (forall a, b :: a in users && b in users && users[a].email == users[b].email ==> a == b)
  }

  /** `Follow.clean`: nobody subscribes to themselves. */
  function Clean(f: Follow): (r: Result<(), Problem>)
    ensures r.Ok? <==> f.user != f.author
    ensures r.Err? ==> r.error == SelfSubscription
  {
    if f.user == f.author then Err(SelfSubscription) else Ok(())
  }

  /** The follow table: both ends are users, the pair (user, author) is
      unique, and every row passed `clean`. */
  ghost predicate FollowsOk(follows: seq<Follow>, users: map<UserId, User>) {
    && Distinct(follows)
    && (forall f :: f in follows ==> f.user in users && f.author in users && Clean(f).Ok?)
  }

  /** The account a login by e-mail address resolves to: email is the login key. */
  ghost function LoginUser(users: map<UserId, User>, email: string): (r: Option<UserId>)
    ensures r.Some? ==> r.value in users && users[r.value].email == email
    ensures r.None? ==> forall id :: id in users ==> users[id].email != email
  {
    if exists id :: id in users && users[id].email == email then
      var id :| id in users && users[id].email == email; Some(id)
    else None
  }

  /** Because emails are unique, a user's own address always logs in as that user. */
  lemma LoginIsUnique(users: map<UserId, User>, u: UserId)
    requires UsersOk(users) && u in users
    ensures LoginUser(users, users[u].email) == Some(u)
  {
    var r := LoginUser(users, users[u].email);
    assert r.Some?;
    assert users[r.value].email == users[u].email;
  }
}
