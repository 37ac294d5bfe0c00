/** Users and the user table the services read (UserDAO / UserRepository). */
module Users {
  import opened Wrappers

  datatype Role = UserRole | ManagerRole | AdminRole

  /** A stored user. `passwordHash` is what the password encoder produced; the raw password is never kept. */
  datatype User = User(id: int, username: string, email: string, passwordHash: string, role: Role)

  /** `findByEmail`: the first stored user with that email. */
  function FindByEmail(users: seq<User>, email: string): (r: Option<User>)
    ensures r.Some? <==> exists i :: 0 <= i < |users| && users[i].email == email
    ensures r.Some? ==> r.value in users && r.value.email == email
  {
    if |users| == 0 then None
    else if users[0].email == email then Some(users[0])
    else
      var rest := FindByEmail(users[1..], email);
      assert forall i :: 1 <= i < |users| ==> users[i] == users[1..][i - 1];
      rest
  }

  /** `findById`: the stored user with that id. */
  function FindById(users: seq<User>, id: int): (r: Option<User>)
    ensures r.Some? <==> exists i :: 0 <= i < |users| && users[i].id == id
    ensures r.Some? ==> r.value in users && r.value.id == id
  {
    if |users| == 0 then None
    else if users[0].id == id then Some(users[0])
    else
      var rest := FindById(users[1..], id);
      assert forall i :: 1 <= i < |users| ==> users[i] == users[1..][i - 1];
      rest
  }

  predicate ExistsByEmail(users: seq<User>, email: string) {
    exists u :: u in users && u.email == email
  }

  predicate ExistsByUsername(users: seq<User>, username: string) {
    exists u :: u in users && u.username == username
  }

  predicate ExistsById(users: seq<User>, id: int) {
    exists u :: u in users && u.id == id
  }

  /** No two stored users share an email. */
  ghost predicate UniqueEmails(users: seq<User>) {
    forall i, j :: 0 <= i < j < |users| ==> users[i].email != users[j].email
  }

  /** No two stored users share a username. */
  ghost predicate UniqueUsernames(users: seq<User>) {
    forall i, j :: 0 <= i < j < |users| ==> users[i].username != users[j].username
  }

  /** With unique emails, looking a stored user up by its email finds that very user. */
  lemma FindByEmailOfStored(users: seq<User>, u: User)
    requires UniqueEmails(users) && u in users
    ensures FindByEmail(users, u.email) == Some(u)
  {
  }

  /** Appending a user whose email is new: lookups of that email find it, other lookups are unchanged. */
  lemma {:induction false} FindByEmailAppend(users: seq<User>, u: User, email: string)
    requires !ExistsByEmail(users, u.email)
    ensures FindByEmail(users + [u], email) == if email == u.email then Some(u) else FindByEmail(users, email)
  {
    if |users| == 0 {
      assert users + [u] == [u];
    } else {
      assert (users + [u])[1..] == users[1..] + [u];
      assert users[0] in users;
      assert !ExistsByEmail(users[1..], u.email) by {
        forall v | v in users[1..] ensures v.email != u.email {
          assert v in users;
        }
      }
      FindByEmailAppend(users[1..], u, email);
    }
  }

  /** The user table: ids are handed out in insertion order, starting at 1 (identity generation). */
  class UserRepository {
    var users: seq<User>

    ghost predicate Valid()
      reads this
    {
      forall i :: 0 <= i < |users| ==> users[i].id == i + 1
    }

    constructor ()
      ensures Valid() && users == []
    {
      users := [];
    }

    /** `save` of a new user: the user receives the next identity and is appended. */
    method Save(u: User) returns (saved: User)
      requires Valid()
      modifies this
      ensures Valid()
      ensures saved == u.(id := |old(users)| + 1)
      ensures users == old(users) + [saved]
    {
      saved := u.(id := |users| + 1);
      users := users + [saved];
    }
  }
}
