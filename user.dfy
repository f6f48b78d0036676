/** The user document the routes read and write. Its schema file is not
    part of this model; the fields below are the ones the routes touch, and
    the defaults of a new user are the ones the routes rely on. */
module UserModel {
  import opened Common
  import opened Seqs

  const CustomerRole := "customer"
  const AdminRole := "admin"

  datatype User = User(
    id: Id,
    name: string,
    email: string,
    password: string,
    phone: string,
    address: string,
    role: string,
    loyaltyPoints: int,
    favoriteItems: seq<Id>,
    lastLogin: Option<Timestamp>,
    isGoogleUser: bool,
    profilePicture: string)

  /** A new user document: a customer with no points, no favourites, no
      login yet and no picture. */
  function NewUser(id: Id, name: string, email: string, password: string, phone: string, address: string)
    : (u: User)
    ensures u.role == CustomerRole && u.loyaltyPoints == 0 && u.favoriteItems == []
    ensures u.lastLogin == None && !u.isGoogleUser && u.profilePicture == ""
    ensures u.id == id && u.name == name && u.email == email && u.password == password
    ensures u.phone == phone && u.address == address
  {
    User(id, name, email, password, phone, address, CustomerRole, 0, [], None, false, "")
  }

  /** No two users share an email. */
  predicate DistinctEmails(us: seq<User>) {
    forall i, j :: 0 <= i < j < |us| ==> us[i].email != us[j].email
  }

  function UserKey(u: User): int {
    u.id
  }

  /** The stored users: distinct emails, and ids strictly increasing in
      storage order and below the next id to be handed out. */
  predicate ValidUsers(us: seq<User>, bound: Id) {
    DistinctEmails(us) && Ascending(us, UserKey) && KeysBelow(us, UserKey, bound)
  }

  function UserIs(id: Id): User -> bool {
    (u: User) => u.id == id
  }

  function EmailIs(email: string): User -> bool {
    (u: User) => u.email == email
  }

  lemma ValidUserIdsDistinct(us: seq<User>, bound: Id, i: nat, j: nat)
    requires ValidUsers(us, bound)
    requires i < |us| && j < |us| && i != j
    ensures us[i].id != us[j].id
  {
    if i < j {
      assert UserKey(us[i]) < UserKey(us[j]);
    } else {
      assert UserKey(us[j]) < UserKey(us[i]);
    }
  }

  /** In a valid store the user found by id is the only one with that id. */
  lemma FoundUserIsUnique(us: seq<User>, bound: Id, k: nat)
    requires ValidUsers(us, bound) && k < |us|
    ensures Find(us, UserIs(us[k].id)) == Some(k)
  {
    forall j | 0 <= j < k ensures !UserIs(us[k].id)(us[j]) {
      ValidUserIdsDistinct(us, bound, j, k);
    }
  }

  /** Replacing a user by a document with the same id and an email nobody
      else holds keeps the store valid. */
  lemma ReplaceKeepsValid(us: seq<User>, bound: Id, k: nat, u: User)
    requires ValidUsers(us, bound) && k < |us|
    requires u.id == us[k].id
    requires forall j :: 0 <= j < |us| && j != k ==> us[j].email != u.email
    ensures ValidUsers(us[k := u], bound)
  {
    var vs := us[k := u];
    assert forall j :: 0 <= j < |us| ==> UserKey(vs[j]) == UserKey(us[j]);
  }

  /** Replacing a user by a document with the same id and email keeps the
      store valid. */
  lemma ReplaceSameEmailKeepsValid(us: seq<User>, bound: Id, k: nat, u: User)
    requires ValidUsers(us, bound) && k < |us|
    requires u.id == us[k].id && u.email == us[k].email
    ensures ValidUsers(us[k := u], bound)
  {
    forall j | 0 <= j < |us| && j != k ensures us[j].email != u.email {
      if j < k {
        assert us[j].email != us[k].email;
      } else {
        assert us[k].email != us[j].email;
      }
    }
    ReplaceKeepsValid(us, bound, k, u);
  }

  /** Appending a user with a fresh id and an unused email keeps the store
      valid. */
  lemma AppendKeepsValid(us: seq<User>, bound: Id, u: User)
    requires ValidUsers(us, bound)
    requires u.id == bound
    requires forall j :: 0 <= j < |us| ==> us[j].email != u.email
    ensures ValidUsers(us + [u], bound + 1)
  {
    assert forall j :: 0 <= j < |us| ==> UserKey(us[j]) < bound;
  }
}
