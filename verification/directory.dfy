/** The user directory kept by App.tsx: first-boot seeding, provisioning and revocation. */
module Directory {
  import opened Wrappers
  import opened Types
  import opened Text
  import Seqs

  /** The protected bootstrap account. */
  const MasterId := "admin-1"
  const Master := User(MasterId, "Administrador Master", "admin", Some("123456"), Admin)

  const DuplicateEmailMessage := "Este login/e-mail já está em uso no sistema."

  /** The user list at boot: the stored list when there is one, else the master account alone. */
  function LoadUsers(saved: Option<seq<User>>): (r: seq<User>)
    ensures saved.None? ==> |r| == 1 && r[0].id == MasterId && r[0].email == "admin" && r[0].role == Admin
    ensures saved.None? ==> r == [Master] && r[0].password == Some("123456")
    ensures saved.Some? ==> r == saved.value
  {
    if saved.Some? then saved.value else [Master]
  }

  predicate HasUserId(users: seq<User>, id: string)
  {
    exists i :: 0 <= i < |users| && users[i].id == id
  }

  /** `users.find(u => u.email.toLowerCase() === email.toLowerCase())` finds someone. */
  predicate EmailTaken(users: seq<User>, email: string)
  {
    exists i :: 0 <= i < |users| && EqualsIgnoreCase(users[i].email, email)
  }

  function UserId(u: User): string { u.id }

  function EmailKey(u: User): string { ToLower(u.email) }

  /** No two accounts share an e-mail, ignoring case. */
  predicate EmailsDistinct(users: seq<User>)
  {
    Seqs.DistinctBy(users, EmailKey)
  }

  predicate IdsDistinct(users: seq<User>)
  {
    Seqs.DistinctBy(users, UserId)
  }

  /** `handleAddUser`: a clash of e-mails (ignoring case) throws and leaves the list alone;
      otherwise the draft, under the fresh id, goes to the end. */
  function AddUser(users: seq<User>, draft: UserDraft, freshId: string): (r: Result<seq<User>, string>)
    requires !HasUserId(users, freshId)
    ensures r.Failure? <==> EmailTaken(users, draft.email)
    ensures r.Failure? ==> r.error == DuplicateEmailMessage
    ensures r.Success? ==> |r.value| == |users| + 1 && r.value[..|users|] == users
    ensures r.Success? ==>
      var u := r.value[|users|];
      u.id == freshId && u.name == draft.name && u.email == draft.email
      && u.password == Some(draft.password) && u.role == draft.role
  {
    if EmailTaken(users, draft.email) then Failure(DuplicateEmailMessage)
    else Success(users + [User(freshId, draft.name, draft.email, Some(draft.password), draft.role)])
  }

  function KeepOthers(id: string): User -> bool
  {
    (u: User) => u.id != id
  }

  /** `handleDeleteUser`: the master account is refused before any confirmation is asked;
      a confirmed revocation drops every entry with that id and keeps the rest in order. */
  function DeleteUser(users: seq<User>, id: string, confirmed: bool): (r: seq<User>)
    ensures id == MasterId || !confirmed ==> r == users
    ensures forall i :: 0 <= i < |r| ==> r[i] in users
    ensures |r| <= |users|
    ensures id != MasterId && confirmed ==>
      !HasUserId(r, id) && forall i :: 0 <= i < |users| && users[i].id != id ==> users[i] in r
  {
    if id == MasterId || !confirmed then users else Seqs.Filter(users, KeepOthers(id))
  }

  /** The master account, once present, survives every revocation. */
  lemma DeleteKeepsMaster(users: seq<User>, id: string, confirmed: bool)
    requires HasUserId(users, MasterId)
    ensures HasUserId(DeleteUser(users, id, confirmed), MasterId)
  {
    var i :| 0 <= i < |users| && users[i].id == MasterId;
    var r := DeleteUser(users, id, confirmed);
    if id != MasterId && confirmed {
      assert users[i] in r;
      var j :| 0 <= j < |r| && r[j] == users[i];
    }
  }

  /** Revocation keeps the order of the remaining accounts: it distributes over concatenation. */
  lemma DeleteKeepsOrder(a: seq<User>, b: seq<User>, id: string, confirmed: bool)
    ensures DeleteUser(a + b, id, confirmed) == DeleteUser(a, id, confirmed) + DeleteUser(b, id, confirmed)
  {
    if id != MasterId && confirmed {
      Seqs.FilterConcat(a, b, KeepOthers(id));
    }
  }

  /** Revoking the account just provisioned restores the directory. */
  lemma DeleteUndoesAdd(users: seq<User>, draft: UserDraft, freshId: string)
    requires !HasUserId(users, freshId) && freshId != MasterId
    requires AddUser(users, draft, freshId).Success?
    ensures DeleteUser(AddUser(users, draft, freshId).value, freshId, true) == users
  {
    var added := AddUser(users, draft, freshId).value;
    assert added == users + [added[|users|]];
    Seqs.FilterConcat(users, [added[|users|]], KeepOthers(freshId));
    Seqs.FilterKeepsAll(users, KeepOthers(freshId));
    Seqs.FilterKeepsNone([added[|users|]], KeepOthers(freshId));
  }

  /** Provisioning keeps e-mails unique ignoring case, and ids unique. */
  lemma AddKeepsDistinct(users: seq<User>, draft: UserDraft, freshId: string)
    requires !HasUserId(users, freshId)
    requires EmailsDistinct(users) && IdsDistinct(users)
    requires AddUser(users, draft, freshId).Success?
    ensures EmailsDistinct(AddUser(users, draft, freshId).value)
    ensures IdsDistinct(AddUser(users, draft, freshId).value)
  {
    var r := AddUser(users, draft, freshId).value;
    forall i, j | 0 <= i < j < |r| ensures EmailKey(r[i]) != EmailKey(r[j]) && UserId(r[i]) != UserId(r[j]) {
      if j == |users| {
        assert r[i] == users[i];
        assert !EqualsIgnoreCase(users[i].email, draft.email);
      } else {
        assert r[i] == users[i] && r[j] == users[j];
      }
    }
  }

  /** Revocation keeps e-mails unique ignoring case, and ids unique. */
  lemma DeleteKeepsDistinct(users: seq<User>, id: string, confirmed: bool)
    requires EmailsDistinct(users) && IdsDistinct(users)
    ensures EmailsDistinct(DeleteUser(users, id, confirmed))
    ensures IdsDistinct(DeleteUser(users, id, confirmed))
  {
    Seqs.FilterKeepsDistinct(users, KeepOthers(id), EmailKey);
    Seqs.FilterKeepsDistinct(users, KeepOthers(id), UserId);
  }
}
