/** The administration panel (components/UserManagement.tsx): the provisioning form,
    the role counters, the avatar strip and the protected master row. */
module UserManagement {
  import opened Wrappers
  import opened Types
  import Directory
  import AppState
  import Seqs

  const RequiredFieldsMessage := "Todos os campos são obrigatórios para habilitar um novo perfil."
  const ShortPasswordMessage := "Por segurança, a senha deve conter no mínimo 6 caracteres."
  const FallbackMessage := "Falha ao registrar novo perfil técnico."
  const MinPasswordLength := 6
  const MaxAvatars := 5

  /** The checks `handleSubmit` makes before calling `onAddUser`, in their order: all three
      fields filled, then a password of at least six characters. */
  function Validate(email: string, password: string, name: string): (r: Option<string>)
    ensures r == Some(RequiredFieldsMessage) <==> email == "" || password == "" || name == ""
    ensures r == Some(ShortPasswordMessage) <==> email != "" && password != "" && name != "" && |password| < MinPasswordLength
    ensures r.None? <==> email != "" && password != "" && name != "" && |password| >= MinPasswordLength
  {
    if email == "" || password == "" || name == "" then Some(RequiredFieldsMessage)
    else if |password| < MinPasswordLength then Some(ShortPasswordMessage)
    else None
  }

  /** `err.message || fallback`: the error shown is never empty. */
  function ErrorText(message: string): (r: string)
    ensures r != ""
    ensures message != "" ==> r == message
    ensures message == "" ==> r == FallbackMessage
  {
    if message != "" then message else FallbackMessage
  }

  class UserForm {
    var email: string
    var password: string
    var name: string
    var role: Role
    var error: Option<string>
    var success: bool

    constructor ()
      ensures email == "" && password == "" && name == "" && role == Consultant
      ensures error.None? && !success
    {
      email, password, name, role := "", "", "", Consultant;
      error, success := None, false;
    }

    /** The inputs' `onChange` handlers and the two role buttons. */
    method Fill(newEmail: string, newPassword: string, newName: string, newRole: Role)
      modifies this`email, this`password, this`name, this`role
      ensures email == newEmail && password == newPassword && name == newName && role == newRole
    {
      email, password, name, role := newEmail, newPassword, newName, newRole;
    }

    /** `handleSubmit` with `onAddUser` bound to the application's handler. A validation
        failure or a rejected e-mail keeps the form and the directory as they were and shows
        the message; an accepted draft clears the form and reports success. */
    method Submit(app: AppState.App, freshId: string)
      requires app.Valid() && !Directory.HasUserId(app.users, freshId)
      modifies this`error, this`success, this`email, this`password, this`name, this`role, app`users
      ensures app.Valid()
      ensures var v := Validate(old(email), old(password), old(name));
        var added := Directory.AddUser(old(app.users), UserDraft(old(name), old(email), old(password), old(role)), freshId);
        && (v.Some? ==> error == v && !success && app.users == old(app.users))
        && (v.None? && added.Failure? ==>
              error == Some(ErrorText(added.error)) && !success && app.users == old(app.users))
        && (v.Some? || added.Failure? ==>
              email == old(email) && password == old(password) && name == old(name) && role == old(role))
        && (v.None? && added.Success? ==>
              && error.None? && success && app.users == added.value
              && email == "" && password == "" && name == "" && role == Consultant)
    {
      error := None;
      success := false;
      var invalid := Validate(email, password, name);
      if invalid.Some? {
        error := invalid;
        return;
      }
      var thrown := app.AddUser(UserDraft(name, email, password, role), freshId);
      if thrown.None? {
        email, password, name, role := "", "", "", Consultant;
        success := true;
      } else {
        error := Some(ErrorText(thrown.value));
      }
    }
  }

  function HasRole(role: Role): User -> bool
  {
    (u: User) => u.role == role
  }

  /** `users.filter(u => u.role === role).length`. */
  function CountRole(users: seq<User>, role: Role): (n: nat)
    ensures n <= |users|
    ensures n == |Seqs.Filter(users, HasRole(role))|
  {
    if users == [] then 0 else (if users[0].role == role then 1 else 0) + CountRole(users[1..], role)
  }

  /** Every account is either an administrator or a consultant. */
  lemma {:induction false} RolesPartition(users: seq<User>)
    ensures CountRole(users, Admin) + CountRole(users, Consultant) == |users|
  {
    if users != [] {
      RolesPartition(users[1..]);
    }
  }

  datatype Stats = Stats(total: nat, admins: nat, consultants: nat)

  /** The `stats` counters: the two role counts add up to the total. */
  function ComputeStats(users: seq<User>): (r: Stats)
    ensures r.total == |users| && r.admins + r.consultants == r.total
    ensures r.admins == CountRole(users, Admin) && r.consultants == CountRole(users, Consultant)
  {
    RolesPartition(users);
    Stats(|users|, CountRole(users, Admin), CountRole(users, Consultant))
  }

  /** `users.slice(0, 5)`: the avatars shown in the header. */
  function Avatars(users: seq<User>): (r: seq<User>)
    ensures |r| <= MaxAvatars && |r| <= |users| && r == users[..|r|]
    ensures |users| <= MaxAvatars ==> r == users
    ensures |users| > MaxAvatars ==> r == users[..MaxAvatars]
  {
    if |users| <= MaxAvatars then users else users[..MaxAvatars]
  }

  /** The `+n` badge, present only past five accounts. */
  function OverflowBadge(users: seq<User>): (r: Option<nat>)
    ensures r.Some? <==> |users| > MaxAvatars
    ensures r.Some? ==> r.value > 0 && r.value == |users| - MaxAvatars
  {
    if |users| > MaxAvatars then Some(|users| - MaxAvatars) else None
  }

  /** Avatars plus the badge count account for every user exactly once. */
  lemma AvatarsCountEveryone(users: seq<User>)
    ensures |Avatars(users)| + (if OverflowBadge(users).Some? then OverflowBadge(users).value else 0) == |users|
  {
  }

  /** A row offers the revoke control unless it is the master account. */
  predicate CanDelete(u: User)
  {
    u.id != Directory.MasterId
  }

  /** The control is offered exactly on the rows that a confirmed revocation removes. */
  lemma DeleteControlMatchesHandler(users: seq<User>, u: User)
    requires u in users
    ensures CanDelete(u) <==> u !in Directory.DeleteUser(users, u.id, true)
  {
  }
}
