/** The login screen (components/Login.tsx): plaintext credential matching. */
module Login {
  import opened Wrappers
  import opened Types
  import Directory
  import Text

  const InvalidCredentialsMessage := "Credenciais inválidas. Verifique seu login e senha."

  /** The `users.find` predicate: exact, case-sensitive e-mail and exact password.
      A user without a password never matches, since the typed password is a string. */
  predicate Matches(u: User, email: string, password: string)
  {
    u.email == email && u.password == Some(password)
  }

  /** Position of the first user whose credentials match. */
  function FirstMatch(users: seq<User>, email: string, password: string): (r: Option<nat>)
    ensures r.Some? ==> r.value < |users| && Matches(users[r.value], email, password)
    ensures r.Some? ==> forall j :: 0 <= j < r.value ==> !Matches(users[j], email, password)
    ensures r.None? ==> forall j :: 0 <= j < |users| ==> !Matches(users[j], email, password)
  {
    if users == [] then None
    else if Matches(users[0], email, password) then Some(0)
    else
      var rest := FirstMatch(users[1..], email, password);
      if rest.Some? then Some(rest.value + 1) else None
  }

  /** `handleLogin`: the first matching user is handed to `onLogin`; otherwise the one generic
      error is shown, whether the e-mail is unknown or the password wrong. */
  function Authenticate(users: seq<User>, email: string, password: string): (r: Result<User, string>)
    ensures r.Success? ==> r.value in users && Matches(r.value, email, password)
    ensures r.Success? ==>
      exists i :: 0 <= i < |users| && users[i] == r.value && (forall j :: 0 <= j < i ==> !Matches(users[j], email, password))
    ensures r.Failure? <==> forall j :: 0 <= j < |users| ==> !Matches(users[j], email, password)
    ensures r.Failure? ==> r.error == InvalidCredentialsMessage
  {
    var m := FirstMatch(users, email, password);
    if m.Some? then Success(users[m.value]) else Failure(InvalidCredentialsMessage)
  }

  /** An account stored without a password can never log in. */
  lemma PasswordlessNeverLogsIn(users: seq<User>, email: string, password: string)
    ensures Authenticate(users, email, password).Success? ==> Authenticate(users, email, password).value.password.Some?
  {
  }

  /** The login check is case-sensitive while the duplicate check is not: the seeded master
      account cannot log in as "ADMIN", yet "ADMIN" counts as a taken e-mail. */
  lemma LoginIsCaseSensitive()
    ensures Authenticate([Directory.Master], "ADMIN", "123456").Failure?
    ensures Directory.EmailTaken([Directory.Master], "ADMIN")
  {
    var lower := Text.ToLower("ADMIN");
    assert lower == "admin" by {
      assert lower[0] == 'a' && lower[1] == 'd' && lower[2] == 'm' && lower[3] == 'i' && lower[4] == 'n';
    }
    assert Text.EqualsIgnoreCase(Directory.Master.email, "ADMIN");
  }
}
