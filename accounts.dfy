/** Dashboard accounts: the login lookup and the rules on who may be removed. */
module Accounts {
  import opened Types

  /** The id of the built-in account, which the team list never offers for deletion. */
  const RootId: string := "1"

  /** The account list the store starts with. */
  function InitialAdmins(): seq<AdminUser> {
    [AdminUser(RootId, "admin", Some("123"), Admin, "المدير العام")]
  }

  /** `a.username === username && a.password === password`: an account without a
      password matches no submitted password. */
  predicate Matches(a: AdminUser, username: string, password: string) {
    a.username == username && a.password == Some(password)
  }

  /** `admins.find(...)` for the login form, given as the position of the account found. */
  function FirstMatch(admins: seq<AdminUser>, username: string, password: string): (r: Option<nat>)
    ensures r.None? <==> forall i :: 0 <= i < |admins| ==> !Matches(admins[i], username, password)
    ensures r.Some? ==> r.value < |admins| && admins[r.value].username == username
    ensures r.Some? ==> admins[r.value].password == Some(password)
    ensures r.Some? ==> forall j :: 0 <= j < r.value ==> !Matches(admins[j], username, password)
  {
    if admins == [] then None
    else if Matches(admins[0], username, password) then Some(0)
    else
      match FirstMatch(admins[1..], username, password)
      case None => None
      case Some(j) => Some(j + 1)
  }

  /** The team tab, and with it member deletion, is shown only to a signed-in admin. */
  predicate CanManageTeam(user: Option<AdminUser>) {
    user.Some? && user.value.role == Admin
  }

  /** While the built-in account is on the list, its credentials always sign in,
      whatever else the list holds. */
  lemma {:induction false} RootCanSignIn(admins: seq<AdminUser>)
    requires InitialAdmins()[0] in admins
    ensures FirstMatch(admins, "admin", "123").Some?
  {
    var i :| 0 <= i < |admins| && admins[i] == InitialAdmins()[0];
    assert Matches(admins[i], "admin", "123");
  }
}
