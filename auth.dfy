/**
 * The login check every protected route repeats: the user is looked up by
 * username and the stored password compared with the one supplied.
 */
module Auth {
  import opened Wrappers
  import opened Http
  import opened Entities

  datatype Credentials = Credentials(username: string, password: string)

  datatype LoginResult = LoggedIn(user: User) | Refused(status: Status)

  /**
   * The three-way outcome of a login, given the result of the username
   * lookup: an unknown user is a conflict, a wrong password is unauthorized,
   * a matching one logs the stored user in.
   */
  function CheckLogin(found: Option<User>, password: string): (r: LoginResult)
    ensures r == Refused(Conflict) <==> found.None?
    ensures r == Refused(Unauthorized) <==> found.Some? && found.value.password != password
    ensures r.LoggedIn? <==> found.Some? && found.value.password == password
    ensures r.LoggedIn? ==> r.user == found.value
  {
    match found
    case None => Refused(Conflict)
    case Some(u) => if u.password == password then LoggedIn(u) else Refused(Unauthorized)
  }
}
