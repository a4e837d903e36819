/** The client's temporary sign-in switch. */
module AppSessions {

  const TempUsername: string := "sudo"
  const TempPassword: string := "sudo"

  class AppSession {
    var isLoggedIn: bool

    constructor()
      ensures !isLoggedIn
    {
      isLoggedIn := false;
    }

    /** Accepts exactly the temporary credentials; a refused login leaves the flag as it was. */
    method Login(username: string, password: string) returns (ok: bool)
      modifies this
      ensures ok <==> username == TempUsername && password == TempPassword
      ensures ok ==> isLoggedIn
      ensures !ok ==> isLoggedIn == old(isLoggedIn)
    {
      ok := username == TempUsername && password == TempPassword;
      if ok {
        isLoggedIn := true;
      }
    }

    method Logout()
      modifies this
      ensures !isLoggedIn
    {
      isLoggedIn := false;
    }
  }
}
