/**
 * The `auth` slice: whether someone is signed in, and who. Every reducer
 * keeps the flag and the user in step.
 */
module AuthSlice {
  import opened Types

  class Auth {
    var isAuthenticated: bool
    var user: Option<User>

    /** The flag is set exactly when there is a user. */
    predicate Valid()
      reads this
    {
      isAuthenticated <==> user.Some?
    }

    /** `initialState`: signed out, no user. */
    constructor ()
      ensures !isAuthenticated && user == None
      ensures Valid()
    {
      isAuthenticated := false;
      user := None;
    }

    /** `login`: signed in as the payload's user. */
    method Login(u: User)
      modifies this
      ensures isAuthenticated && user == Some(u)
      ensures Valid()
    {
      isAuthenticated := true;
      user := Some(u);
    }

    /** `logout`: signed out whatever the state was, so a second logout changes nothing. */
    method Logout()
      modifies this
      ensures !isAuthenticated && user == None
      ensures Valid()
    {
      isAuthenticated := false;
      user := None;
    }

    /**
     * `restoreAuth`: a stored user signs in exactly as `login` does; a
     * `null` payload leaves the state as it was.
     */
    method RestoreAuth(payload: Option<User>)
      modifies this
      ensures payload.Some? ==> isAuthenticated && user == payload
      ensures payload.None? ==> isAuthenticated == old(isAuthenticated) && user == old(user)
      ensures old(Valid()) ==> Valid()
    {
      if payload.Some? {
        isAuthenticated := true;
        user := payload;
      }
    }
  }
}
