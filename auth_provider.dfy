/**
 * `AuthProvider` as an object whose fields its async functions update in place.
 * The same logic appears in navigation/authContext.tsx and context/AuthContext.tsx;
 * this one class models both.
 *
 * `token` and `loading` are the provider's React state; `stored` stands for the
 * 'userToken' slot of the secure store. Each method takes the outcome of its
 * store call as a parameter, and is specified by the matching function of
 * module Session.
 */
module AuthContext {
  import opened Wrappers
  import opened Session

  class AuthProvider {
    var token: Option<string>
    var loading: bool
    var stored: Option<string>

    /** The provider's state as a value. */
    function Snapshot(): State
      reads this
    {
      State(token, loading, stored)
    }

    /** Mounting: `useState(null)` and `useState(true)`, on a device whose slot holds `slot`. */
    constructor (slot: Option<string>)
      ensures Snapshot() == Initial(slot)
      ensures token == None && loading && stored == slot
    {
      token := None;
      loading := true;
      stored := slot;
    }

    /**
     * `loadToken`, run once by the mount effect. When the read rejects, the
     * promise is dropped and `setLoading(false)` is never reached.
     */
    method LoadToken(read: StoreCall)
      modifies this
      ensures Snapshot() == AfterLoadToken(old(Snapshot()), read)
      ensures stored == old(stored)
      ensures read == Succeeds ==> !loading
      ensures read == Succeeds ==> token == if Truthy(old(stored)) then old(stored) else old(token)
      ensures read == Fails ==> token == old(token) && loading == old(loading)
    {
      if read == Fails {
        return;
      }
      var savedToken := stored;
      if Truthy(savedToken) {
        token := savedToken;
      }
      loading := false;
    }

    /** `login(userToken)`: the store is written first; memory only once the write resolves. */
    method Login(userToken: string, write: StoreCall) returns (settled: Settled)
      modifies this
      ensures Snapshot() == AfterLogin(old(Snapshot()), userToken, write)
      ensures settled == Resolved <==> write == Succeeds
      ensures loading == old(loading)
      ensures write == Succeeds ==> stored == Some(userToken) && token == Some(userToken)
      ensures write == Fails ==> stored == old(stored) && token == old(token)
    {
      if write == Fails {
        return Rejected;
      }
      stored := Some(userToken);
      token := Some(userToken);
      return Resolved;
    }

    /** `logout()`: the slot is deleted first; memory is cleared only once the delete resolves. */
    method Logout(delete: StoreCall) returns (settled: Settled)
      modifies this
      ensures Snapshot() == AfterLogout(old(Snapshot()), delete)
      ensures settled == Resolved <==> delete == Succeeds
      ensures loading == old(loading)
      ensures delete == Succeeds ==> stored == None && token == None
      ensures delete == Fails ==> stored == old(stored) && token == old(token)
    {
      if delete == Fails {
        return Rejected;
      }
      stored := None;
      token := None;
      return Resolved;
    }
  }

  /**
   * A login followed by a process restart: a new provider mounted on the same
   * slot, whose startup read resolves, holds the token exactly when it is
   * non-empty.
   */
  method LoginThenRestart(p: AuthProvider, userToken: string) returns (q: AuthProvider)
    modifies p
    ensures fresh(q)
    ensures !q.loading
    ensures q.token == if userToken != "" then Some(userToken) else None
  {
    var _ := p.Login(userToken, Succeeds);
    q := new AuthProvider(p.stored);
    q.LoadToken(Succeeds);
  }

  /** Two resolved logouts leave the provider where one does. */
  method LogoutTwice(p: AuthProvider) returns (first: State, second: State)
    modifies p
    ensures first == second == AfterLogout(old(p.Snapshot()), Succeeds)
    ensures p.token == None && p.stored == None
  {
    var _ := p.Logout(Succeeds);
    first := p.Snapshot();
    var _ := p.Logout(Succeeds);
    second := p.Snapshot();
  }
}
