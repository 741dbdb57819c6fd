/**
 * The session state kept by `AuthProvider` (navigation/authContext.tsx and its
 * duplicate context/AuthContext.tsx), as values.
 *
 * The provider keeps two pieces of React state, `token` and `loading`, and talks
 * to one slot of the platform secure store, the key 'userToken'. A `State` holds
 * all three. Each store call is given an explicit outcome (`StoreCall`); a call
 * that fails rejects the surrounding async function, so nothing after it runs,
 * and the slot is taken to be left as it was.
 *
 * The functions `AfterLoadToken`, `AfterLogin` and `AfterLogout` say what one
 * complete run of each async function does; `Run` applies a sequence of them
 * one after another (the code has no serialisation; calls are modelled as
 * atomic and sequential). The class in auth_provider.dfy is specified by these
 * functions.
 */
module Session {
  import opened Wrappers

  /** The outcome of one call into the secure store. */
  datatype StoreCall = Succeeds | Fails

  /** How the promise returned by `login` or `logout` settles. */
  datatype Settled = Resolved | Rejected

  /** In-memory `token` and `loading`, and the store's 'userToken' slot. */
  datatype State = State(token: Option<string>, loading: bool, stored: Option<string>)

  /** JavaScript truthiness of a `string | null`: null and "" are falsy. */
  predicate Truthy(v: Option<string>) {
    v.Some? && v.value != ""
  }

  /** The state a provider mounts with, on a device whose slot holds `slot`. */
  function Initial(slot: Option<string>): State {
    State(None, true, slot)
  }

  /** A process restart: memory is lost, the store survives. */
  function Restart(s: State): State {
    Initial(s.stored)
  }

  /** `loadToken`: read the slot; if the read rejects, nothing else runs. */
  function AfterLoadToken(s: State, read: StoreCall): State {
    match read
    case Fails => s
    case Succeeds =>
      var savedToken := s.stored;
      s.(token := if Truthy(savedToken) then savedToken else s.token, loading := false)
  }

  /** `login(userToken)`: write the slot, then set the in-memory token. */
  function AfterLogin(s: State, userToken: string, write: StoreCall): State {
    match write
    case Fails => s
    case Succeeds => s.(stored := Some(userToken), token := Some(userToken))
  }

  /** `logout()`: delete the slot, then clear the in-memory token. */
  function AfterLogout(s: State, delete: StoreCall): State {
    match delete
    case Fails => s
    case Succeeds => s.(stored := None, token := None)
  }

  /** One operation of the provider, with the outcome of its store call. */
  datatype Op =
    | Load(read: StoreCall)
    | Login(userToken: string, write: StoreCall)
    | Logout(delete: StoreCall)

  function Step(s: State, op: Op): State {
    match op
    case Load(read) => AfterLoadToken(s, read)
    case Login(t, write) => AfterLogin(s, t, write)
    case Logout(delete) => AfterLogout(s, delete)
  }

  /** The state after running `ops` in order from `s`. */
  function Run(s: State, ops: seq<Op>): State
    decreases |ops|
  {
    if ops == [] then s else Run(Step(s, ops[0]), ops[1..])
  }

  /** The one operation that ends loading: a `loadToken` whose read resolves. */
  predicate CompletesLoad(op: Op) {
    op.Load? && op.read == Succeeds
  }

  /**
   * Once loading has finished, memory agrees with the store: a token in memory
   * is the one in the slot, and a truthy slot is in memory. (Before loading
   * finishes only the first half holds: the slot may hold a token not yet read.)
   */
  predicate MirrorsStore(s: State) {
    && (s.token.Some? ==> s.token == s.stored)
    && (!s.loading && Truthy(s.stored) ==> s.token == s.stored)
  }

  // ---------------------------------------------------------------------------
  // One operation at a time

  /** The provider mounts with no token and loading set. */
  lemma InitialState(slot: Option<string>)
    ensures Initial(slot).token == None && Initial(slot).loading
    ensures MirrorsStore(Initial(slot))
  {
  }

  /**
   * A resolved read ends loading and takes the stored value as the token only
   * when it is truthy; an absent or empty slot leaves the token as it was (null
   * at startup). A rejected read changes nothing, so loading stays true.
   */
  lemma LoadTokenOutcome(s: State, read: StoreCall)
    ensures AfterLoadToken(s, read).stored == s.stored
    ensures read == Succeeds ==> !AfterLoadToken(s, read).loading
    ensures read == Succeeds && Truthy(s.stored) ==> AfterLoadToken(s, read).token == s.stored
    ensures read == Succeeds && !Truthy(s.stored) ==> AfterLoadToken(s, read).token == s.token
    ensures read == Fails ==> AfterLoadToken(s, read) == s
  {
  }

  /**
   * A resolved write leaves both the slot and memory holding `userToken`, empty
   * or not; a rejected write leaves the state unchanged. Loading is untouched.
   */
  lemma LoginOutcome(s: State, userToken: string, write: StoreCall)
    ensures AfterLogin(s, userToken, write).loading == s.loading
    ensures write == Succeeds ==>
      AfterLogin(s, userToken, write).stored == Some(userToken) &&
      AfterLogin(s, userToken, write).token == Some(userToken)
    ensures write == Fails ==> AfterLogin(s, userToken, write) == s
  {
  }

  /**
   * A resolved delete leaves the slot empty and the token null; a rejected
   * delete leaves the token (and everything else) as it was.
   */
  lemma LogoutOutcome(s: State, delete: StoreCall)
    ensures AfterLogout(s, delete).loading == s.loading
    ensures delete == Succeeds ==>
      AfterLogout(s, delete).stored == None && AfterLogout(s, delete).token == None
    ensures delete == Fails ==> AfterLogout(s, delete) == s
  {
  }

  /** Logging out twice ends where logging out once does. */
  lemma LogoutIdempotent(s: State)
    ensures AfterLogout(AfterLogout(s, Succeeds), Succeeds) == AfterLogout(s, Succeeds)
  {
  }

  /**
   * Round trip through a restart: after a resolved `login(t)`, a fresh provider
   * whose read resolves holds `t` exactly when `t` is non-empty. `login` accepts
   * "", but the startup check then reads it as no token.
   */
  lemma LoginSurvivesRestart(s: State, t: string)
    ensures AfterLoadToken(Restart(AfterLogin(s, t, Succeeds)), Succeeds).token
      == (if t != "" then Some(t) else None)
    ensures !AfterLoadToken(Restart(AfterLogin(s, t, Succeeds)), Succeeds).loading
  {
  }

  /** After a resolved logout, a restarted provider comes up with no token. */
  lemma LogoutSurvivesRestart(s: State)
    ensures AfterLoadToken(Restart(AfterLogout(s, Succeeds)), Succeeds).token == None
  {
  }

  /** Every single operation keeps memory in agreement with the store. */
  lemma StepMirrorsStore(s: State, op: Op)
    requires MirrorsStore(s)
    ensures MirrorsStore(Step(s, op))
  {
  }

  // ---------------------------------------------------------------------------
  // Sequences of operations

  /**
   * `loading` only ever goes from true to false, and does so exactly at the first
   * resolved read: after any run it is still true iff it was true before and no
   * operation of the run was a resolved `loadToken`. No operation sets it back.
   */
  lemma {:induction false} LoadingEndsOnlyOnRead(s: State, ops: seq<Op>)
    ensures Run(s, ops).loading <==>
      s.loading && forall i :: 0 <= i < |ops| ==> !CompletesLoad(ops[i])
    decreases |ops|
  {
    if ops != [] {
      var s' := Step(s, ops[0]);
      LoadingEndsOnlyOnRead(s', ops[1..]);
      assert s'.loading <==> s.loading && !CompletesLoad(ops[0]);
      assert (forall i :: 0 <= i < |ops| ==> !CompletesLoad(ops[i])) <==>
        !CompletesLoad(ops[0]) && forall i :: 0 <= i < |ops[1..]| ==> !CompletesLoad(ops[1..][i])
      by {
        forall i | 0 <= i < |ops[1..]| ensures ops[1..][i] == ops[i + 1] { }
        if !CompletesLoad(ops[0]) && forall i :: 0 <= i < |ops[1..]| ==> !CompletesLoad(ops[1..][i]) {
          forall i | 0 <= i < |ops| ensures !CompletesLoad(ops[i]) {
            if i > 0 { assert ops[i] == ops[1..][i - 1]; }
          }
        }
      }
    }
  }

  /** Once loading is over it stays over, whatever runs next. */
  lemma {:induction false} LoadingNeverReturns(s: State, ops: seq<Op>)
    requires !s.loading
    ensures !Run(s, ops).loading
    decreases |ops|
  {
    if ops != [] {
      LoadingNeverReturns(Step(s, ops[0]), ops[1..]);
    }
  }

  /** Any run of operations keeps memory in agreement with the store. */
  lemma {:induction false} RunMirrorsStore(s: State, ops: seq<Op>)
    requires MirrorsStore(s)
    ensures MirrorsStore(Run(s, ops))
    decreases |ops|
  {
    if ops != [] {
      StepMirrorsStore(s, ops[0]);
      RunMirrorsStore(Step(s, ops[0]), ops[1..]);
    }
  }

  /**
   * Every state a provider reaches from startup, whatever the store outcomes,
   * has memory in agreement with the store; in particular, once loaded, the
   * token is null while the slot holds something only when the slot holds "".
   */
  lemma ReachableMirrorsStore(slot: Option<string>, ops: seq<Op>)
    ensures MirrorsStore(Run(Initial(slot), ops))
    ensures var s := Run(Initial(slot), ops);
      !s.loading && s.token == None && s.stored.Some? ==> s.stored == Some("")
  {
    InitialState(slot);
    RunMirrorsStore(Initial(slot), ops);
  }

  // ---------------------------------------------------------------------------
  // The context value seen by consumers

  /** What `useAuth()` reports: the token and the loading flag. */
  datatype View = View(token: Option<string>, loading: bool)

  /** A consumer is either under an `AuthProvider` or sees the context's default value. */
  datatype Context = NoProvider | Provided(state: State)

  function ViewOf(c: Context): View {
    match c
    case NoProvider => View(None, true)
    case Provided(s) => View(s.token, s.loading)
  }

  /** The default value's `login` and `logout` are `async () => {}`: they resolve and do nothing. */
  function Dispatch(c: Context, op: Op): Context {
    match c
    case NoProvider => NoProvider
    case Provided(s) => Provided(Step(s, op))
  }

  function RunContext(c: Context, ops: seq<Op>): Context
    decreases |ops|
  {
    if ops == [] then c else RunContext(Dispatch(c, ops[0]), ops[1..])
  }

  /**
   * Without a provider the context reports no token and loading, and no
   * sequence of `login`/`logout` calls changes that.
   */
  lemma {:induction false} DefaultContextInert(ops: seq<Op>)
    ensures RunContext(NoProvider, ops) == NoProvider
    ensures ViewOf(RunContext(NoProvider, ops)) == View(None, true)
    decreases |ops|
  {
    if ops != [] {
      DefaultContextInert(ops[1..]);
    }
  }

  /** Under a provider, the context follows the provider's state. */
  lemma {:induction false} ProvidedContextFollowsRun(s: State, ops: seq<Op>)
    ensures RunContext(Provided(s), ops) == Provided(Run(s, ops))
    ensures ViewOf(RunContext(Provided(s), ops)) == View(Run(s, ops).token, Run(s, ops).loading)
    decreases |ops|
  {
    if ops != [] {
      ProvidedContextFollowsRun(Step(s, ops[0]), ops[1..]);
    }
  }
}
