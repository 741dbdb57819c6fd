# Session manager and form validation of the BCA mobile client

This project models, in Dafny, the logic at the heart of a React Native client
that offers login, registration and a token-holding session:

- **`AuthProvider`**, the session manager. It keeps an in-memory `token`
  (a string or null) and a `loading` flag, and it uses one slot of the platform
  secure store, the key `'userToken'`. On mount it reads the slot once
  (`loadToken`). `login(token)` writes the slot and then memory. `logout()`
  deletes the slot and then clears memory. The same provider appears twice with
  identical logic, in `navigation/authContext.tsx` and `context/AuthContext.tsx`.
  One model covers both.
- **`handleRegister`**, the registration form check. It lists the empty
  fields in the fixed order Username, Email, Password and reports them in one
  message. Otherwise it tests the e-mail against `^[^\s@]+@[^\s@]+\.[^\s@]+$`.
  Otherwise it sends the three fields unchanged.
- **`handleLogin`**, the login form check. An empty field gives one error;
  otherwise a success alert echoes both fields.

Files:

- `wrappers.dfy`: `Option`, standing for `T | null`.
- `strings.dfy` (module `Strings`): `IndexOf`, the first position of a character.
- `session.dfy` (module `Session`): the provider's state as a value. It has
  one function per async operation (`AfterLoadToken`, `AfterLogin`,
  `AfterLogout`), `Run` over sequences of operations, the default context
  value, and the lemmas.
- `auth_provider.dfy` (module `AuthContext`): class `AuthProvider`. Its fields
  are `token`, `loading` and `stored`; the last stands for the store slot.
  Each method takes the outcome of its store call (`Succeeds` or `Fails`) as a
  parameter, and its `ensures` ties the new state to the matching `Session`
  function.
- `email.dfy` (module `EmailPattern`): the e-mail pattern written by hand, both
  as what a full match means and as a scanning check, proved equal.
- `register.dfy` (module `RegisterForm`) and `login.dfy` (module `LoginForm`).

Conventions of the model:

- A store call that fails rejects the enclosing async function, so no later
  statement of that function runs. The failed call is taken to leave the slot
  as it was.
- "Truthy" is JavaScript truthiness of `string | null`: null and `""` are
  falsy. This applies to `if (savedToken)`, `if (!user)`, `!email` and so on.
- Calls are atomic and run one after another. The code has no serialisation,
  and interleavings are left out.

## Code and design differ

The system's design description promises more than the code does. The model
follows the code:

- A failed startup read: the design says the token is treated as absent and
  `loading` becomes false. In the code the awaited read rejects,
  `setLoading(false)` is never reached, and `loading` stays true
  (`Session.LoadTokenOutcome`, `Session.LoadingEndsOnlyOnRead`).
- An empty token: the design says `login("")` is rejected. The code has no
  check. It stores `""`, and the next startup reads that back as no token
  (`Session.LoginSurvivesRestart`).
- A failed delete in `logout`: the design says memory is cleared anyway. In the
  code `setToken(null)` is never reached, so the token stays
  (`Session.LogoutOutcome`).
- A stored `""`: the design expects the startup load to yield `""`. The code's
  truthiness test yields no token.
- A navigation gate that chooses screens from `token` and `loading` is
  described, but no code has one. `App.tsx:16-27` mounts a fixed stack with
  Login first, and nothing consumes `useAuth`. The model has no gate.

## Model

| member | source | states |
|---|---|---|
| `AuthContext.AuthProvider.constructor` | navigation/authContext.tsx:21-23 | A mounted provider has no token, `loading` true, and the device's slot as it was. |
| `AuthContext.AuthProvider.LoadToken` | navigation/authContext.tsx:25-32 | When the read resolves, `loading` becomes false. The token becomes the stored value when that value is truthy and is otherwise left as it was. When the read rejects, nothing changes and `loading` stays true. The slot is never written. |
| `AuthContext.AuthProvider.Login` | navigation/authContext.tsx:34-37 | When the write resolves, the slot and the token both hold the argument, empty or not, and the promise resolves. When it rejects, the slot and the token are unchanged and the promise rejects. `loading` is untouched. |
| `AuthContext.AuthProvider.Logout` | navigation/authContext.tsx:39-42 | When the delete resolves, the slot is empty and the token null. When it rejects, both keep their old values and the promise rejects. `loading` is untouched. |
| `AuthContext.LoginThenRestart` | navigation/authContext.tsx:27-36 | After a resolved login, a new provider on the same slot whose read resolves holds the token exactly when it is non-empty. |
| `AuthContext.LogoutTwice` | navigation/authContext.tsx:39-42 | Two resolved logouts leave the same state as one: slot empty, token null. |
| `Session.InitialState` | context/AuthContext.tsx:19-20 | The initial state has no token and `loading` true, and it satisfies the memory/store agreement invariant. |
| `Session.LoadTokenOutcome` | context/AuthContext.tsx:22-29 | A resolved read ends loading. The token becomes the stored value only when that value is truthy; an absent or empty slot leaves the token as it was. A rejected read changes nothing. |
| `Session.LoginOutcome` | context/AuthContext.tsx:31-34 | A resolved write puts the argument in both the slot and memory. A rejected write changes nothing. `loading` is preserved. |
| `Session.LogoutOutcome` | context/AuthContext.tsx:36-39 | A resolved delete empties the slot and clears the token. A rejected delete changes nothing. `loading` is preserved. |
| `Session.LogoutIdempotent` | context/AuthContext.tsx:36-39 | A second resolved logout gives the same end state as the first. |
| `Session.LoginSurvivesRestart` | context/AuthContext.tsx:24-32 | Round trip through a restart: a resolved `login(t)` followed by a fresh resolved load yields token `t` exactly when `t` is non-empty. Loading is over. |
| `Session.LogoutSurvivesRestart` | context/AuthContext.tsx:23-39 | After a resolved logout, a restarted provider comes up with no token. |
| `Session.StepMirrorsStore` | context/AuthContext.tsx:23-39 | Each operation, whatever its store outcome, preserves the invariant: a token in memory is the one in the slot, and once loaded, a truthy slot is in memory. |
| `Session.LoadingEndsOnlyOnRead` | context/AuthContext.tsx:20-26 | After any run of operations, `loading` is still true iff it was true and no operation was a resolved read. So it changes once, from true to false. |
| `Session.LoadingNeverReturns` | navigation/authContext.tsx:23-42 | Once `loading` is false, no run of operations sets it back to true. |
| `Session.RunMirrorsStore` | navigation/authContext.tsx:26-42 | Any run of operations preserves the memory/store agreement invariant. |
| `Session.ReachableMirrorsStore` | navigation/authContext.tsx:22-42 | Every state reachable from mount satisfies the invariant. Once loaded, a null token beside an occupied slot means the slot holds `""`. |
| `Session.DefaultContextInert` | navigation/authContext.tsx:12-17 | Without a provider, the context reports no token and `loading` true, and no sequence of `login`/`logout` calls changes that. |
| `Session.ProvidedContextFollowsRun` | context/AuthContext.tsx:41-45 | Under a provider, the context value is the provider's state after the same operations, unlike the inert default value. |
| `EmailPattern.ValidEmailMatchesPattern` | screen/RegisterScreen.tsx:53-54 | The hand-written scanning check accepts a string iff the whole string matches `^[^\s@]+@[^\s@]+\.[^\s@]+$`, stated as local part, '@', domain head, '.', domain tail, each part non-empty with no whitespace and no '@'. |
| `EmailPattern.AcceptedEmailShape` | screen/RegisterScreen.tsx:53 | An accepted address has no whitespace and exactly one '@' with something before it. After the '@' it has a '.' with at least one character on each side. |
| `RegisterForm.MissingFields` | screen/RegisterScreen.tsx:42-46 | "Username", "Email" and "Password" are each listed exactly when their field is empty, in that fixed order. |
| `RegisterForm.MissingJoinTable` | screen/RegisterScreen.tsx:48-49 | The `join(', ')` of the missing-field list, spelled out for each of the eight emptiness patterns. |
| `RegisterForm.MissingMessageIdentifiesFields` | screen/RegisterScreen.tsx:42-49 | Two inputs that produce the same "Please enter ..." message have exactly the same empty fields. |
| `RegisterForm.HandleRegister` | screen/RegisterScreen.tsx:41-69 | A request is sent iff all three fields are non-empty and the e-mail matches the pattern. The request carries the fields unchanged, and the password is only required to be non-empty. Any empty field gives "Please enter " plus the missing names joined by ", ", and the e-mail is not checked then. A malformed e-mail gives "Please enter a valid Email address". |
| `LoginForm.HandleLogin` | screen/LoginScreen.tsx:17-23 | Success iff both fields are non-empty. An error always reads "Please enter email and password". A success alert reads "Email: <email>", a newline, then "Password: <password>". |
| `LoginForm.SuccessMessageEchoesFields` | screen/LoginScreen.tsx:22 | If the e-mail has no line break, both fields can be read back from the success alert verbatim. |
| `LoginForm.LoginIgnoresEmailFormat` | screen/LoginScreen.tsx:17-23 | The outcome depends only on which fields are empty. An address the registration pattern rejects ("x") is accepted. |

## Left out

- Secure store internals (`expo-secure-store`): encryption and persistence are
  platform calls. The store is one slot, and each call's success or failure is
  a parameter. What a failed write or delete does to the slot is not known; the
  model assumes it leaves the slot unchanged.
- Async scheduling: React re-rendering, `useEffect` timing, and interleaved
  concurrent `login`/`logout` calls. Each operation is atomic and sequential.
  An unresolved store call (a promise that never settles) is not modelled
  separately. For the startup read it looks the same as a rejected read:
  `loading` stays true.
- The unhandled rejection of `loadToken` and the rejected promises of
  `login`/`logout`: these are modelled as `Settled.Rejected` or as "nothing
  after the call runs". Error objects and their messages are not modelled.
- The registration request (`fetch` to the user service, JSON parsing, the
  `response.ok` branches, screen/RegisterScreen.tsx:59-83): the model stops at
  `Submitted(username, email, password)`, the request body.
- Alerts, navigation (`navigation.replace`), `BackHandler`, keyboard handling
  and styles: UI side effects. The model returns the alert text instead.
- The JavaScript regex engine: the pattern is written out by hand. `\s` is the
  fixed ECMAScript whitespace set. Dafny's `char` is a Unicode scalar value,
  while a JavaScript regex without the `u` flag works on UTF-16 code units.
  Strings with astral characters may therefore be split differently. This does
  not change acceptance, because no astral character is whitespace or '@'.
- screen/HomeScreen.tsx `handleLogout` (lines 13-17) deletes the slot directly
  and bypasses the provider, so it never clears an in-memory token. It is
  navigation glue and is not part of this model.
- navigation/DrawerMenu.tsx, MainTabs.tsx, screen/ForgetPasswordScreen.tsx and
  App.tsx: animation, layout, icon lookup and navigator wiring, with no logic
  to model.
