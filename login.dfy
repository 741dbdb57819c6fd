/**
 * `handleLogin` (screen/LoginScreen.tsx): an emptiness check on the two fields,
 * then an alert that echoes them. There is no format check on the e-mail.
 */
module LoginForm {
  import opened Wrappers
  import opened Strings
  import EmailPattern

  /** The alert shown: an error, or a success message. */
  datatype LoginOutcome = LoginError(message: string) | LoginSuccess(message: string)

  const MissingCredentialsMessage := "Please enter email and password"

  /**
   * An empty e-mail or an empty password gives the one error message; otherwise
   * the success alert reads "Email: <email>" and "Password: <password>" on two lines.
   */
  function HandleLogin(email: string, password: string): (r: LoginOutcome)
    ensures r.LoginSuccess? <==> email != "" && password != ""
    ensures r.LoginError? ==> r.message == MissingCredentialsMessage
    ensures r.LoginSuccess? ==> r.message == "Email: " + email + "\nPassword: " + password
  {
    if email == "" || password == "" then
      LoginError(MissingCredentialsMessage)
    else
      LoginSuccess("Email: " + email + "\nPassword: " + password)
  }

  /** Reads the e-mail and password back out of a success message. */
  function ReadBack(message: string): Option<(string, string)> {
    var head := "Email: ";
    var mid := "\nPassword: ";
    if |message| < |head| || message[..|head|] != head then None
    else
      var rest := message[|head|..];
      match IndexOf(rest, '\n')
      case None => None
      case Some(k) =>
        if |rest| - k < |mid| || rest[k..k + |mid|] != mid then None
        else Some((rest[..k], rest[k + |mid|..]))
  }

  /**
   * The success alert shows both fields verbatim: when the e-mail holds no
   * line break, both can be read back from it.
   */
  lemma SuccessMessageEchoesFields(email: string, password: string)
    requires email != "" && password != "" && '\n' !in email
    ensures HandleLogin(email, password).LoginSuccess?
    ensures ReadBack(HandleLogin(email, password).message) == Some((email, password))
  {
    var message := HandleLogin(email, password).message;
    assert message[..7] == "Email: ";
    var rest := message[7..];
    assert rest == email + "\nPassword: " + password;
    assert rest[|email|] == '\n';
    assert forall k :: 0 <= k < |email| ==> rest[k] == email[k];
    assert IndexOf(rest, '\n') == Some(|email|);
    assert rest[|email|..|email| + 11] == "\nPassword: ";
    assert rest[|email| + 11..] == password;
    assert rest[..|email|] == email;
  }

  /**
   * The outcome depends only on which fields are empty: the e-mail is never
   * checked against the registration pattern, so "x" is accepted here.
   */
  lemma LoginIgnoresEmailFormat(e1: string, p1: string, e2: string, p2: string)
    requires (e1 == "") == (e2 == "") && (p1 == "") == (p2 == "")
    ensures HandleLogin(e1, p1).LoginSuccess? == HandleLogin(e2, p2).LoginSuccess?
    ensures HandleLogin("x", "p").LoginSuccess? && !EmailPattern.MatchesEmailPattern("x")
  {
  }
}
