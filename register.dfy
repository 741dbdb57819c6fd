/**
 * The validation stage of `handleRegister` (screen/RegisterScreen.tsx): collect
 * the names of the empty fields in a fixed order, report them in one message,
 * otherwise test the e-mail against the pattern, otherwise send the three
 * fields to the user service unchanged.
 */
module RegisterForm {
  import opened EmailPattern

  /** What pressing "Register" leads to before any network traffic. */
  datatype RegisterOutcome =
    | Rejected(message: string)
    | Submitted(username: string, email: string, password: string)

  const InvalidEmailMessage := "Please enter a valid Email address"

  /** Position of a field name in the fixed order Username, Email, Password. */
  function FieldRank(name: string): nat {
    if name == "Username" then 0 else if name == "Email" then 1 else 2
  }

  /**
   * The names of the empty fields: a name is listed exactly when its field is
   * empty, and the names keep the order Username, Email, Password.
   */
  function MissingFields(user: string, email: string, password: string): (m: seq<string>)
    ensures forall n :: n in m <==>
      || (n == "Username" && user == "")
      || (n == "Email" && email == "")
      || (n == "Password" && password == "")
    ensures forall a, b :: 0 <= a < b < |m| ==> FieldRank(m[a]) < FieldRank(m[b])
  {
    (if user == "" then ["Username"] else [])
    + (if email == "" then ["Email"] else [])
    + (if password == "" then ["Password"] else [])
  }

  /** JavaScript's `Array.prototype.join`. */
  function Join(parts: seq<string>, sep: string): string
    decreases |parts|
  {
    if parts == [] then ""
    else if |parts| == 1 then parts[0]
    else parts[0] + sep + Join(parts[1..], sep)
  }

  function MissingMessage(missing: seq<string>): string {
    "Please enter " + Join(missing, ", ")
  }

  /** The joined list of empty fields, case by case. */
  lemma MissingJoinTable(user: string, email: string, password: string)
    ensures Join(MissingFields(user, email, password), ", ") ==
      match (user == "", email == "", password == "")
      case (false, false, false) => ""
      case (true, false, false) => "Username"
      case (false, true, false) => "Email"
      case (false, false, true) => "Password"
      case (true, true, false) => "Username, Email"
      case (true, false, true) => "Username, Password"
      case (false, true, true) => "Email, Password"
      case (true, true, true) => "Username, Email, Password"
  {
    var m := MissingFields(user, email, password);
    if |m| == 2 {
      assert Join(m, ", ") == m[0] + ", " + m[1];
    } else if |m| == 3 {
      assert Join(m[1..], ", ") == m[1] + ", " + m[2];
    }
  }

  /**
   * The message tells the empty fields apart: two sets of inputs that produce
   * the same message have exactly the same empty fields.
   */
  lemma MissingMessageIdentifiesFields(u1: string, e1: string, p1: string, u2: string, e2: string, p2: string)
    requires MissingMessage(MissingFields(u1, e1, p1)) == MissingMessage(MissingFields(u2, e2, p2))
    ensures (u1 == "") == (u2 == "") && (e1 == "") == (e2 == "") && (p1 == "") == (p2 == "")
  {
    var j1, j2 := Join(MissingFields(u1, e1, p1), ", "), Join(MissingFields(u2, e2, p2), ", ");
    assert j1 == j2 by {
      assert MissingMessage(MissingFields(u1, e1, p1))[13..] == j1;
      assert MissingMessage(MissingFields(u2, e2, p2))[13..] == j2;
    }
    MissingJoinTable(u1, e1, p1);
    MissingJoinTable(u2, e2, p2);
    assert |j1| == |j2|;
    assert j1 != "" ==> j1[0] == j2[0];
  }

  /**
   * `handleRegister` up to the request: the empty fields are pushed one by one,
   * any of them ends validation with one message; otherwise a malformed e-mail
   * ends it; otherwise the request carries the three fields unchanged. The
   * password is only required to be non-empty.
   */
  method HandleRegister(user: string, email: string, password: string) returns (r: RegisterOutcome)
    ensures r.Submitted? <==> user != "" && email != "" && password != "" && MatchesEmailPattern(email)
    ensures r.Submitted? ==> r == Submitted(user, email, password)
    ensures user == "" || email == "" || password == "" ==>
      r == Rejected(MissingMessage(MissingFields(user, email, password)))
    ensures user != "" && email != "" && password != "" && !MatchesEmailPattern(email) ==>
      r == Rejected(InvalidEmailMessage)
  {
    var missingFields: seq<string> := [];
    if user == "" { missingFields := missingFields + ["Username"]; }
    if email == "" { missingFields := missingFields + ["Email"]; }
    if password == "" { missingFields := missingFields + ["Password"]; }

    assert missingFields == MissingFields(user, email, password);
    if |missingFields| > 0 {
      return Rejected("Please enter " + Join(missingFields, ", "));
    }

    ValidEmailMatchesPattern(email);
    if !IsValidEmail(email) {
      return Rejected(InvalidEmailMessage);
    }

    return Submitted(user, email, password);
  }
}
