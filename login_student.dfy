/** The student login page: input sanitising, the email check, and the chain of
    guards that ends in the session being stored in `localStorage`. */
module LoginStudent {

  import opened Wrappers
  import opened Text
  import EmailPattern
  import Seqs

  /** The characters the pattern `/['";-]/g` strips. */
  predicate IsStripped(c: char) {
    c == '\'' || c == '"' || c == ';' || c == '-'
  }

  predicate NoneStripped(s: string) {
    forall k | 0 <= k < |s| :: !IsStripped(s[k])
  }

  /** `sanitizeInput`: every quote, double quote, semicolon and hyphen removed. */
  function SanitizeInput(input: string): string
    decreases |input|
  {
    if input == [] then []
    else (if IsStripped(input[0]) then [] else [input[0]]) + SanitizeInput(input[1..])
  }

  /** The output holds none of the four characters. */
  lemma {:induction false} SanitizeRemovesAll(input: string)
    ensures NoneStripped(SanitizeInput(input))
    decreases |input|
  {
    if input != [] {
      SanitizeRemovesAll(input[1..]);
    }
  }

  /** A string without any of the four characters is left as it is. */
  lemma {:induction false} SanitizeKeepsClean(input: string)
    requires NoneStripped(input)
    ensures SanitizeInput(input) == input
    decreases |input|
  {
    if input != [] {
      SanitizeKeepsClean(input[1..]);
      assert input == [input[0]] + input[1..];
    }
  }

  /** Sanitising twice is sanitising once. */
  lemma SanitizeIdempotent(input: string)
    ensures SanitizeInput(SanitizeInput(input)) == SanitizeInput(input)
  {
    SanitizeRemovesAll(input);
    SanitizeKeepsClean(SanitizeInput(input));
  }

  /** The output is the input with the four characters deleted and nothing else changed:
      the same text, character for character, once those are left out of the input. */
  lemma {:induction false} SanitizeIsFilter(input: string)
    ensures SanitizeInput(input) == Seqs.Filter(input, c => !IsStripped(c))
    decreases |input|
  {
    if input != [] {
      SanitizeIsFilter(input[1..]);
    }
  }

  /** The output is a subsequence of the input, no longer than it, and equal to it
      exactly when none of the four characters occurs. */
  lemma SanitizeShrinks(input: string)
    ensures Seqs.IsSubsequence(SanitizeInput(input), input)
    ensures |SanitizeInput(input)| <= |input|
    ensures SanitizeInput(input) == input <==> NoneStripped(input)
  {
    SanitizeIsFilter(input);
    Seqs.FilterIsSubsequence(input, c => !IsStripped(c));
    SanitizeRemovesAll(input);
    if NoneStripped(input) {
      SanitizeKeepsClean(input);
    }
  }

  /** "a-b@x.com" reaches the email check as "ab@x.com", which the pattern accepts. */
  lemma HyphenDroppedBeforeCheck(typed: string)
    requires typed == "a-b@x.com"
    ensures SanitizeInput(Trim(typed)) == "ab@x.com"
    ensures EmailPattern.IsValidEmail(SanitizeInput(Trim(typed)))
  {
    ExampleHasNothingToTrim(typed);
    ExampleLosesItsHyphen(typed);
    assert EmailPattern.MatchesAt("ab@x.com", 2, 4);
  }

  lemma ExampleHasNothingToTrim(typed: string)
    requires typed == "a-b@x.com"
    ensures Trim(typed) == typed
  {
    assert TrimStart(typed) == typed;
    assert TrimEnd(typed) == typed;
  }

  lemma ExampleLosesItsHyphen(typed: string)
    requires typed == "a-b@x.com"
    ensures SanitizeInput(typed) == "ab@x.com"
  {
    var rest := typed[2..];
    assert rest == "b@x.com";
    SanitizeKeepsClean(rest);
    assert SanitizeInput(typed) == "a" + SanitizeInput(typed[1..]);
  }

  /** What the authentication provider answers to `signInWithPassword`. */
  datatype SignInOutcome =
    | SignInError(message: string)
    | SignInNoUser
    | SignedIn(userId: string)
    | SignInThrew

  /** What `users.select("role").eq("user_id", id).maybeSingle()` answers. */
  datatype RoleLookup = LookupError | NoRow | RoleRow(role: string)

  /** The credentials handed to the provider. */
  datatype Credentials = Credentials(email: string, password: string)

  /** The object stored under `studentUser` (before JSON serialisation). */
  datatype StudentUser = StudentUser(email: string, role: string)

  /** The attempt got past every guard. */
  predicate Granted(sent: Option<Credentials>, signIn: SignInOutcome, lookup: RoleLookup) {
    sent.Some? && signIn.SignedIn? && lookup.RoleRow? && lookup.role == "student"
  }

  class StudentLoginPage {
    var email: string
    var password: string
    var error: string
    /** `localStorage` entries `isStudentAuthenticated` and `studentUser`. */
    var isStudentAuthenticated: Option<string>
    var studentUser: Option<StudentUser>
    /** The last route pushed, if any. */
    var route: Option<string>

    constructor ()
      ensures email == "" && password == "" && error == ""
      ensures isStudentAuthenticated == None && studentUser == None && route == None
    {
      email, password, error := "", "", "";
      isStudentAuthenticated := None;
      studentUser := None;
      route := None;
    }

    /** The form's input handlers. */
    method SetFields(email: string, password: string)
      modifies this`email, this`password
      ensures this.email == email && this.password == password
    {
      this.email, this.password := email, password;
    }

    /** `handleLogin`. Returns the credentials sent to the provider, if the email check
        let the attempt get that far. */
    method HandleLogin(signIn: SignInOutcome, lookup: RoleLookup) returns (sent: Option<Credentials>)
      modifies this`error, this`isStudentAuthenticated, this`studentUser, this`route
      ensures sent.Some? <==> EmailPattern.IsValidEmail(SanitizeInput(Trim(email)))
      ensures sent.Some? ==> sent.value == Credentials(SanitizeInput(Trim(email)), SanitizeInput(password))
      ensures sent.None? ==> error == "Invalid email format."
      ensures sent.Some? && signIn.SignInError? ==> error == signIn.message
      ensures sent.Some? && signIn.SignInNoUser? ==> error == "Authentication failed."
      ensures sent.Some? && signIn.SignInThrew? ==> error == "Login failed. Please try again."
      ensures sent.Some? && signIn.SignedIn? && !lookup.RoleRow? ==> error == "Failed to fetch user role."
      ensures (sent.Some? && signIn.SignedIn? && lookup.RoleRow? && lookup.role != "student")
                ==> error == "Access denied. Only students are allowed."
      ensures Granted(sent, signIn, lookup) ==>
                && error == "" && route == Some("/studentHome")
                && isStudentAuthenticated == Some("true")
                && studentUser == Some(StudentUser(sent.value.email, "student"))
      ensures !Granted(sent, signIn, lookup) ==>
                && isStudentAuthenticated == old(isStudentAuthenticated)
                && studentUser == old(studentUser) && route == old(route)
    {
      error := "";
      var cleanEmail := SanitizeInput(Trim(email));
      var cleanPassword := SanitizeInput(password);
      if !EmailPattern.IsValidEmail(cleanEmail) {
        error := "Invalid email format.";
        return None;
      }
      sent := Some(Credentials(cleanEmail, cleanPassword));
      match signIn {
        case SignInThrew =>
          error := "Login failed. Please try again.";
        case SignInError(message) =>
          error := message;
        case SignInNoUser =>
          error := "Authentication failed.";
        case SignedIn(_) =>
          if !lookup.RoleRow? {
            error := "Failed to fetch user role.";
          } else if lookup.role != "student" {
            error := "Access denied. Only students are allowed.";
          } else {
            isStudentAuthenticated := Some("true");
            studentUser := Some(StudentUser(cleanEmail, lookup.role));
            route := Some("/studentHome");
          }
      }
    }
  }
}
