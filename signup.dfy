/** The sign-up form: the validation chain, the account creation with the
    authentication provider, and the profile row in `users`. */
module Signup {

  import opened Wrappers
  import opened Text
  import opened Schema
  import EmailPattern

  const MinPasswordLength: nat := 6

  /** The first validation message the form shows, if any: the name, then the email,
      then the password length. */
  function ValidationError(name: string, email: string, password: string): Option<string> {
    if Trim(name) == [] then Some("Name is required.")
    else if !EmailPattern.IsValidEmail(email) then Some("Please enter a valid email address.")
    else if |password| < MinPasswordLength then Some("Password must be at least 6 characters long.")
    else None
  }

  /** Each message appears exactly when its check is the first to fail. */
  lemma ValidationOrder(name: string, email: string, password: string)
    ensures var r := ValidationError(name, email, password);
      && (r == Some("Name is required.") <==> AllWhitespace(name))
      && (r == Some("Please enter a valid email address.") <==>
            !AllWhitespace(name) && !EmailPattern.AddressShape(email))
      && (r == Some("Password must be at least 6 characters long.") <==>
            !AllWhitespace(name) && EmailPattern.AddressShape(email) && |password| < 6)
      && (r.None? <==> !AllWhitespace(name) && EmailPattern.AddressShape(email) && |password| >= 6)
  {
    TrimEmptyIff(name);
    EmailPattern.EmailPatternIff(email);
  }

  /** A password of exactly six characters passes the length check; five do not. */
  lemma PasswordBoundary(name: string, email: string, six: string, five: string)
    requires !AllWhitespace(name) && EmailPattern.AddressShape(email)
    requires |six| == 6 && |five| == 5
    ensures ValidationError(name, email, six).None?
    ensures ValidationError(name, email, five) == Some("Password must be at least 6 characters long.")
  {
    ValidationOrder(name, email, six);
    ValidationOrder(name, email, five);
  }

  /** What `auth.signUp` answers. */
  datatype SignUpOutcome =
    | SignUpError(message: string)
    | SignUpNoUser
    | SignedUp(userId: string)
    | SignUpThrew

  /** What `auth.admin.deleteUser` does when the profile insert has failed: the account is
      removed, the call returns an error (which the form ignores), or the call throws. */
  datatype RollbackOutcome =
    | RolledBack
    | RollbackError
    | RollbackThrew

  /** The two roles the form's select offers. */
  predicate OfferedRole(role: string) {
    role == "student" || role == "admin"
  }

  class SignupPage {
    var name: string
    var email: string
    var password: string
    var role: string
    var error: string
    /** The last route pushed, if any. */
    var route: Option<string>
    /** Ids of the accounts the authentication provider holds. */
    var accounts: set<string>
    /** The `users` profile table. */
    var profiles: seq<User>

    ghost predicate Valid()
      reads this
    {
      OfferedRole(role)
    }

    constructor (accounts: set<string>, profiles: seq<User>)
      ensures Valid() && role == "student"
      ensures name == "" && email == "" && password == "" && error == "" && route == None
      ensures this.accounts == accounts && this.profiles == profiles
    {
      name, email, password, role, error := "", "", "", "student", "";
      route := None;
      this.accounts, this.profiles := accounts, profiles;
    }

    /** The form's input handlers. */
    method SetFields(name: string, email: string, password: string)
      modifies this`name, this`email, this`password
      ensures this.name == name && this.email == email && this.password == password
    {
      this.name, this.email, this.password := name, email, password;
    }

    method SetRole(role: string)
      requires OfferedRole(role)
      modifies this`role
      ensures Valid() && this.role == role
    {
      this.role := role;
    }

    /** `handleSignup`. */
    method HandleSignup(auth: SignUpOutcome, insertError: Option<string>, rollback: RollbackOutcome)
      requires Valid()
      modifies this`error, this`route, this`accounts, this`profiles
      ensures Valid()
      ensures ValidationError(name, email, password).Some? ==>
                && error == ValidationError(name, email, password).value
                && accounts == old(accounts) && profiles == old(profiles) && route == old(route)
      ensures ValidationError(name, email, password).None? && auth.SignUpError? ==>
                error == auth.message && accounts == old(accounts) && profiles == old(profiles)
                && route == old(route)
      ensures ValidationError(name, email, password).None? && auth.SignUpNoUser? ==>
                error == "Signup failed. No user data returned." && accounts == old(accounts)
                && profiles == old(profiles) && route == old(route)
      ensures ValidationError(name, email, password).None? && auth.SignUpThrew? ==>
                error == "Signup failed. Please try again." && accounts == old(accounts)
                && profiles == old(profiles) && route == old(route)
      ensures (ValidationError(name, email, password).None? && auth.SignedUp? && insertError.Some?) ==>
                && error == (if rollback.RollbackThrew? then "Signup failed. Please try again."
                             else "Failed to create user profile: " + insertError.value)
                && accounts == (if rollback.RolledBack? then old(accounts) - {auth.userId}
                                else old(accounts) + {auth.userId})
                && profiles == old(profiles) && route == old(route)
      ensures (ValidationError(name, email, password).None? && auth.SignedUp? && insertError.None?) ==>
                && error == "" && route == Some("/login")
                && accounts == old(accounts) + {auth.userId}
                && profiles == old(profiles) + [User(auth.userId, email, Some(role), Some(name), Some(true))]
    {
      error := "";
      if Trim(name) == [] {
        error := "Name is required.";
        return;
      }
      if !EmailPattern.IsValidEmail(email) {
        error := "Please enter a valid email address.";
        return;
      }
      if |password| < MinPasswordLength {
        error := "Password must be at least 6 characters long.";
        return;
      }
      match auth {
        case SignUpThrew =>
          error := "Signup failed. Please try again.";
        case SignUpError(message) =>
          error := message;
        case SignUpNoUser =>
          error := "Signup failed. No user data returned.";
        case SignedUp(userId) =>
          accounts := accounts + {userId};
          if insertError.Some? {
            error := "Failed to create user profile: " + insertError.value;
            match rollback {
              case RolledBack =>
                accounts := accounts - {userId};
              case RollbackError =>
              case RollbackThrew =>
                error := "Signup failed. Please try again.";
            }
            return;
          }
          profiles := profiles + [User(userId, email, Some(role), Some(name), Some(true))];
          route := Some("/login");
      }
    }
  }
}
