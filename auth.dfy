/**
 * Registration and login of `webapp/backend/authController.js`: the
 * username and password formats, the duplicate check against the loaded
 * users object, the single-entry insert, and the login outcome. bcrypt is
 * left abstract: the hash is handed in, and `matches` stands for
 * `bcrypt.compare`.
 */
module Auth {
  import opened JsText

  /** `/^[a-zA-Z0-9]{4,15}$/`: 4 to 15 ASCII letters or digits. */
  predicate ValidUsername(u: string)
  {
    4 <= |u| <= 15 && forall i :: 0 <= i < |u| ==> IsUpper(u[i]) || IsLower(u[i]) || IsDigit(u[i])
  }

  /** The characters the regular-expression `.` does not match. */
  predicate IsLineTerminator(c: char)
  {
    c == '\n' || c == '\r' || c as int == 0x2028 || c as int == 0x2029
  }

  /**
   * `/^(?=.*\d)(?=.*[a-z])(?=.*[A-Z]).{6,20}$/`: 6 to 20 characters, none a
   * line terminator, with an ASCII digit, an ASCII lower-case letter and an
   * ASCII upper-case letter somewhere.
   */
  predicate ValidPassword(p: string)
  {
    6 <= |p| <= 20
    && (forall i :: 0 <= i < |p| ==> !IsLineTerminator(p[i]))
    && (exists i :: 0 <= i < |p| && IsDigit(p[i]))
    && (exists i :: 0 <= i < |p| && IsLower(p[i]))
    && (exists i :: 0 <= i < |p| && IsUpper(p[i]))
  }

  /** Examples, not a property: sample usernames of the right length pass; one too short, or one with an underscore, fails. */
  lemma UsernameExamples()
    ensures ValidUsername("rescue42") && ValidUsername("toString")
    ensures !ValidUsername("abc") && !ValidUsername("user_1")
  {
    assert !IsUpper("user_1"[4]) && !IsLower("user_1"[4]) && !IsDigit("user_1"[4]);
  }

  /** An example, not a property: one mixed-case password with a digit passes. */
  lemma PasswordAccepted()
    ensures ValidPassword("Passw0rd")
  {
    assert IsDigit("Passw0rd"[5]) && IsLower("Passw0rd"[1]) && IsUpper("Passw0rd"[0]);
  }

  /** Examples, not a property: sample passwords missing a character class, too short, or holding a line break fail. */
  lemma PasswordsRefused()
    ensures !ValidPassword("password1") && !ValidPassword("PASSWORD1") && !ValidPassword("Password")
    ensures !ValidPassword("Pa5s") && !ValidPassword("Pass\nw0rd")
  {
    assert IsLineTerminator("Pass\nw0rd"[4]);
  }

  /**
   * The names every plain JavaScript object inherits from `Object.prototype`
   * that are also valid usernames; `users[name]` is a function, and so truthy,
   * for each of them.
   */
  const InheritedNames: set<string> :=
    {"constructor", "toString", "valueOf", "hasOwnProperty", "isPrototypeOf", "toLocaleString"}

  /**
   * `if (users[username])` as written: an own entry with a non-empty hash, or
   * an inherited member of `Object.prototype`.
   */
  predicate ExistsAsWritten(users: map<string, string>, username: string)
  {
    (username in users && users[username] != "") || username in InheritedNames
  }

  /** The intended duplicate check: an own entry with a non-empty hash. */
  predicate Exists(users: map<string, string>, username: string)
  {
    username in users && users[username] != ""
  }

  /**
   * With no user registered, the name "toString" is valid, is not
   * registered, and is refused as already existing by the check as written.
   */
  lemma InheritedNameLooksTaken()
    ensures ValidUsername("toString") && ValidPassword("Passw0rd")
    ensures ExistsAsWritten(map[], "toString") && !Exists(map[], "toString")
  {
    UsernameExamples();
    PasswordAccepted();
  }

  /** The intended check differs from the one as written only on the inherited names. */
  lemma ExistsAgreesOffInherited(users: map<string, string>, username: string)
    ensures username !in InheritedNames ==> ExistsAsWritten(users, username) == Exists(users, username)
    ensures ExistsAsWritten(users, username) == (Exists(users, username) || username in InheritedNames)
  {
  }

  datatype Reply = Reply(status: int, message: string)

  /** The users file, as `loadUsers` reads it and `saveUsers` writes it. */
  class UserStore {
    var users: map<string, string>

    constructor (users: map<string, string>)
      ensures this.users == users
    {
      this.users := users;
    }

    /**
     * `POST /auth/register` with the intended duplicate check; `hash` is what
     * `bcrypt.hash(password, 10)` produced.
     */
    method Register(username: string, password: string, hash: string) returns (reply: Reply)
      modifies this
      ensures !(ValidUsername(username) && ValidPassword(password)) ==>
                reply == Reply(400, "Invalid username or password format.") && users == old(users)
      ensures ValidUsername(username) && ValidPassword(password) && Exists(old(users), username) ==>
                reply == Reply(409, "Username already exists.") && users == old(users)
      ensures ValidUsername(username) && ValidPassword(password) && !Exists(old(users), username) ==>
                reply == Reply(201, "User registered.") && users == old(users)[username := hash]
    {
      var validUsername := ValidUsername(username);
      var validPassword := ValidPassword(password);
      if !validUsername || !validPassword {
        return Reply(400, "Invalid username or password format.");
      }
      if username in users && users[username] != "" {
        return Reply(409, "Username already exists.");
      }
      users := users[username := hash];
      return Reply(201, "User registered.");
    }
  }

  /** `POST /auth/login` against the loaded users; `matches` stands for `bcrypt.compare`. */
  function Login(users: map<string, string>, username: string, password: string,
                 matches: (string, string) -> bool): (r: Reply)
    ensures r.status == 200 <==> Exists(users, username) && matches(password, users[username])
    ensures r.status != 200 ==> r == Reply(400, "Invalid username or password.")
  {
    if !(username in users && users[username] != "") then Reply(400, "Invalid username or password.")
    else if !matches(password, users[username]) then Reply(400, "Invalid username or password.")
    else Reply(200, "Login successful.")
  }

  /** A successful registration makes the same password log in, and leaves every other user as it was. */
  lemma LoginAfterRegister(users: map<string, string>, username: string, password: string, hash: string,
                           matches: (string, string) -> bool, other: string, otherPassword: string)
    requires hash != "" && matches(password, hash) && other != username
    ensures Login(users[username := hash], username, password, matches).status == 200
    ensures Login(users[username := hash], other, otherPassword, matches)
            == Login(users, other, otherPassword, matches)
  {
  }
}
