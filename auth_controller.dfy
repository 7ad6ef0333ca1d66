/** Account creation and sessions: signup, login, logout and "who am I". */
module AuthController {
  import opened Wrappers
  import opened Documents
  import opened External
  import Text
  import Seqs
  import opened Database

  /** The characters `[^\s@]` admits, all through `s`. */
  predicate Plain(s: string)
  {
    forall i :: 0 <= i < |s| ==> !Text.IsSpace(s[i]) && s[i] != '@'
  }

  /** The language of `/^[^\s@]+@[^\s@]+\.[^\s@]+$/`: a non-empty local part, an `@`,
      a non-empty name, a `.`, and a non-empty last label, none of them holding
      white space or a further `@`. */
  ghost predicate MatchesEmailRegex(s: string)
  {
    exists i, j :: 0 < i && i + 1 < j && j + 1 < |s| && s[i] == '@' && s[j] == '.'
      && Plain(s[..i]) && Plain(s[i + 1..j]) && Plain(s[j + 1..])
  }

  /** The email check of signup, decided by splitting at the first `@`: the part
      before it must be non-empty and plain, the part after it plain with a `.`
      that is neither its first nor its last character. */
  predicate EmailFormatOk(email: string)
    ensures EmailFormatOk(email) ==> '@' in email && |email| >= 5 && email[0] != '@'
  {
    match Seqs.FirstIndex(email, (c: char) => c == '@')
    case None => false
    case Some(i) =>
      var domain := email[i + 1..];
      0 < i && Plain(email[..i]) && Plain(domain) && |domain| >= 3 && '.' in domain[1..|domain| - 1]
  }

  /** The split-based check accepts exactly the strings the regular expression
      matches. */
  lemma EmailFormatOkIsRegex(s: string)
    ensures EmailFormatOk(s) <==> MatchesEmailRegex(s)
  {
    if EmailFormatOk(s) {
      EmailOkMatches(s);
    }
    if MatchesEmailRegex(s) {
      var i, j :| 0 < i && i + 1 < j && j + 1 < |s| && s[i] == '@' && s[j] == '.'
        && Plain(s[..i]) && Plain(s[i + 1..j]) && Plain(s[j + 1..]);
      MatchIsEmailOk(s, i, j);
    }
  }

  lemma EmailOkMatches(s: string)
    requires EmailFormatOk(s)
    ensures MatchesEmailRegex(s)
  {
    var i := Seqs.FirstIndex(s, (c: char) => c == '@').value;
    var domain := s[i + 1..];
    var inner := domain[1..|domain| - 1];
    var m :| 0 <= m < |inner| && inner[m] == '.';
    var j := i + 2 + m;
    assert s[j] == '.';
    assert s[i + 1..j] == domain[..m + 1];
    assert s[j + 1..] == domain[m + 2..];
    assert Plain(s[i + 1..j]) && Plain(s[j + 1..]);
  }

  lemma MatchIsEmailOk(s: string, i: int, j: int)
    requires 0 < i && i + 1 < j && j + 1 < |s| && s[i] == '@' && s[j] == '.'
    requires Plain(s[..i]) && Plain(s[i + 1..j]) && Plain(s[j + 1..])
    ensures EmailFormatOk(s)
  {
    forall k | 0 <= k < i ensures s[k] != '@' {
      assert s[..i][k] == s[k];
    }
    assert Seqs.FirstIndex(s, (c: char) => c == '@') == Some(i);
    var domain := s[i + 1..];
    forall k | 0 <= k < |domain| ensures !Text.IsSpace(domain[k]) && domain[k] != '@' {
      if k < j - i - 1 {
        assert domain[k] == s[i + 1..j][k];
      } else if k > j - i - 1 {
        assert domain[k] == s[j + 1..][k - (j - i)];
      }
    }
    assert domain[1..|domain| - 1][j - i - 2] == '.';
  }

  const InvalidEmail := "Invalid email format"
  const UsernameTaken := "Username is already taken"
  const EmailTaken := "Email is already taken"
  const ShortPassword := "Password must be at least 6 characters long"

  /** The first failing check of signup, in the order the handler makes them:
      email shape, then the username lookup, then the email lookup, and only then
      the password length. */
  function SignupError(users: seq<User>, username: string, email: string, password: string): (r: Option<string>)
    ensures r.None? <==>
      EmailFormatOk(email) && FindOne(users, ByUsername, username).None? && FindOne(users, ByEmail, email).None? && |password| >= 6
    ensures !EmailFormatOk(email) ==> r == Some(InvalidEmail)
    ensures EmailFormatOk(email) && FindOne(users, ByUsername, username).Some? ==> r == Some(UsernameTaken)
    ensures r == Some(EmailTaken) <==>
      EmailFormatOk(email) && FindOne(users, ByUsername, username).None? && FindOne(users, ByEmail, email).Some?
    ensures r == Some(ShortPassword) <==>
      EmailFormatOk(email) && FindOne(users, ByUsername, username).None? && FindOne(users, ByEmail, email).None? && |password| < 6
  {
    if !EmailFormatOk(email) then Some(InvalidEmail)
    else if FindOne(users, ByUsername, username).Some? then Some(UsernameTaken)
    else if FindOne(users, ByEmail, email).Some? then Some(EmailTaken)
    else if |password| < 6 then Some(ShortPassword)
    else None
  }

  /** The document signup saves: the given names, the hash of the password, and
      every reference array and profile field empty. */
  function NewUser(id: UserId, fullName: string, username: string, email: string, password: string): (u: User)
    ensures u.id == id && u.username == username && u.email == email && Compare(password, u.password)
  {
    User(id, fullName, username, email, Hash(password), [], [], [], "", "", "", "")
  }

  /** POST /api/auth/signup. */
  method Signup(db: Db, fullName: string, username: string, email: string, password: string) returns (r: Response)
    requires db.Valid()
    modifies db
    ensures db.Valid()
    ensures db.posts == old(db.posts) && db.notifications == old(db.notifications) && db.destroyed == old(db.destroyed)
    ensures SignupError(old(db.users), username, email, password).Some? ==>
      && r == ErrorResponse(400, SignupError(old(db.users), username, email, password).value)
      && db.users == old(db.users) && db.nextId == old(db.nextId)
    ensures SignupError(old(db.users), username, email, password).None? ==>
      var u := NewUser(old(db.nextId), fullName, username, email, password);
      && db.users == old(db.users) + [u]
      && db.nextId == old(db.nextId) + 1
      && r == Response(201, PublicBody(ToPublic(u)), SetJwt(u.id))
  {
    var error := SignupError(db.users, username, email, password);
    if error.Some? {
      return ErrorResponse(400, error.value);
    }
    var u := NewUser(db.nextId, fullName, username, email, password);
    db.users := db.users + [u];
    db.nextId := db.nextId + 1;
    r := Response(201, PublicBody(ToPublic(u)), SetJwt(u.id));
  }

  /** POST /api/auth/login: an unknown username and a wrong password fail alike;
      success sets the session cookie and changes nothing else. */
  method Login(db: Db, username: string, password: string) returns (r: Response)
    ensures r.status == 200 || r == ErrorResponse(401, "Invalid Credentials")
    ensures r.status == 200 <==>
      FindOne(db.users, ByUsername, username).Some? && Compare(password, db.users[FindOne(db.users, ByUsername, username).value].password)
    ensures r.status == 200 ==>
      var u := db.users[FindOne(db.users, ByUsername, username).value];
      r == Response(200, PublicBody(ToPublic(u)), SetJwt(u.id))
  {
    var i := FindOne(db.users, ByUsername, username);
    var hash := if i.Some? then db.users[i.value].password else "";
    var valid := Compare(password, hash);
    if i.None? || !valid {
      return ErrorResponse(401, "Invalid Credentials");
    }
    var u := db.users[i.value];
    r := Response(200, PublicBody(ToPublic(u)), SetJwt(u.id));
  }

  /** POST /api/auth/logout: always succeeds, clears the cookie. */
  method Logout() returns (r: Response)
    ensures r.status == 200 && r.cookie == ClearJwt
    ensures r.body == MessageBody("Logged out successfully")
  {
    r := Response(200, MessageBody("Logged out successfully"), ClearJwt);
  }

  /** GET /api/auth/me: the requester's document without its hash; a requester
      that has vanished since the gate ran gets `null`. */
  method GetMe(db: Db, me: UserId) returns (r: Response)
    ensures r.status == 200 && r.cookie == NoCookie
    ensures UserIndex(db.users, me).Some? ==> r.body == ProfileBody(ToProfile(db.users[UserIndex(db.users, me).value]))
    ensures UserIndex(db.users, me).None? ==> r.body == NullBody
  {
    var i := UserIndex(db.users, me);
    if i.None? {
      return Response(200, NullBody, NoCookie);
    }
    r := Response(200, ProfileBody(ToProfile(db.users[i.value])), NoCookie);
  }
}
