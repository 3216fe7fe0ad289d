/** The authentication handlers of the Go backend: the input validators,
    the order in which `Register` and `Login` reject a request, and the
    in-memory session table `userSessions` that `Login`, `Logout` and every
    cookie lookup share.

    Go strings are byte strings: here each `char` of a string stands for
    one byte, so `|s|` is Go's `len(s)`. The database, bcrypt, the JSON
    decoder and the clock are inputs: the request is `None` when decoding
    failed, and the outcomes of hashing, inserting and looking up a user
    are parameters. */
module Handlers {
  import opened Wrappers
  import Strings

  // ---------------------------------------------------------------------
  // Character classes of the validators' regular expressions
  // ---------------------------------------------------------------------

  predicate AsciiLetter(c: char) {
    ('a' <= c <= 'z') || ('A' <= c <= 'Z')
  }

  predicate AsciiDigit(c: char) {
    '0' <= c <= '9'
  }

  /** `[a-zA-Z0-9._%+\-]`, the part before the `@`. */
  predicate LocalChar(c: char) {
    AsciiLetter(c) || AsciiDigit(c) || c == '.' || c == '_' || c == '%' || c == '+' || c == '-'
  }

  /** `[a-zA-Z0-9.\-]`, the domain before the last dot. */
  predicate DomainChar(c: char) {
    AsciiLetter(c) || AsciiDigit(c) || c == '.' || c == '-'
  }

  /** `[a-zA-Z0-9_]`, the characters of a user name. */
  predicate WordChar(c: char) {
    AsciiLetter(c) || AsciiDigit(c) || c == '_'
  }

  // ---------------------------------------------------------------------
  // validateEmail
  // ---------------------------------------------------------------------

  /** `s` reads `local@domain.tld` with the `@` at `at` and the dot at
      `dot`: a non-empty local part, a non-empty domain and a top-level
      domain of two or more letters, each from its character class. */
  predicate EmailSplit(s: string, at: int, dot: int) {
    0 < at && at + 1 < dot && dot + 3 <= |s| && s[at] == '@' && s[dot] == '.'
    && (forall k :: 0 <= k < at ==> LocalChar(s[k]))
    && (forall k :: at < k < dot ==> DomainChar(s[k]))
    && (forall k :: dot < k < |s| ==> AsciiLetter(s[k]))
  }

  /** The whole string matches `^[a-zA-Z0-9._%+\-]+@[a-zA-Z0-9.\-]+\.[a-zA-Z]{2,}$`:
      some placement of the `@` and of the dot before the top-level domain
      fits. */
  ghost predicate MatchesEmailPattern(s: string) {
    exists at, dot :: EmailSplit(s, at, dot)
  }

  /** The first position of `c` in `s`, or -1. */
  function FirstIndex(s: string, c: char): (r: int)
    ensures -1 <= r < |s|
    ensures r == -1 <==> c !in s
    ensures r >= 0 ==> s[r] == c && forall k :: 0 <= k < r ==> s[k] != c
    decreases |s|
  {
    if s == [] then -1
    else if s[0] == c then 0
    else
      var rest := FirstIndex(s[1..], c);
      assert forall k :: 1 <= k < |s| ==> s[k] == s[1..][k - 1];
      if rest == -1 then -1 else rest + 1
  }

  /** The last position of `c` in `s`, or -1. */
  function LastIndex(s: string, c: char): (r: int)
    ensures -1 <= r < |s|
    ensures r == -1 <==> c !in s
    ensures r >= 0 ==> s[r] == c && forall k :: r < k < |s| ==> s[k] != c
    decreases |s|
  {
    if s == [] then -1
    else if s[|s| - 1] == c then |s| - 1
    else
      var init := s[..|s| - 1];
      assert forall k :: 0 <= k < |init| ==> s[k] == init[k];
      assert c in s ==> c in init;
      LastIndex(init, c)
  }

  /** Since neither the local part nor the domain may hold an `@` and the
      top-level domain holds no dot, the only possible placement is the
      first `@` and the last dot. */
  lemma EmailPlacement(s: string)
    ensures MatchesEmailPattern(s) <==>
      FirstIndex(s, '@') >= 0 && EmailSplit(s, FirstIndex(s, '@'), LastIndex(s, '.'))
  {
    if MatchesEmailPattern(s) {
      var at, dot :| EmailSplit(s, at, dot);
      assert forall k :: 0 <= k < at ==> s[k] != '@';
      assert forall k :: dot < k < |s| ==> s[k] != '.';
      assert FirstIndex(s, '@') == at;
      assert LastIndex(s, '.') == dot;
    }
  }

  /** `validateEmail`: the pattern matches and the address is at most 255
      bytes long. */
  function ValidateEmail(email: string): (ok: bool)
    ensures ok <==> MatchesEmailPattern(email) && |email| <= 255
  {
    EmailPlacement(email);
    var at := FirstIndex(email, '@');
    |email| <= 255 && at >= 0 && EmailSplit(email, at, LastIndex(email, '.'))
  }

  /** The shortest kind of address the pattern accepts. */
  lemma EmailAcceptsShort()
    ensures ValidateEmail("a@b.co")
  {
    assert EmailSplit("a@b.co", 1, 3);
  }

  /** Dots and plus signs may appear before the `@`, and the domain may
      have several labels. */
  lemma EmailAcceptsDotted()
    ensures ValidateEmail("x.y+z@m.ex.org")
  {
    assert EmailSplit("x.y+z@m.ex.org", 5, 10);
  }

  /** A one-letter top-level domain is refused. */
  lemma EmailRejectsShortTld()
    ensures !ValidateEmail("a@b.c")
  {
  }

  /** A second `@` is refused. */
  lemma EmailRejectsTwoAts()
    ensures !ValidateEmail("a@b@c.co")
  {
    var s := "a@b@c.co";
    assert FirstIndex(s, '@') == 1;
    assert LastIndex(s, '.') == 5;
    assert !DomainChar(s[3]);
  }

  // ---------------------------------------------------------------------
  // validatePassword
  // ---------------------------------------------------------------------

  /** Some byte of `p` is an ASCII letter. */
  predicate HasLetter(p: string) {
    exists i :: 0 <= i < |p| && AsciiLetter(p[i])
  }

  /** Some byte of `p` is an ASCII digit. */
  predicate HasDigit(p: string) {
    exists i :: 0 <= i < |p| && AsciiDigit(p[i])
  }

  /** The password rule: 8 to 72 bytes (bcrypt's input limit), with at
      least one letter and at least one digit. */
  predicate PasswordOk(p: string) {
    8 <= |p| <= 72 && HasLetter(p) && HasDigit(p)
  }

  /** `validatePassword`: the length test first, then one pass that notes
      whether a letter and a digit occur. Go walks the runes of the
      string; a rune that is not ASCII is never a letter or a digit of
      these ranges and contains no ASCII byte, so walking the bytes finds
      the same answer. */
  method ValidatePassword(password: string) returns (ok: bool)
    ensures ok == PasswordOk(password)
  {
    if |password| < 8 || |password| > 72 {
      return false;
    }
    var hasLetter := false;
    var hasNumber := false;
    for i := 0 to |password|
      invariant hasLetter <==> exists j :: 0 <= j < i && AsciiLetter(password[j])
      invariant hasNumber <==> exists j :: 0 <= j < i && AsciiDigit(password[j])
    {
      var c := password[i];
      if AsciiLetter(c) {
        hasLetter := true;
      }
      if AsciiDigit(c) {
        hasNumber := true;
      }
    }
    ok := hasLetter && hasNumber;
  }

  lemma PasswordExamples()
    ensures PasswordOk("abcdefg1")
    ensures !PasswordOk("abcdefgh")
    ensures !PasswordOk("12345678")
    ensures !PasswordOk("abc1234")
  {
    assert AsciiLetter("abcdefg1"[0]) && AsciiDigit("abcdefg1"[7]);
  }

  // ---------------------------------------------------------------------
  // validateUsername
  // ---------------------------------------------------------------------

  /** `^[a-zA-Z0-9_]+$`: one or more word characters and nothing else. */
  predicate MatchesUsernamePattern(s: string) {
    |s| >= 1 && forall k :: 0 <= k < |s| ==> WordChar(s[k])
  }

  /** `validateUsername`: 3 to 30 bytes that match the pattern. The length
      bound makes the pattern's "at least one" redundant, so a name is valid
      exactly when its length is in range and every byte is a word
      character; in particular it never holds '@', '.' or white space. */
  function ValidateUsername(username: string): (ok: bool)
    ensures ok <==> 3 <= |username| <= 30 && forall k :: 0 <= k < |username| ==> WordChar(username[k])
    ensures ok ==> forall k :: 0 <= k < |username| ==>
      username[k] != '@' && username[k] != '.' && username[k] != ' '
  {
    if |username| < 3 || |username| > 30 then false
    else MatchesUsernamePattern(username)
  }

  /** A valid user name is never a valid e-mail address, since it has no `@`. */
  lemma UsernameIsNotEmail(name: string)
    ensures ValidateUsername(name) ==> !ValidateEmail(name)
  {
    if ValidateUsername(name) {
      assert forall k :: 0 <= k < |name| ==> name[k] != '@';
      assert !MatchesEmailPattern(name);
    }
  }

  // ---------------------------------------------------------------------
  // Replies
  // ---------------------------------------------------------------------

  /** What a handler writes: an error status with its message (the text
      `http.Error` writes, without its trailing newline), or a success
      status with the id of the user encoded in the body. */
  datatype Reply = Failure(status: int, message: string) | Success(status: int, userId: int)

  const StatusOK: int := 200
  const StatusCreated: int := 201
  const StatusBadRequest: int := 400
  const StatusUnauthorized: int := 401
  const StatusMethodNotAllowed: int := 405
  const StatusConflict: int := 409
  const StatusInternalServerError: int := 500

  const MethodNotAllowed: string := "Method not allowed"
  const InvalidRequest: string := "Invalid request"
  const AllFieldsRequired: string := "All fields are required"
  const InvalidEmailFormat: string := "Invalid email format"
  const PasswordRule: string := "Password must be 8-72 characters with at least one letter and one number"
  const UsernameRule: string := "Username must be 3-30 characters, alphanumeric and underscore only"
  const InternalError: string := "Internal server error"
  const UsernameTaken: string := "Username already taken"
  const EmailTaken: string := "Email already registered"
  const UserExists: string := "User already exists"
  const CredentialsRequired: string := "Email and password are required"
  const BadCredentials: string := "Invalid email or password"

  const UsernameConstraint: string := "UNIQUE constraint failed: users.username"
  const EmailConstraint: string := "UNIQUE constraint failed: users.email"

  // ---------------------------------------------------------------------
  // Register
  // ---------------------------------------------------------------------

  datatype RegisterRequest = RegisterRequest(email: string, username: string, password: string)

  /** The outcome of the `INSERT`: the new row's id, or the driver's error text. */
  datatype InsertResult = Inserted(id: int) | InsertFailed(error: string)

  /** The request passes every check `Register` makes before hashing. */
  predicate Acceptable(req: RegisterRequest) {
    req.email != [] && req.password != [] && req.username != []
    && ValidateEmail(req.email) && PasswordOk(req.password) && ValidateUsername(req.username)
  }

  /** The conflict message for a failed insert: the user name constraint
      is looked for first, then the e-mail constraint; any other error is
      reported as an existing user. */
  function ConflictMessage(error: string): (m: string)
    ensures m == UsernameTaken <==> Strings.Contains(error, UsernameConstraint)
    ensures m == EmailTaken <==>
      !Strings.Contains(error, UsernameConstraint) && Strings.Contains(error, EmailConstraint)
    ensures m == UserExists <==>
      !Strings.Contains(error, UsernameConstraint) && !Strings.Contains(error, EmailConstraint)
  {
    if Strings.Contains(error, UsernameConstraint) then UsernameTaken
    else if Strings.Contains(error, EmailConstraint) then EmailTaken
    else UserExists
  }

  /** An error that names both constraints is reported as a taken user name. */
  lemma ConflictPrefersUsername()
    ensures ConflictMessage(UsernameConstraint + ", " + EmailConstraint) == UsernameTaken
  {
    assert Strings.OccursAt(UsernameConstraint + ", " + EmailConstraint, UsernameConstraint, 0);
  }

  /** `Register`: the checks in the order the handler makes them. Each
      rejection happens exactly when every earlier check passed and its
      own failed, and a user is created only from an acceptable request
      whose password hashed and whose row was inserted. */
  function Register(httpMethod: string, req: Option<RegisterRequest>, hashFails: bool, insert: InsertResult): (r: Reply)
    ensures r == Failure(StatusMethodNotAllowed, MethodNotAllowed) <==> httpMethod != "POST"
    ensures r == Failure(StatusBadRequest, InvalidRequest) <==> httpMethod == "POST" && req.None?
    ensures r == Failure(StatusBadRequest, AllFieldsRequired) <==>
      httpMethod == "POST" && req.Some?
      && (req.value.email == [] || req.value.password == [] || req.value.username == [])
    ensures r == Failure(StatusBadRequest, InvalidEmailFormat) <==>
      httpMethod == "POST" && req.Some? && req.value.email != [] && req.value.password != []
      && req.value.username != [] && !ValidateEmail(req.value.email)
    ensures r == Failure(StatusBadRequest, PasswordRule) <==>
      httpMethod == "POST" && req.Some? && req.value.email != [] && req.value.password != []
      && req.value.username != [] && ValidateEmail(req.value.email) && !PasswordOk(req.value.password)
    ensures r == Failure(StatusBadRequest, UsernameRule) <==>
      httpMethod == "POST" && req.Some? && req.value.email != [] && req.value.password != []
      && req.value.username != [] && ValidateEmail(req.value.email) && PasswordOk(req.value.password)
      && !ValidateUsername(req.value.username)
    ensures r == Failure(StatusInternalServerError, InternalError) <==>
      httpMethod == "POST" && req.Some? && Acceptable(req.value) && hashFails
    ensures r.status == StatusConflict <==>
      httpMethod == "POST" && req.Some? && Acceptable(req.value) && !hashFails && insert.InsertFailed?
    ensures r.status == StatusConflict ==> r == Failure(StatusConflict, ConflictMessage(insert.error))
    ensures r.Success? <==>
      httpMethod == "POST" && req.Some? && Acceptable(req.value) && !hashFails && insert.Inserted?
    ensures r.Success? ==> r == Success(StatusCreated, insert.id)
  {
    if httpMethod != "POST" then Failure(StatusMethodNotAllowed, MethodNotAllowed)
    else if req.None? then Failure(StatusBadRequest, InvalidRequest)
    else
      var q := req.value;
      if q.email == [] || q.password == [] || q.username == [] then Failure(StatusBadRequest, AllFieldsRequired)
      else if !ValidateEmail(q.email) then Failure(StatusBadRequest, InvalidEmailFormat)
      else if !PasswordOk(q.password) then Failure(StatusBadRequest, PasswordRule)
      else if !ValidateUsername(q.username) then Failure(StatusBadRequest, UsernameRule)
      else if hashFails then Failure(StatusInternalServerError, InternalError)
      else match insert
        case InsertFailed(error) => Failure(StatusConflict, ConflictMessage(error))
        case Inserted(id) => Success(StatusCreated, id)
  }

  /** An empty password is reported as a missing field, not as a weak
      password, and an invalid address hides every later problem. */
  lemma RegisterReportsFirstProblem(email: string, username: string, hashFails: bool, insert: InsertResult)
    ensures Register("POST", Some(RegisterRequest(email, username, "")), hashFails, insert)
      == Failure(StatusBadRequest, AllFieldsRequired)
    ensures email != [] && username != [] && !ValidateEmail(email) ==>
      Register("POST", Some(RegisterRequest(email, username, "x")), hashFails, insert)
      == Failure(StatusBadRequest, InvalidEmailFormat)
  {
  }

  // ---------------------------------------------------------------------
  // Login and the session table
  // ---------------------------------------------------------------------

  datatype LoginRequest = LoginRequest(email: string, password: string)

  /** The user query by e-mail: the row found (and whether bcrypt accepts
      the password for its hash), no row, or another database error. */
  datatype Lookup = Found(id: int, passwordMatches: bool) | NoRows | QueryFailed

  /** The reply of `Login`. A wrong password and an unknown address get the
      same answer. */
  function LoginReply(httpMethod: string, req: Option<LoginRequest>, lookup: Lookup): (r: Reply)
    ensures r.Success? <==>
      httpMethod == "POST" && req.Some? && req.value.email != [] && req.value.password != []
      && ValidateEmail(req.value.email) && lookup.Found? && lookup.passwordMatches
    ensures r.Success? ==> r == Success(StatusOK, lookup.id)
    ensures r == Failure(StatusBadRequest, CredentialsRequired) <==>
      httpMethod == "POST" && req.Some? && (req.value.email == [] || req.value.password == [])
    ensures r == Failure(StatusUnauthorized, BadCredentials) <==>
      httpMethod == "POST" && req.Some? && req.value.email != [] && req.value.password != []
      && ValidateEmail(req.value.email) && (lookup.NoRows? || (lookup.Found? && !lookup.passwordMatches))
    ensures r == Failure(StatusInternalServerError, InternalError) <==>
      httpMethod == "POST" && req.Some? && req.value.email != [] && req.value.password != []
      && ValidateEmail(req.value.email) && lookup.QueryFailed?
  {
    if httpMethod != "POST" then Failure(StatusMethodNotAllowed, MethodNotAllowed)
    else if req.None? then Failure(StatusBadRequest, InvalidRequest)
    else if req.value.email == [] || req.value.password == [] then Failure(StatusBadRequest, CredentialsRequired)
    else if !ValidateEmail(req.value.email) then Failure(StatusBadRequest, InvalidEmailFormat)
    else match lookup
      case NoRows => Failure(StatusUnauthorized, BadCredentials)
      case QueryFailed => Failure(StatusInternalServerError, InternalError)
      case Found(id, matches) =>
        if matches then Success(StatusOK, id) else Failure(StatusUnauthorized, BadCredentials)
  }

  /** The text `time.Now().Format("000000000")` produces. Go's layout
      language knows fractional seconds only after a '.' or ',', so this
      layout holds no element and is printed as it stands. */
  const NanosText: string := "000000000"

  /** `generateSessionID`: the address, the time stamp to the second
      (`Format("20060102150405")`, from the clock, an input) and the
      constant third part, joined by dashes. */
  function SessionIdFor(email: string, stamp: string): (id: string)
    ensures |id| == |email| + |stamp| + 11
    ensures id[..|email|] == email && id[|email| + 1..|email| + 1 + |stamp|] == stamp
    ensures id[|id| - 9..] == NanosText
  {
    email + "-" + stamp + "-" + NanosText
  }

  /** The session id depends on the clock only through the stamp to the
      second: for one address two ids agree exactly when the stamps do. */
  lemma {:induction false} SessionIdSameSecond(email: string, stamp1: string, stamp2: string)
    ensures SessionIdFor(email, stamp1) == SessionIdFor(email, stamp2) <==> stamp1 == stamp2
  {
    var id1, id2 := SessionIdFor(email, stamp1), SessionIdFor(email, stamp2);
    if id1 == id2 {
      assert |stamp1| == |stamp2|;
      assert stamp1 == id1[|email| + 1..|email| + 1 + |stamp1|];
    }
  }

  /** `getUserIDFromCookie` on a table: no cookie, or a cookie the table
      does not know, gives `(0, false)`; otherwise the user behind it. */
  function UserIdIn(sessions: map<string, int>, cookie: Option<string>): (res: (int, bool))
    ensures res.1 <==> cookie.Some? && cookie.value in sessions
    ensures res.1 ==> res.0 == sessions[cookie.value]
    ensures !res.1 ==> res.0 == 0
  {
    match cookie
    case None => (0, false)
    case Some(value) => if value in sessions then (sessions[value], true) else (0, false)
  }

  /** The table after a successful login of `userId`: every session of that
      user is dropped, then the session of the cookie the request carried,
      then the new session is added. */
  function LoggedIn(sessions: map<string, int>, userId: int, cookie: Option<string>, sessionId: string): map<string, int> {
    (map k | k in sessions && sessions[k] != userId && cookie != Some(k) :: sessions[k])[sessionId := userId]
  }

  /** After a login the user has exactly one session, the new one, and the
      new cookie resolves to the user. */
  lemma LoginLeavesOneSession(sessions: map<string, int>, userId: int, cookie: Option<string>, sessionId: string)
    ensures var t := LoggedIn(sessions, userId, cookie, sessionId);
      (forall k :: k in t && t[k] == userId ==> k == sessionId)
      && UserIdIn(t, Some(sessionId)) == (userId, true)
  {
  }

  /** A login touches no other user's session except the one named by the
      request's old cookie, and that one (unless it is the new id) is gone. */
  lemma LoginKeepsOthers(sessions: map<string, int>, userId: int, cookie: Option<string>, sessionId: string)
    ensures var t := LoggedIn(sessions, userId, cookie, sessionId);
      (forall k :: k in sessions && sessions[k] != userId && cookie != Some(k) ==> k in t && (k != sessionId ==> t[k] == sessions[k]))
      && (forall k :: k in t && k != sessionId ==> k in sessions && t[k] == sessions[k])
      && (cookie.Some? && cookie.value != sessionId ==> cookie.value !in t)
  {
  }

  /** The table after `Logout`: the cookie's session, if any, is gone. */
  function LoggedOut(sessions: map<string, int>, cookie: Option<string>): (t: map<string, int>)
    ensures cookie.Some? ==> cookie.value !in t && UserIdIn(t, cookie) == (0, false)
    ensures forall k :: k in t <==> k in sessions && cookie != Some(k)
    ensures forall k :: k in t ==> t[k] == sessions[k]
  {
    match cookie
    case None => sessions
    case Some(value) => sessions - {value}
  }

  /** Logging in and then out with the new cookie leaves the user with no
      session at all. */
  lemma LoginThenLogout(sessions: map<string, int>, userId: int, cookie: Option<string>, sessionId: string)
    ensures var t := LoggedOut(LoggedIn(sessions, userId, cookie, sessionId), Some(sessionId));
      forall k :: k in t ==> t[k] != userId
  {
    LoginLeavesOneSession(sessions, userId, cookie, sessionId);
  }

  /** The global `userSessions` table, from session id to user id. */
  class SessionStore {
    var userSessions: map<string, int>

    constructor ()
      ensures userSessions == map[]
    {
      userSessions := map[];
    }

    /** `getUserIDFromCookie`. */
    function UserIdFromCookie(cookie: Option<string>): (res: (int, bool))
      reads this
      ensures res.1 <==> cookie.Some? && cookie.value in userSessions
      ensures res.1 ==> res.0 == userSessions[cookie.value]
    {
      UserIdIn(userSessions, cookie)
    }

    /** `Login`: the reply, and on success the table update, which first
        walks the table dropping every entry of the user, then drops the
        old cookie's entry and adds the new session. A rejected login
        leaves the table alone. */
    method Login(httpMethod: string, req: Option<LoginRequest>, lookup: Lookup, cookie: Option<string>, sessionId: string)
      returns (r: Reply)
      modifies this
      ensures r == LoginReply(httpMethod, req, lookup)
      ensures r.Success? ==> userSessions == LoggedIn(old(userSessions), lookup.id, cookie, sessionId)
      ensures !r.Success? ==> userSessions == old(userSessions)
    {
      r := LoginReply(httpMethod, req, lookup);
      if !r.Success? {
        return;
      }
      var userId := lookup.id;
      ghost var start := userSessions;
      var keys := userSessions.Keys;
      while keys != {}
        invariant keys <= start.Keys
        invariant userSessions == map k | k in start && (k in keys || start[k] != userId) :: start[k]
        decreases keys
      {
        var k :| k in keys;
        if userSessions[k] == userId {
          userSessions := userSessions - {k};
        }
        keys := keys - {k};
      }
      if cookie.Some? {
        userSessions := userSessions - {cookie.value};
      }
      userSessions := userSessions[sessionId := userId];
    }

    /** `Logout`: the cookie's session, if there is a cookie, is removed. */
    method Logout(cookie: Option<string>)
      modifies this
      ensures userSessions == LoggedOut(old(userSessions), cookie)
    {
      if cookie.Some? {
        userSessions := userSessions - {cookie.value};
      }
    }
  }

  /** Two logins of the same user into an empty table, without cookies:
      only the second session id resolves. */
  lemma LoginTwice(userId: int, id1: string, id2: string)
    requires id1 != id2
    ensures var t := LoggedIn(LoggedIn(map[], userId, None, id1), userId, None, id2);
      UserIdIn(t, Some(id1)) == (0, false) && UserIdIn(t, Some(id2)) == (userId, true)
  {
    var t1 := LoggedIn(map[], userId, None, id1);
    assert t1 == map[id1 := userId];
    LoginLeavesOneSession(t1, userId, None, id2);
  }

  /** Two logins of one user within the same second get the same session
      id, so the second login replaces the first session by itself and both
      browsers' cookies go on resolving to the user. */
  lemma LoginTwiceSameSecond(userId: int, email: string, stamp: string)
    ensures var id := SessionIdFor(email, stamp);
      var t := LoggedIn(LoggedIn(map[], userId, None, id), userId, None, SessionIdFor(email, stamp));
      UserIdIn(t, Some(id)) == (userId, true) && t.Keys == {id}
  {
    var id := SessionIdFor(email, stamp);
    var t1 := LoggedIn(map[], userId, None, id);
    assert t1 == map[id := userId];
    LoginLeavesOneSession(t1, userId, None, id);
  }

  /** Two logins of the same user from two browsers: the first browser's
      cookie stops working. */
  method SecondLoginEndsFirst(userId: int) returns (first: (int, bool), second: (int, bool))
    ensures first == (0, false) && second == (userId, true)
  {
    var store := new SessionStore();
    var req := Some(LoginRequest("a@b.co", "abcdefg1"));
    EmailAcceptsShort();
    var r1 := store.Login("POST", req, Found(userId, true), None, "a@b.co-1-1");
    assert r1.Success?;
    var r2 := store.Login("POST", req, Found(userId, true), None, "a@b.co-2-2");
    assert r2.Success?;
    LoginTwice(userId, "a@b.co-1-1", "a@b.co-2-2");
    first := store.UserIdFromCookie(Some("a@b.co-1-1"));
    second := store.UserIdFromCookie(Some("a@b.co-2-2"));
  }
}
