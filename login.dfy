/**
 * index.php: the brute-force lockout and the login form handler. The PHP
 * session becomes a `LoginSession`; the clock, the posted fields, the user
 * table, the result of `password_verify`, a database failure and the fresh
 * CSRF token are inputs of one request.
 */
module Login {
  import opened Wrappers
  import opened Text

  /** `$max_attempts`. */
  const MaxAttempts: int := 5
  /** `$lockout_time`: five minutes in seconds. */
  const LockoutTime: int := 300

  /** A row of the `users` table as far as the login uses it. */
  datatype UserRow = UserRow(id: int, username: string)

  /** How one request ends. */
  datatype Outcome =
    | LockedOut(minutes: int)       // `die` with the wait in minutes
    | CsrfFailed                    // `die("CSRF token validation failed")`
    | LoggedIn                      // redirect to the dashboard and `exit`
    | Form(error: Option<LoginError>)   // the login page, with an error message or none

  /** The three errors the form can show. */
  datatype LoginError = EmptyFields | LoginFailed | SystemError

  /** The text `$error` holds for each error. */
  function Message(e: LoginError): (r: string)
    ensures r != ""
  {
    match e
    case EmptyFields => "Username dan password harus diisi!"
    case LoginFailed => "Login gagal! Periksa username/password."
    case SystemError => "Terjadi kesalahan sistem. Silakan coba lagi nanti."
  }

  /** `ceil($remaining_time / 60)` for a positive number of seconds: the least whole number of minutes covering it. */
  function CeilMinutes(remaining: int): (m: int)
    requires remaining > 0
    ensures m >= 1 && (m - 1) * 60 < remaining <= m * 60
  {
    (remaining + 59) / 60
  }

  /** Inside the lockout window the reported wait is between one and five minutes. */
  lemma LockoutWaitBounds(elapsed: int)
    requires 0 <= elapsed < LockoutTime
    ensures 1 <= CeilMinutes(LockoutTime - elapsed) <= 5
    ensures elapsed == 0 ==> CeilMinutes(LockoutTime - elapsed) == 5
    ensures elapsed >= 240 ==> CeilMinutes(LockoutTime - elapsed) == 1
  {
  }

  /** The `$_SESSION` keys index.php reads and writes. */
  datatype SessionData = SessionData(
    loginAttempts: Option<int>,   // `login_attempts`, absent until the first request
    lastAttemptTime: int,         // `last_attempt_time`
    csrfToken: Option<string>,
    userId: Option<int>,
    username: Option<string>,
    lastActivity: Option<int>)

  /** What one request posts: the form fields that were sent. */
  datatype Post = Post(csrfToken: Option<string>, username: Option<string>, password: Option<string>)

  /**
   * What the database and the runtime answer for one request: the user rows
   * by name, whether `password_verify` accepts the password, whether the query
   * throws, and the token `bin2hex(random_bytes(32))` would make.
   */
  datatype Oracles = Oracles(users: map<string, UserRow>, passwordVerifies: bool, dbFails: bool, freshToken: string)

  /** The session after the first-request initialisation: the counter at 0 and the last attempt now. */
  function Initialised(s: SessionData, now: int): SessionData {
    if s.loginAttempts.None? then s.(loginAttempts := Some(0), lastAttemptTime := now) else s
  }

  /** The user name as the form handler reads it: trimmed, empty when not posted. */
  function PostedName(post: Post): string {
    PhpTrim(if post.username.Some? then post.username.value else "")
  }

  function PostedPassword(post: Post): string {
    if post.password.Some? then post.password.value else ""
  }

  /** The token check: a token was posted and the session holds exactly that token. */
  predicate CsrfValid(s: SessionData, post: Post) {
    post.csrfToken.Some? && s.csrfToken.Some? && post.csrfToken.value == s.csrfToken.value
  }

  /** The closing step of a page that is rendered: a token is made when the session has none. */
  function WithToken(s: SessionData, freshToken: string): SessionData {
    if s.csrfToken.None? || PhpEmpty(s.csrfToken.value) then s.(csrfToken := Some(freshToken)) else s
  }

  /** The credential step of a post that passed the token check, given the trimmed name and the password. */
  function Authenticate(s: SessionData, name: string, password: string, oracles: Oracles, now: int): (Outcome, SessionData)
    requires s.loginAttempts.Some?
  {
    if PhpEmpty(name) || PhpEmpty(password) then (Form(Some(EmptyFields)), WithToken(s, oracles.freshToken))
    else if oracles.dbFails then (Form(Some(SystemError)), WithToken(s, oracles.freshToken))
    else if name in oracles.users && oracles.passwordVerifies then
      (LoggedIn, s.(loginAttempts := Some(0), userId := Some(oracles.users[name].id),
                    username := Some(oracles.users[name].username), lastActivity := Some(now)))
    else
      (Form(Some(LoginFailed)),
       WithToken(s.(loginAttempts := Some(s.loginAttempts.value + 1), lastAttemptTime := now), oracles.freshToken))
  }

  /** Whether the session is inside the lockout window at time `now`: five attempts and less than five minutes since the last. */
  predicate Locked(s: SessionData, now: int)
    requires s.loginAttempts.Some?
  {
    s.loginAttempts.value >= MaxAttempts && now - s.lastAttemptTime < LockoutTime
  }

  /** Outside the window a full counter is reset to 0; a lower counter is left. */
  function Unlocked(s: SessionData): SessionData
    requires s.loginAttempts.Some?
  {
    if s.loginAttempts.value >= MaxAttempts then s.(loginAttempts := Some(0)) else s
  }

  /** What one request does to the session at time `now`, and how it ends; `post` is None for a GET. */
  function Respond(s0: SessionData, post: Option<Post>, oracles: Oracles, now: int): (Outcome, SessionData) {
    var s := Initialised(s0, now);
    if Locked(s, now) then (LockedOut(CeilMinutes(LockoutTime - (now - s.lastAttemptTime))), s)
    else
      var s1 := Unlocked(s);
      if post.None? then (Form(None), WithToken(s1, oracles.freshToken))
      else if !CsrfValid(s1, post.value) then (CsrfFailed, s1)
      else Authenticate(s1, PostedName(post.value), PostedPassword(post.value), oracles, now)
  }

  /** The counter stays within 0..5 from one request to the next. */
  predicate AttemptsInRange(s: SessionData) {
    s.loginAttempts.None? || 0 <= s.loginAttempts.value <= MaxAttempts
  }

  /**
   * The credential step on its own: a failure adds one to the counter, a
   * login clears it, the other errors leave it; only a login touches the user
   * keys; every error leaves a token.
   */
  lemma AuthenticateFacts(s: SessionData, name: string, password: string, oracles: Oracles, now: int)
    requires s.loginAttempts.Some?
    ensures var (o, r) := Authenticate(s, name, password, oracles, now);
      && r.loginAttempts.Some?
      && (o == Form(Some(LoginFailed)) ==> r.loginAttempts.value == s.loginAttempts.value + 1 && r.lastAttemptTime == now)
      && (o == LoggedIn ==> r.loginAttempts.value == 0)
      && (o.Form? && o != Form(Some(LoginFailed)) ==> r.loginAttempts == s.loginAttempts)
      && (o != LoggedIn ==> r.userId == s.userId && r.username == s.username && r.lastActivity == s.lastActivity)
      && (o.Form? ==> r.csrfToken.Some? && (!PhpEmpty(r.csrfToken.value) || r.csrfToken.value == oracles.freshToken))
      && (o.Form? && s.csrfToken.Some? && !PhpEmpty(s.csrfToken.value) ==> r.csrfToken == s.csrfToken)
      && (o.LoggedIn? || o.Form?)
  {
  }

  /** The prelude's state: after initialisation and unlock the counter is below five. */
  lemma UnlockedBelowMax(s0: SessionData, now: int)
    requires AttemptsInRange(s0)
    ensures var s := Initialised(s0, now);
      !Locked(s, now) ==> 0 <= Unlocked(s).loginAttempts.value < MaxAttempts
  {
  }

  lemma RespondKeepsAttemptsInRange(s0: SessionData, post: Option<Post>, oracles: Oracles, now: int)
    requires AttemptsInRange(s0)
    ensures Respond(s0, post, oracles, now).1.loginAttempts.Some?
    ensures AttemptsInRange(Respond(s0, post, oracles, now).1)
  {
    var s := Initialised(s0, now);
    if !Locked(s, now) && post.Some? && CsrfValid(Unlocked(s), post.value) {
      UnlockedBelowMax(s0, now);
      AuthenticateFacts(Unlocked(s), PostedName(post.value), PostedPassword(post.value), oracles, now);
    }
  }

  /**
   * Inside the lockout window nothing gets past the prelude: whatever is
   * posted, the request ends locked out, no login happens and the session is
   * left as it was.
   */
  lemma LockedOutWhateverIsPosted(s0: SessionData, post: Option<Post>, oracles: Oracles, now: int)
    requires s0.loginAttempts.Some? && s0.loginAttempts.value >= MaxAttempts
    requires 0 <= now - s0.lastAttemptTime < LockoutTime
    ensures Respond(s0, post, oracles, now).0.LockedOut?
    ensures 1 <= Respond(s0, post, oracles, now).0.minutes <= 5
    ensures Respond(s0, post, oracles, now).1 == s0
  {
    LockoutWaitBounds(now - s0.lastAttemptTime);
  }

  /**
   * A request logs the user in exactly when it is outside the lockout window,
   * posts the session's token, a non-empty name and password, the query
   * succeeds, the name is a user and the password verifies; it then stores the
   * user and clears the counter.
   */
  lemma LoginExactlyWhenCredentialsHold(s0: SessionData, post: Option<Post>, oracles: Oracles, now: int)
    ensures var s := Initialised(s0, now);
      Respond(s0, post, oracles, now).0 == LoggedIn <==>
        && !Locked(s, now) && post.Some? && CsrfValid(Unlocked(s), post.value)
        && !PhpEmpty(PostedName(post.value)) && !PhpEmpty(PostedPassword(post.value))
        && !oracles.dbFails && PostedName(post.value) in oracles.users && oracles.passwordVerifies
    ensures Respond(s0, post, oracles, now).0 == LoggedIn ==>
      var r := Respond(s0, post, oracles, now).1;
      && r.userId == Some(oracles.users[PostedName(post.value)].id)
      && r.username == Some(oracles.users[PostedName(post.value)].username)
      && r.loginAttempts == Some(0) && r.lastActivity == Some(now)
  {
  }

  /** A wrong name or password counts one attempt more and records its time. */
  lemma FailedLoginCounts(s0: SessionData, post: Option<Post>, oracles: Oracles, now: int)
    ensures var s := Initialised(s0, now);
      Respond(s0, post, oracles, now).0 == Form(Some(LoginFailed)) ==>
        && Respond(s0, post, oracles, now).1.loginAttempts == Some(Unlocked(s).loginAttempts.value + 1)
        && Respond(s0, post, oracles, now).1.lastAttemptTime == now
  {
    var s := Initialised(s0, now);
    if !Locked(s, now) && post.Some? && CsrfValid(Unlocked(s), post.value) {
      AuthenticateFacts(Unlocked(s), PostedName(post.value), PostedPassword(post.value), oracles, now);
    }
  }

  /** Only a login changes who is logged in: a refused request leaves the user keys alone. */
  lemma OnlyLoginSetsUser(s0: SessionData, post: Option<Post>, oracles: Oracles, now: int)
    ensures Respond(s0, post, oracles, now).0 != LoggedIn ==>
      && Respond(s0, post, oracles, now).1.userId == s0.userId
      && Respond(s0, post, oracles, now).1.username == s0.username
      && Respond(s0, post, oracles, now).1.lastActivity == s0.lastActivity
  {
    var s := Initialised(s0, now);
    assert s.userId == s0.userId && s.username == s0.username && s.lastActivity == s0.lastActivity;
    if !Locked(s, now) {
      var s1 := Unlocked(s);
      assert s1.userId == s0.userId && s1.username == s0.username && s1.lastActivity == s0.lastActivity;
      if post.Some? && CsrfValid(s1, post.value) {
        AuthenticateFacts(s1, PostedName(post.value), PostedPassword(post.value), oracles, now);
      }
    }
  }

  /**
   * Every rendered form leaves a token in the session: the one it had when
   * that was not empty, which is then kept unchanged, or a fresh one.
   */
  lemma FormCarriesToken(s0: SessionData, post: Option<Post>, oracles: Oracles, now: int)
    ensures Respond(s0, post, oracles, now).0.Form? ==>
      var t := Respond(s0, post, oracles, now).1.csrfToken;
      t.Some? && (!PhpEmpty(t.value) || t.value == oracles.freshToken)
    ensures Respond(s0, post, oracles, now).0.Form? && s0.csrfToken.Some? && !PhpEmpty(s0.csrfToken.value) ==>
      Respond(s0, post, oracles, now).1.csrfToken == s0.csrfToken
  {
    var s := Initialised(s0, now);
    assert s.csrfToken == s0.csrfToken;
    if !Locked(s, now) {
      var s1 := Unlocked(s);
      assert s1.csrfToken == s0.csrfToken;
      if post.Some? && CsrfValid(s1, post.value) {
        AuthenticateFacts(s1, PostedName(post.value), PostedPassword(post.value), oracles, now);
      }
    }
  }

  /**
   * A post with a missing or wrong token ends with `die` exactly when it gets
   * past the lockout; the session is then what the prelude left: the counter
   * initialised, or reset when it was full, the token untouched, and no user
   * set.
   */
  lemma CsrfFailureKeepsPrelude(s0: SessionData, post: Option<Post>, oracles: Oracles, now: int)
    ensures var s := Initialised(s0, now);
      Respond(s0, post, oracles, now).0 == CsrfFailed <==>
        !Locked(s, now) && post.Some? && !CsrfValid(Unlocked(s), post.value)
    ensures Respond(s0, post, oracles, now).0 == CsrfFailed ==>
      var r := Respond(s0, post, oracles, now).1;
      && r == Unlocked(Initialised(s0, now))
      && r.loginAttempts.Some? && r.loginAttempts.value < MaxAttempts
      && (s0.loginAttempts.None? ==> r.loginAttempts == Some(0) && r.lastAttemptTime == now)
      && (s0.loginAttempts.Some? && s0.loginAttempts.value < MaxAttempts ==> r.loginAttempts == s0.loginAttempts)
      && (s0.loginAttempts.Some? && s0.loginAttempts.value >= MaxAttempts ==> r.loginAttempts == Some(0))
      && r.csrfToken == s0.csrfToken
      && r.userId == s0.userId && r.username == s0.username && r.lastActivity == s0.lastActivity
  {
    var s := Initialised(s0, now);
    if !Locked(s, now) && post.Some? && CsrfValid(Unlocked(s), post.value) {
      AuthenticateFacts(Unlocked(s), PostedName(post.value), PostedPassword(post.value), oracles, now);
    }
  }

  class LoginSession {
    var loginAttempts: Option<int>
    var lastAttemptTime: int
    var csrfToken: Option<string>
    var userId: Option<int>
    var username: Option<string>
    var lastActivity: Option<int>

    function Data(): SessionData
      reads this
    {
      SessionData(loginAttempts, lastAttemptTime, csrfToken, userId, username, lastActivity)
    }

    /** A fresh PHP session: no key set. */
    constructor()
      ensures Data() == SessionData(None, 0, None, None, None, None)
    {
      loginAttempts := None;
      lastAttemptTime := 0;
      csrfToken := None;
      userId := None;
      username := None;
      lastActivity := None;
    }

    /** The lockout prelude of every request: initialise the counter, then refuse inside the window or reset a full counter. */
    method CheckLockout(now: int) returns (wait: Option<int>)
      modifies this`loginAttempts, this`lastAttemptTime
      ensures loginAttempts.Some?
      ensures var s := Initialised(old(Data()), now);
        && (wait.Some? <==> Locked(s, now))
        && (wait.Some? ==> wait.value == CeilMinutes(LockoutTime - (now - s.lastAttemptTime)) && Data() == s)
        && (wait.None? ==> Data() == Unlocked(s))
    {
      if loginAttempts.None? {
        loginAttempts := Some(0);
        lastAttemptTime := now;
      }
      if loginAttempts.value >= MaxAttempts {
        var timeSinceLastAttempt := now - lastAttemptTime;
        if timeSinceLastAttempt < LockoutTime {
          var remainingTime := LockoutTime - timeSinceLastAttempt;
          return Some(CeilMinutes(remainingTime));
        } else {
          loginAttempts := Some(0);
        }
      }
      wait := None;
    }

    /** The closing step of a rendered page: a token is made when the session has none. */
    method EnsureToken(freshToken: string)
      modifies this`csrfToken
      ensures Data() == WithToken(old(Data()), freshToken)
    {
      if csrfToken.None? || PhpEmpty(csrfToken.value) {
        csrfToken := Some(freshToken);
      }
    }

    /** The credential step of a post whose token matched. */
    method CheckCredentials(name: string, password: string, oracles: Oracles, now: int) returns (outcome: Outcome)
      requires loginAttempts.Some?
      modifies this
      ensures outcome == Authenticate(old(Data()), name, password, oracles, now).0
      ensures Data() == Authenticate(old(Data()), name, password, oracles, now).1
    {
      if PhpEmpty(name) || PhpEmpty(password) {
        EnsureToken(oracles.freshToken);
        return Form(Some(EmptyFields));
      }
      if oracles.dbFails {
        EnsureToken(oracles.freshToken);
        return Form(Some(SystemError));
      }
      if name in oracles.users && oracles.passwordVerifies {
        loginAttempts := Some(0);
        userId := Some(oracles.users[name].id);
        username := Some(oracles.users[name].username);
        lastActivity := Some(now);
        return LoggedIn;
      }
      loginAttempts := Some(loginAttempts.value + 1);
      lastAttemptTime := now;
      EnsureToken(oracles.freshToken);
      outcome := Form(Some(LoginFailed));
    }

    /** One request to index.php at time `now`, run statement by statement. */
    method HandleRequest(now: int, post: Option<Post>, oracles: Oracles) returns (outcome: Outcome)
      modifies this
      ensures (outcome, Data()) == Respond(old(Data()), post, oracles, now)
    {
      var wait := CheckLockout(now);
      if wait.Some? {
        return LockedOut(wait.value);
      }
      if post.None? {
        EnsureToken(oracles.freshToken);
        return Form(None);
      }
      var form := post.value;
      if form.csrfToken.None? || csrfToken.None? || form.csrfToken.value != csrfToken.value {
        return CsrfFailed;
      }
      var name := PhpTrim(if form.username.Some? then form.username.value else "");
      var password := if form.password.Some? then form.password.value else "";
      outcome := CheckCredentials(name, password, oracles, now);
    }
  }
}
