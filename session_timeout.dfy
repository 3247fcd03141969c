/**
 * sessiotimeout.js: the idle timeout of a logged-in page. Two pending
 * timeouts (the warning after 14 minutes, the logout after 15) and a
 * one-second countdown interval become fields of a `Session`; a timer firing
 * is an explicit method call. The log is the page's own 100-entry
 * `activityLogs` list.
 */
module SessionTimeout {
  import opened Wrappers
  import opened Text
  import opened KeuanganPermissions

  /** `SESSION_TIMEOUT`: 15 minutes in milliseconds. */
  const SessionTimeoutMs: nat := 15 * 60 * 1000
  /** `WARNING_BEFORE_TIMEOUT`: 1 minute in milliseconds. */
  const WarningBeforeTimeoutMs: nat := 1 * 60 * 1000
  /** The most entries `logActivity` keeps after one append. */
  const MaxLogs: nat := 100

  /** One `activityLogs` entry; `page` is the last segment of the page's path. */
  datatype LogEntry = LogEntry(timestamp: string, user: string, role: string, activity: string, page: string)

  /** `MM:SS` for a number of seconds: the minutes and the remaining seconds, each padded to two digits. */
  function FormatTime(timeLeft: nat): string {
    PadStart(NatToString(timeLeft / 60), 2, '0') + ":" + PadStart(NatToString(timeLeft % 60), 2, '0')
  }

  /** Below 100 minutes the rendering is five characters whose two fields read back as the minutes and seconds. */
  lemma FormatTimeReadsBack(timeLeft: nat)
    requires timeLeft < 100 * 60
    ensures var r := FormatTime(timeLeft);
      && |r| == 5 && r[2] == ':'
      && AllDigits(r[..2]) && AllDigits(r[3..])
      && ParseDigits(r[3..]) < 60
      && 60 * ParseDigits(r[..2]) + ParseDigits(r[3..]) == timeLeft
  {
    var m, s := timeLeft / 60, timeLeft % 60;
    var mm, ss := PadStart(NatToString(m), 2, '0'), PadStart(NatToString(s), 2, '0');
    TwoDigitField(m);
    TwoDigitField(s);
    ClockFields(mm, ss);
  }

  /** A number below 100 padded to two digits is two digits that read back as the number. */
  lemma TwoDigitField(n: nat)
    requires n < 100
    ensures var f := PadStart(NatToString(n), 2, '0');
      |f| == 2 && AllDigits(f) && ParseDigits(f) == n
  {
    NatToStringBelowHundred(n);
    PadStartShape(NatToString(n), 2, '0');
    PadStartNatReadsBack(n, 2);
  }

  /** Two two-character fields around a colon sit at positions 0-1 and 3-4. */
  lemma ClockFields(mm: string, ss: string)
    requires |mm| == 2 && |ss| == 2
    ensures var r := mm + ":" + ss;
      |r| == 5 && r[2] == ':' && r[..2] == mm && r[3..] == ss
  {
  }

  /** The first value the warning shows, one tick after it is set to 60 seconds. */
  lemma FirstWarningValue()
    ensures FormatTime(WarningBeforeTimeoutMs / 1000 - 1) == "00:59"
  {
    var t: nat := WarningBeforeTimeoutMs / 1000 - 1;
    assert t / 60 == 0 && t % 60 == 59;
    ZeroPadded();
    FiftyNinePadded();
    ClockText(PadStart(NatToString(0), 2, '0'), PadStart(NatToString(59), 2, '0'));
  }

  lemma ClockText(mm: string, ss: string)
    requires mm == "00" && ss == "59"
    ensures mm + ":" + ss == "00:59"
  {
  }

  lemma ZeroPadded()
    ensures PadStart(NatToString(0), 2, '0') == "00"
  {
    assert NatToString(0) == [DigitChar(0)];
    assert DigitChar(0) == '0';
    assert Repeat('0', 1) == "0";
  }

  lemma FiftyNinePadded()
    ensures PadStart(NatToString(59), 2, '0') == "59"
  {
    assert NatToString(59) == NatToString(5) + [DigitChar(9)];
    assert NatToString(5) == [DigitChar(5)];
    assert DigitChar(5) == '5' && DigitChar(9) == '9';
  }

  /** `window.location.pathname.split('/').pop() || 'unknown'`. */
  function PageName(pathname: string): string {
    var parts := Split(pathname, '/');
    var last := parts[|parts| - 1];
    if last == "" then "unknown" else last
  }

  /** The page name is "unknown" or the non-empty text after the last slash of the path. */
  lemma PageNameIsLastSegment(pathname: string)
    ensures var r := PageName(pathname);
      && r != "" && '/' !in r
      && (r == "unknown" || (|r| <= |pathname| && pathname[|pathname| - |r|..] == r))
  {
    SplitLastIsSuffix(pathname, '/');
  }

  /** One append of `logActivity`: the entry at the end, and past 100 entries the oldest dropped. */
  function LogAppend(logs: seq<LogEntry>, entry: LogEntry): seq<LogEntry> {
    var grown := logs + [entry];
    if |grown| > MaxLogs then grown[1..] else grown
  }

  /**
   * The appended entry is always last, at most the oldest entry is dropped,
   * and a log of at most 100 entries stays at most 100 long.
   */
  lemma LogAppendKeepsLastHundred(logs: seq<LogEntry>, entry: LogEntry)
    ensures var r := LogAppend(logs, entry);
      && r != [] && r[|r| - 1] == entry
      && (r == logs + [entry] || (|logs| >= MaxLogs && r == logs[1..] + [entry]))
      && (|logs| <= MaxLogs ==> |r| <= MaxLogs)
      && (|logs| >= MaxLogs ==> |r| == |logs|)
  {
    var grown := logs + [entry];
    if |grown| > MaxLogs {
      assert grown[1..] == logs[1..] + [entry];
    }
  }

  /**
   * Everything the page keeps for the timeout: the stored user, the two
   * pending timeouts with their delays in milliseconds, whether the one-second
   * countdown interval is set, the countdown, the seconds the timer element
   * was last rendered with, whether the warning modal is shown, the activity
   * log and whether the redirect to the login page is scheduled.
   */
  datatype SessionState = SessionState(
    currentUser: Option<User>,
    idleTimer: Option<nat>,
    warningTimer: Option<nat>,
    countdownRunning: bool,
    timeLeft: int,
    timerShows: Option<nat>,
    modalActive: bool,
    activityLogs: seq<LogEntry>,
    redirectScheduled: bool)

  /**
   * The text of the `sessionTimer` element: `MM:SS` of the seconds last
   * rendered, empty before the first render. Below 100 minutes the text
   * determines the seconds (`FormatTimeReadsBack`), so the seconds stand for
   * the text.
   */
  function TimerText(st: SessionState): string {
    if st.timerShows.None? then "" else FormatTime(st.timerShows.value)
  }

  /**
   * What holds between events: a running countdown has the modal shown and
   * one to 59 seconds left, and a pending warning means no countdown runs yet.
   */
  predicate Inv(st: SessionState) {
    && (st.countdownRunning ==> st.modalActive && 1 <= st.timeLeft <= 59)
    && (st.warningTimer.Some? ==> !st.countdownRunning)
  }

  /** `clearTimeout` of both timeouts, `clearInterval` of the countdown and the modal hidden. */
  function ClearTimers(st: SessionState): SessionState {
    st.(idleTimer := None, warningTimer := None, countdownRunning := false, modalActive := false)
  }

  /** `resetIdleTimer()`: for a logged-in user everything is cleared and both timeouts set again. */
  function ResetState(st: SessionState): SessionState {
    if st.currentUser.None? then st
    else ClearTimers(st).(warningTimer := Some(SessionTimeoutMs - WarningBeforeTimeoutMs), idleTimer := Some(SessionTimeoutMs))
  }

  /** `logActivity(activity)` against the stored user. */
  function LogState(st: SessionState, activity: string, now: string, pathname: string): SessionState {
    if st.currentUser.None? then st
    else st.(activityLogs := LogAppend(st.activityLogs,
      LogEntry(now, st.currentUser.value.username, st.currentUser.value.role, activity, PageName(pathname))))
  }

  /** The text `logout()` logs for a user. */
  function LogoutText(user: User): string {
    "User " + user.username + " (" + user.role + ") logout karena session timeout"
  }

  /**
   * `logout()` as written: the stored user is removed and the redirect
   * scheduled. The logout entry is never written: the user is removed before
   * `logActivity` runs, and `logActivity` finds no user (see `Session.Logout`).
   */
  function LogoutState(st: SessionState): SessionState {
    st.(currentUser := None, redirectScheduled := true)
  }

  /** `logout()` as evidently intended: the logout entry logged against the user before it is removed. */
  function LogoutCorrected(st: SessionState, now: string, pathname: string): SessionState {
    var logged := if st.currentUser.Some? then LogState(st, LogoutText(st.currentUser.value), now, pathname) else st;
    LogoutState(logged)
  }

  /**
   * As written, a logout by timeout leaves no trace in the log: for a user
   * with an empty log, the log stays empty, while the intended logout writes
   * one entry.
   */
  lemma LogoutEntryLost(u: User, now: string, pathname: string)
    ensures var st := SessionState(Some(u), None, None, false, 0, None, false, [], false);
      && LogoutState(st).activityLogs == []
      && |LogoutCorrected(st, now, pathname).activityLogs| == 1
  {
    var st := SessionState(Some(u), None, None, false, 0, None, false, [], false);
    var entry := LogEntry(now, u.username, u.role, LogoutText(u), PageName(pathname));
    assert LogoutCorrected(st, now, pathname).activityLogs == LogAppend([], entry);
  }

  /**
   * The intended logout ends the session like the written one and logs the
   * logout, against the user who was logged in, as the last entry.
   */
  lemma LogoutCorrectedLogsUser(st: SessionState, now: string, pathname: string)
    requires st.currentUser.Some?
    ensures var r := LogoutCorrected(st, now, pathname); var u := st.currentUser.value;
      && r.currentUser.None? && r.redirectScheduled
      && r.activityLogs != []
      && r.activityLogs[|r.activityLogs| - 1] == LogEntry(now, u.username, u.role, LogoutText(u), PageName(pathname))
      && r.(activityLogs := st.activityLogs) == LogoutState(st)
  {
    var u := st.currentUser.value;
    LogAppendKeepsLastHundred(st.activityLogs, LogEntry(now, u.username, u.role, LogoutText(u), PageName(pathname)));
  }

  /** `autoLogout()`: timers cleared, modal hidden, then `logout()`. */
  function AutoLogoutState(st: SessionState): SessionState {
    LogoutState(ClearTimers(st))
  }

  /** `updateCountdown()`: one second off and rendered; at zero the session is logged out. */
  function CountdownState(st: SessionState): SessionState
    requires st.timeLeft >= 1
  {
    var ticked := st.(timeLeft := st.timeLeft - 1, timerShows := Some(st.timeLeft - 1));
    if ticked.timeLeft <= 0 then AutoLogoutState(ticked) else ticked
  }

  /** `showSessionWarning()`: for a logged-in user the modal, the countdown from 60 ticked once, and the interval. */
  function WarningState(st: SessionState): SessionState {
    if st.currentUser.None? then st
    else CountdownState(st.(modalActive := true, timeLeft := WarningBeforeTimeoutMs / 1000))
           .(countdownRunning := true)
  }

  /** The warning timeout fires: it is no longer pending and the warning is shown. */
  function FireWarningState(st: SessionState): SessionState {
    WarningState(st.(warningTimer := None))
  }

  /** The logout timeout fires: it is no longer pending and the session is logged out. */
  function FireIdleState(st: SessionState): SessionState {
    AutoLogoutState(st.(idleTimer := None))
  }

  /** The countdown interval fires `n` times in a row, stopping when it is cleared. */
  function Ticks(st: SessionState, n: nat): SessionState
    requires Inv(st)
    decreases n
  {
    if n == 0 || !st.countdownRunning then st
    else
      TickKeepsInv(st);
      Ticks(CountdownState(st), n - 1)
  }

  /** Logging out by timeout ends the session: no user, nothing pending, the modal hidden, the redirect scheduled. */
  predicate EndedByTimeout(st: SessionState) {
    && st.currentUser.None? && st.idleTimer.None? && st.warningTimer.None?
    && !st.countdownRunning && !st.modalActive && st.redirectScheduled
  }

  /** The automatic logout ends the session and, as written, adds nothing to the log. */
  lemma AutoLogoutEnds(st: SessionState)
    ensures EndedByTimeout(AutoLogoutState(st))
    ensures Inv(AutoLogoutState(st))
    ensures AutoLogoutState(st).activityLogs == st.activityLogs
  {
  }

  /**
   * A reset leaves the warning due exactly one countdown (60 seconds) before
   * the logout, with nothing else running.
   */
  lemma ResetSchedulesWarningFirst(st: SessionState)
    requires st.currentUser.Some?
    ensures var r := ResetState(st);
      && r.warningTimer.Some? && r.idleTimer.Some?
      && r.idleTimer.value - r.warningTimer.value == WarningBeforeTimeoutMs
      && r.warningTimer.value == 14 * 60 * 1000
      && !r.countdownRunning && !r.modalActive
      && Inv(r)
  {
  }

  /** A reset keeps the invariant, and without a user it changes nothing. */
  lemma ResetKeepsInv(st: SessionState)
    requires Inv(st)
    ensures Inv(ResetState(st))
    ensures st.currentUser.None? ==> ResetState(st) == st
  {
  }

  /** One tick of a running countdown keeps the invariant. */
  lemma TickKeepsInv(st: SessionState)
    requires Inv(st) && st.countdownRunning
    ensures Inv(CountdownState(st))
  {
  }

  /**
   * The warning shows 00:59 with the countdown running, for a logged-in user;
   * without one nothing but the pending warning changes.
   */
  lemma FireWarningShowsCountdown(st: SessionState)
    requires Inv(st) && st.warningTimer.Some?
    ensures var r := FireWarningState(st);
      && Inv(r) && r.warningTimer.None?
      && (st.currentUser.Some? ==>
            r.countdownRunning && r.modalActive && r.timeLeft == 59 && TimerText(r) == "00:59"
            && r.currentUser == st.currentUser && r.activityLogs == st.activityLogs)
      && (st.currentUser.None? ==> r == st.(warningTimer := None))
  {
    FirstWarningValue();
  }

  /** One tick: the last second ends the session, any other leaves it running with a second less. */
  lemma TickStep(st: SessionState)
    requires Inv(st) && st.countdownRunning
    ensures var r := CountdownState(st);
      && r.activityLogs == st.activityLogs
      && (st.timeLeft == 1 ==> EndedByTimeout(r))
      && (st.timeLeft > 1 ==> r.countdownRunning && r.timeLeft == st.timeLeft - 1 && r.currentUser == st.currentUser)
  {
    if st.timeLeft == 1 {
      AutoLogoutEnds(st.(timeLeft := 0, timerShows := Some(0)));
    }
  }

  /**
   * A running countdown with `k` seconds left is still running after fewer
   * than `k` ticks, with the user still logged in, and the tick that reaches
   * zero ends the session; the log is never written.
   */
  lemma {:induction false} CountdownRunsOut(st: SessionState, n: nat)
    requires Inv(st) && st.countdownRunning
    requires n <= st.timeLeft
    decreases n
    ensures var r := Ticks(st, n);
      && r.activityLogs == st.activityLogs
      && (n < st.timeLeft ==> r.countdownRunning && r.timeLeft == st.timeLeft - n && r.currentUser == st.currentUser)
      && (n == st.timeLeft ==> EndedByTimeout(r))
  {
    var r := Ticks(st, n);
    if n == 0 {
      assert r == st;
    } else {
      var next := CountdownState(st);
      TickKeepsInv(st);
      TickStep(st);
      assert r == Ticks(next, n - 1);
      if st.timeLeft > 1 {
        CountdownRunsOut(next, n - 1);
      } else {
        assert !next.countdownRunning;
        assert r == next;
      }
    }
  }

  /**
   * Once the warning is shown for a logged-in user and nothing resets the
   * timer, the 59th tick of the interval logs the user out.
   */
  lemma WarningEndsAfterFiftyNineTicks(st: SessionState)
    requires Inv(st) && st.warningTimer.Some? && st.currentUser.Some?
    ensures EndedByTimeout(Ticks(FireWarningState(st), 59))
    ensures Ticks(FireWarningState(st), 58).currentUser == st.currentUser
  {
    var w := FireWarningState(st);
    FireWarningShowsCountdown(st);
    CountdownRunsOut(w, 59);
    CountdownRunsOut(w, 58);
  }

  class Session {
    var currentUser: Option<User>
    /** The pending `autoLogout` timeout and its delay in milliseconds. */
    var idleTimer: Option<nat>
    /** The pending `showSessionWarning` timeout and its delay in milliseconds. */
    var warningTimer: Option<nat>
    /** Whether the one-second `updateCountdown` interval is set. */
    var countdownRunning: bool
    var timeLeft: int
    /** The seconds the `sessionTimer` element shows, as `FormatTime` renders them; None before the first render. */
    var timerShows: Option<nat>
    /** Whether the warning modal has the `active` class. */
    var modalActive: bool
    var activityLogs: seq<LogEntry>
    var redirectScheduled: bool

    function State(): SessionState
      reads this
    {
      SessionState(currentUser, idleTimer, warningTimer, countdownRunning, timeLeft, timerShows,
                   modalActive, activityLogs, redirectScheduled)
    }

    /** A page loaded with the stored user and log, before `initSessionTimeout` runs. */
    constructor(user: Option<User>, logs: seq<LogEntry>)
      ensures State() == SessionState(user, None, None, false, 0, None, false, logs, false)
    {
      currentUser := user;
      idleTimer := None;
      warningTimer := None;
      countdownRunning := false;
      timeLeft := 0;
      timerShows := None;
      modalActive := false;
      activityLogs := logs;
      redirectScheduled := false;
    }

    /** `resetIdleTimer()`, also the handler of the extend-session button. */
    method ResetIdleTimer()
      modifies this`idleTimer, this`warningTimer, this`countdownRunning, this`modalActive
      ensures State() == ResetState(old(State()))
    {
      if currentUser.None? {
        return;
      }
      idleTimer := None;
      warningTimer := None;
      countdownRunning := false;
      modalActive := false;
      warningTimer := Some(SessionTimeoutMs - WarningBeforeTimeoutMs);
      idleTimer := Some(SessionTimeoutMs);
    }

    /** `initSessionTimeout()`: starts the idle timer for a logged-in user (the activity listeners are not modelled). */
    method InitSessionTimeout()
      modifies this`idleTimer, this`warningTimer, this`countdownRunning, this`modalActive
      ensures State() == ResetState(old(State()))
    {
      if currentUser.None? {
        return;
      }
      ResetIdleTimer();
    }

    /** `logActivity(activity)`: without a user nothing is logged; otherwise one entry appended, keeping 100. */
    method LogActivity(activity: string, now: string, pathname: string)
      modifies this`activityLogs
      ensures State() == LogState(old(State()), activity, now, pathname)
    {
      var user := currentUser;
      if user.None? {
        return;
      }
      var entry := LogEntry(now, user.value.username, user.value.role, activity, PageName(pathname));
      var logs := activityLogs + [entry];
      if |logs| > MaxLogs {
        logs := logs[1..];
      }
      activityLogs := logs;
    }

    /** `logout()`: the stored user removed, the logout logged against it, the redirect scheduled. */
    method Logout(now: string, pathname: string)
      modifies this`currentUser, this`activityLogs, this`redirectScheduled
      ensures State() == LogoutState(old(State()))
    {
      var user := currentUser;
      currentUser := None;
      if user.Some? {
        LogActivity(LogoutText(user.value), now, pathname);
      }
      redirectScheduled := true;
    }

    /** `autoLogout()`, also the handler of the log-out-now button. */
    method AutoLogout(now: string, pathname: string)
      modifies this`idleTimer, this`warningTimer, this`countdownRunning, this`modalActive
      modifies this`currentUser, this`activityLogs, this`redirectScheduled
      ensures State() == AutoLogoutState(old(State()))
    {
      idleTimer := None;
      warningTimer := None;
      countdownRunning := false;
      modalActive := false;
      Logout(now, pathname);
    }

    /** `updateCountdown()`, also what the interval runs each second. */
    method UpdateCountdown(now: string, pathname: string)
      requires timeLeft >= 1
      modifies this
      ensures State() == CountdownState(old(State()))
    {
      timeLeft := timeLeft - 1;
      timerShows := Some(timeLeft);
      if timeLeft <= 0 {
        AutoLogout(now, pathname);
      }
    }

    /** `showSessionWarning()`. */
    method ShowSessionWarning(now: string, pathname: string)
      modifies this
      ensures State() == WarningState(old(State()))
    {
      if currentUser.None? {
        return;
      }
      modalActive := true;
      timeLeft := WarningBeforeTimeoutMs / 1000;
      UpdateCountdown(now, pathname);
      countdownRunning := true;
    }

    /** The warning timeout fires. */
    method FireWarningTimer(now: string, pathname: string)
      modifies this
      ensures State() == FireWarningState(old(State()))
    {
      warningTimer := None;
      ShowSessionWarning(now, pathname);
    }

    /** The logout timeout fires. */
    method FireIdleTimer(now: string, pathname: string)
      modifies this
      ensures State() == FireIdleState(old(State()))
    {
      idleTimer := None;
      AutoLogout(now, pathname);
    }
  }
}
