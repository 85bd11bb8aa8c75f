/** The host side of dist/instagram.js: the listeners `loadInstagram`
    registers on the in-app browser, `handleProcrastinationMode`, and the
    "procrastinationAlertShown" flag kept in local storage. */
module Host {
  import opened Values
  import opened Common

  /** Minutes procrastination mode lasts before the browser is closed. */
  const ProcrastinationModeLimitInMinutes: int := 5

  /** The same limit as the timer delay, in milliseconds. */
  const ProcrastinationModeLimitInMillis: int := ProcrastinationModeLimitInMinutes * 60 * 1000

  /** The host state the listeners read and write: the mode flag of
      dist/common.js and the stored alert-shown flag. */
  datatype HostState = HostState(procrastinationModeActive: bool, alertShown: bool)

  /** Browser events: `loadstop`, `exit`, `message`, and the expiry of the
      timer started with the welcome alert. */
  datatype HostEvent = LoadStop | Exit | PageMessage | LimitReached

  datatype HostAction =
    | InjectScripts
    | WelcomeAlert(closeAfterMillis: int)  // alert shown and close timer started
    | AlreadyWelcomed
    | Ignored
    | ModeDeactivated
    | ModeActivated
    | CloseBrowser                         // "time's up" alert, then the browser is closed

  /** `handleProcrastinationMode`: while the mode is active, welcome the user
      once and start the closing timer. */
  function ProcrastinationHandling(s: HostState): (r: (HostState, HostAction))
    ensures r.0.procrastinationModeActive == s.procrastinationModeActive
    ensures r.1.WelcomeAlert? <==> s.procrastinationModeActive && !s.alertShown
    ensures s.procrastinationModeActive ==> r.0.alertShown
  {
    if !s.procrastinationModeActive then (s, Ignored)
    else if !s.alertShown then
      (s.(alertShown := true), WelcomeAlert(ProcrastinationModeLimitInMillis))
    else (s, AlreadyWelcomed)
  }

  /** The effect of one browser event. Scripts are injected exactly on a
      `loadstop` while the mode is inactive; only `exit` and `message` change
      the mode; only `message` clears the alert-shown flag. */
  function HostStep(s: HostState, e: HostEvent): (r: (HostState, HostAction))
    ensures r.1 == InjectScripts <==> e == LoadStop && !s.procrastinationModeActive
    ensures e != Exit && e != PageMessage ==>
      r.0.procrastinationModeActive == s.procrastinationModeActive
    ensures s.alertShown && !r.0.alertShown ==> e == PageMessage
  {
    match e
    case LoadStop =>
      if s.procrastinationModeActive then ProcrastinationHandling(s)
      else (s, InjectScripts)
    case Exit => (s.(procrastinationModeActive := false), ModeDeactivated)
    case PageMessage => (HostState(true, false), ModeActivated)
    case LimitReached =>
      if !s.procrastinationModeActive then (s, Ignored) else (s, CloseBrowser)
  }

  /** Runs `events` in order from `s`: the final state and one action per event. */
  function HostRun(s: HostState, events: seq<HostEvent>): (r: (HostState, seq<HostAction>))
    ensures |r.1| == |events|
    decreases |events|
  {
    if events == [] then (s, [])
    else
      var (t, a) := HostStep(s, events[0]);
      var (u, rest) := HostRun(t, events[1..]);
      (u, [a] + rest)
  }

  /** `exit` always deactivates the mode; `message` always activates it and
      clears the alert-shown flag, so the next `loadstop` welcomes the user. */
  lemma ExitAndMessage(s: HostState)
    ensures !HostStep(s, Exit).0.procrastinationModeActive
    ensures HostStep(s, Exit).0.alertShown == s.alertShown
    ensures HostStep(s, PageMessage).0 == HostState(true, false)
    ensures HostStep(HostStep(s, PageMessage).0, LoadStop).1
         == WelcomeAlert(5 * 60 * 1000)
  {
  }

  /** Once the alert-shown flag is set, a welcome alert needs a `message`
      event before it (nothing else clears the flag). */
  lemma {:induction false} WelcomeNeedsReset(s: HostState, events: seq<HostEvent>, j: nat)
    requires s.alertShown
    requires j < |events| && HostRun(s, events).1[j].WelcomeAlert?
    ensures exists k :: 0 <= k < j && events[k] == PageMessage
    decreases j
  {
    var (t, a) := HostStep(s, events[0]);
    assert HostRun(s, events).1 == [a] + HostRun(t, events[1..]).1;
    if events[0] != PageMessage {
      assert t.alertShown;
      assert j > 0;
      WelcomeNeedsReset(t, events[1..], j - 1);
      var k :| 0 <= k < j - 1 && events[1..][k] == PageMessage;
      assert events[k + 1] == PageMessage;
    }
  }

  /** The welcome alert is shown at most once between two `message` events:
      any two welcome alerts have a `message` event strictly between them. */
  lemma {:induction false} WelcomeAtMostOnce(s: HostState, events: seq<HostEvent>, i: nat, j: nat)
    requires i < j < |events|
    requires HostRun(s, events).1[i].WelcomeAlert? && HostRun(s, events).1[j].WelcomeAlert?
    ensures exists k :: i < k < j && events[k] == PageMessage
    decreases i
  {
    var (t, a) := HostStep(s, events[0]);
    assert HostRun(s, events).1 == [a] + HostRun(t, events[1..]).1;
    if i == 0 {
      assert t.alertShown;
      WelcomeNeedsReset(t, events[1..], j - 1);
      var k :| 0 <= k < j - 1 && events[1..][k] == PageMessage;
      assert events[k + 1] == PageMessage;
    } else {
      WelcomeAtMostOnce(t, events[1..], i - 1, j - 1);
      var k :| i - 1 < k < j - 1 && events[1..][k] == PageMessage;
      assert events[k + 1] == PageMessage;
    }
  }

  /** The browser session opened by `loadInstagram`, with the listeners it
      registers. The stored alert flag outlives sessions, so its starting
      value is given. */
  class HostSession {
    const flags: ModeFlags
    /** The "procrastinationAlertShown" entry of local storage. */
    var alertShown: bool

    function Snapshot(): HostState
      reads this, flags
    {
      HostState(flags.procrastinationModeActive, alertShown)
    }

    /** `loadInstagram` once `waitForDeviceAndMessage` has returned. */
    constructor (flags: ModeFlags, storedAlertShown: bool)
      requires flags.ReadyToLaunch()
      ensures this.flags == flags && alertShown == storedAlertShown
      ensures Snapshot() == HostState(flags.procrastinationModeActive, storedAlertShown)
    {
      this.flags := flags;
      alertShown := storedAlertShown;
    }

    method HandleProcrastinationMode() returns (action: HostAction)
      modifies this
      ensures (Snapshot(), action) == ProcrastinationHandling(old(Snapshot()))
    {
      var active := flags.IsProcrastinationModeActive();
      if !active {
        return Ignored;
      }
      if !alertShown {
        action := WelcomeAlert(ProcrastinationModeLimitInMillis);
        alertShown := true;
      } else {
        action := AlreadyWelcomed;
      }
    }

    /** The `loadstop` listener. */
    method OnLoadStop() returns (action: HostAction)
      modifies this
      ensures (Snapshot(), action) == HostStep(old(Snapshot()), LoadStop)
      ensures action == InjectScripts <==> !flags.procrastinationModeActive
    {
      var active := flags.IsProcrastinationModeActive();
      if active {
        action := HandleProcrastinationMode();
      } else {
        action := InjectScripts;
      }
    }

    /** The `exit` listener. */
    method OnExit()
      modifies flags
      ensures (Snapshot(), ModeDeactivated) == HostStep(old(Snapshot()), Exit)
      ensures flags.deviceReady == old(flags.deviceReady) && flags.message == old(flags.message)
    {
      flags.DeactivateProcrastinationMode();
    }

    /** The `message` listener. */
    method OnMessage()
      modifies this, flags
      ensures (Snapshot(), ModeActivated) == HostStep(old(Snapshot()), PageMessage)
      ensures flags.deviceReady == old(flags.deviceReady) && flags.message == old(flags.message)
    {
      alertShown := false;
      flags.ActivateProcrastinationMode();
    }

    /** The closing timer started with the welcome alert fires. */
    method OnLimitReached() returns (action: HostAction)
      ensures (Snapshot(), action) == HostStep(Snapshot(), LimitReached)
      ensures action == CloseBrowser <==> flags.procrastinationModeActive
    {
      var active := flags.IsProcrastinationModeActive();
      if !active {
        return Ignored;
      }
      action := CloseBrowser;
    }
  }
}
