/**
 * The device-login page of `src/pages/LoginPage.tsx`: a status machine
 * `idle -> waiting -> success` (or back to `idle`), driven by `startLogin`
 * and by an interval callback that polls the authorization server, in the
 * manner of the OAuth 2.0 Device Authorization Grant (sections 3.1 and 3.4-3.5
 * of RFC 8628) but with the server's own status strings.
 */
module DeviceLogin {
  import opened Wrappers
  import Session

  datatype Status = Idle | Waiting | Success

  /** The answer to `POST /auth/device/init/`, together with whatever went wrong before it. */
  datatype InitOutcome =
    | Unreachable                                           // fetch or .json() threw
    | HttpError(code: int)                                  // the response was not ok
    | Granted(deviceCode: string, verificationUrl: string)

  /** One tick of the interval: the poll either threw, or answered with a status string and fields. */
  datatype PollOutcome =
    | PollFailed
    | PollResponse(status: string, token: string, username: string, avatarUrl: string)

  /** The arguments of one `login` call. */
  datatype Credentials = Credentials(token: string, username: string, avatarUrl: string)

  /** What `startLogin` does, in order. */
  datatype Action =
    | StatusSet(status: Status)
    | InitRequested
    | BrowserOpenRequested(url: string)
    | PollingStarted

  const ApprovedStatus: string := "approved"
  const ExpiredStatus: string := "expired"

  predicate IsApproved(o: PollOutcome) {
    o.PollResponse? && o.status == ApprovedStatus
  }

  predicate IsExpired(o: PollOutcome) {
    o.PollResponse? && o.status == ExpiredStatus
  }

  /** An outcome after which the callback clears the interval. */
  predicate IsTerminal(o: PollOutcome) {
    IsApproved(o) || IsExpired(o)
  }

  function CredentialsOf(o: PollOutcome): Credentials
    requires o.PollResponse?
  {
    Credentials(o.token, o.username, o.avatarUrl)
  }

  /**
   * The actions of `startLogin`: status `waiting` first, then the init request;
   * polling starts only when the request succeeded and the browser command
   * returned, and otherwise the status goes back to `idle`.
   */
  function StartActions(init: InitOutcome, openerOk: bool): (r: seq<Action>)
    ensures |r| >= 3 && r[0] == StatusSet(Waiting) && r[1] == InitRequested
    ensures forall i :: 0 <= i < |r| && r[i] == InitRequested ==> i == 1
    ensures PollingStarted in r <==> init.Granted? && openerOk
    ensures r[|r| - 1] == StatusSet(Idle) <==> !(init.Granted? && openerOk)
    ensures forall i :: 1 <= i < |r| ==> r[i] != StatusSet(Waiting) && r[i] != StatusSet(Success)
    ensures init.Granted? ==> |r| == 4 && r[2] == BrowserOpenRequested(init.verificationUrl)
    ensures !init.Granted? ==> |r| == 3
    ensures PollingStarted in r ==> r[|r| - 1] == PollingStarted
  {
    [StatusSet(Waiting), InitRequested] +
    match init
    case Granted(_, url) =>
      [BrowserOpenRequested(url)] + (if openerOk then [PollingStarted] else [StatusSet(Idle)])
    case _ => [StatusSet(Idle)]
  }

  /** The state a poll tick can change: the status, whether the interval is set, and the `login` calls made so far. */
  datatype Flow = Flow(status: Status, polling: bool, logins: seq<Credentials>)

  /** The interval callback for one tick; with no interval set there is no tick and nothing changes. */
  function Step(f: Flow, o: PollOutcome): (r: Flow)
    ensures !f.polling ==> r == f
    ensures !IsTerminal(o) ==> r == f
    ensures f.polling && IsApproved(o) ==>
      r == Flow(Success, false, f.logins + [CredentialsOf(o)])
    ensures f.polling && IsExpired(o) ==> r == Flow(Idle, false, f.logins)
  {
    if !f.polling then f
    else
      match o
      case PollFailed => f
      case PollResponse(status, token, username, avatarUrl) =>
        if status == ApprovedStatus then Flow(Success, false, f.logins + [Credentials(token, username, avatarUrl)])
        else if status == ExpiredStatus then Flow(Idle, false, f.logins)
        else f
  }

  /** The ticks of a whole sequence of poll outcomes, in order. */
  function Run(f: Flow, os: seq<PollOutcome>): (r: Flow)
    ensures !f.polling ==> r == f
    ensures |f.logins| <= |r.logins| <= |f.logins| + 1 && r.logins[..|f.logins|] == f.logins
    ensures r.polling ==> r == f
    decreases |os|
  {
    if os == [] then f else Run(Step(f, os[0]), os[1..])
  }

  /** The index of the first terminal outcome, or |os| when there is none. */
  function FirstTerminal(os: seq<PollOutcome>): (k: nat)
    ensures k <= |os|
    ensures forall i :: 0 <= i < k ==> !IsTerminal(os[i])
    ensures k < |os| ==> IsTerminal(os[k])
  {
    if os == [] then 0
    else if IsTerminal(os[0]) then 0
    else 1 + FirstTerminal(os[1..])
  }

  /**
   * The outcome of polling from `waiting`: everything is decided by the first
   * terminal outcome. If it is `approved`, `login` is called exactly once, with
   * its fields, and the status is `success`; if it is `expired`, there is no
   * `login` call and the status is `idle`; if there is none, nothing changed
   * and polling goes on.
   */
  lemma {:induction false} RunDecidedByFirstTerminal(logins: seq<Credentials>, os: seq<PollOutcome>)
    ensures var k := FirstTerminal(os);
            var r := Run(Flow(Waiting, true, logins), os);
            && (k == |os| ==> r == Flow(Waiting, true, logins))
            && (k < |os| && IsApproved(os[k]) ==> r == Flow(Success, false, logins + [CredentialsOf(os[k])]))
            && (k < |os| && IsExpired(os[k]) ==> r == Flow(Idle, false, logins))
  {
    var f := Flow(Waiting, true, logins);
    if os != [] {
      if !IsTerminal(os[0]) {
        assert Step(f, os[0]) == f;
        RunDecidedByFirstTerminal(logins, os[1..]);
        assert forall i :: 0 <= i < |os[1..]| ==> os[1..][i] == os[i + 1];
      }
    }
  }

  /**
   * Over any sequence of poll outcomes started from `waiting`, `login` is called
   * at most once, and it is called exactly when an `approved` arrives before any
   * `expired`.
   */
  lemma AtMostOneLogin(logins: seq<Credentials>, os: seq<PollOutcome>)
    ensures var r := Run(Flow(Waiting, true, logins), os);
            && |logins| <= |r.logins| <= |logins| + 1
            && r.logins[..|logins|] == logins
            && (|r.logins| == |logins| + 1 <==> (exists k :: 0 <= k < |os| && IsApproved(os[k]) &&
                                                  forall i :: 0 <= i < k ==> !IsExpired(os[i])))
  {
    RunDecidedByFirstTerminal(logins, os);
    var k := FirstTerminal(os);
    var r := Run(Flow(Waiting, true, logins), os);
    if |r.logins| == |logins| + 1 {
      assert k < |os| && IsApproved(os[k]);
    }
    if exists j :: 0 <= j < |os| && IsApproved(os[j]) && forall i :: 0 <= i < j ==> !IsExpired(os[i]) {
      var j :| 0 <= j < |os| && IsApproved(os[j]) && forall i :: 0 <= i < j ==> !IsExpired(os[i]);
      assert k <= j;
      assert !IsExpired(os[k]) by {
        if k < j {
          assert !IsExpired(os[k]);
        }
      }
    }
  }

  /** The login page. `auth` is the session manager whose `login` an approval calls. */
  class LoginPage {
    var status: Status
    /** Whether the poll interval is set: `setInterval` sets it, `clearInterval` clears it. */
    var polling: bool
    /** The device code the interval callback posts. */
    var deviceCode: string
    /** The `login` calls made by the callback, in order. */
    var logins: seq<Credentials>
    const auth: Session.AuthProvider

    ghost predicate Valid()
      reads this, auth
    {
      && auth.Valid()
      && (polling <==> status == Waiting)
    }

    function FlowState(): Flow
      reads this
    {
      Flow(status, polling, logins)
    }

    /** The page's first render: `idle`, no interval, no `login` call yet. */
    constructor (auth: Session.AuthProvider)
      requires auth.Valid()
      ensures Valid() && this.auth == auth
      ensures status == Idle && !polling && logins == []
    {
      this.auth := auth;
      status := Idle;
      polling := false;
      deviceCode := "";
      logins := [];
    }

    /**
     * `startLogin`, pressed from the `idle` state (the only state that shows its
     * button). `init` is the server's answer to the init request and `openerOk`
     * whether the browser command returned. Returns what it did, in order.
     */
    method StartLogin(init: InitOutcome, openerOk: bool) returns (actions: seq<Action>)
      requires Valid() && status == Idle
      modifies this`status, this`polling, this`deviceCode
      ensures Valid()
      ensures actions == StartActions(init, openerOk)
      ensures init.Granted? && openerOk ==>
        status == Waiting && polling && deviceCode == init.deviceCode
      ensures !(init.Granted? && openerOk) ==> status == Idle && !polling
    {
      status := Waiting;
      actions := [StatusSet(Waiting)];
      actions := actions + [InitRequested];
      match init {
        case Granted(code, url) =>
          actions := actions + [BrowserOpenRequested(url)];
          if openerOk {
            deviceCode := code;
            polling := true;
            actions := actions + [PollingStarted];
          } else {
            status := Idle;
            actions := actions + [StatusSet(Idle)];
          }
        case _ =>
          status := Idle;
          actions := actions + [StatusSet(Idle)];
      }
    }

    /** One firing of the interval callback with poll outcome `o`. */
    method Tick(o: PollOutcome)
      requires Valid()
      modifies this`status, this`polling, this`logins, auth
      ensures Valid()
      ensures FlowState() == Step(old(FlowState()), o)
      ensures old(polling) && IsApproved(o) ==>
        && auth.State() == Session.SessionState(Some(o.token), Some(Session.UserInfo(o.username, o.avatarUrl)))
        && auth.storage == Session.StorageAfterLogin(old(auth.storage), o.token, Session.UserInfo(o.username, o.avatarUrl))
        && auth.effects == old(auth.effects) + Session.LoginEffects(o.token, Session.UserInfo(o.username, o.avatarUrl))
      ensures !(old(polling) && IsApproved(o)) ==> unchanged(auth)
    {
      if !polling {
        return;
      }
      match o {
        case PollFailed =>
        case PollResponse(pollStatus, token, username, avatarUrl) =>
          if pollStatus == ApprovedStatus {
            polling := false;
            auth.Login(token, username, avatarUrl);
            logins := logins + [Credentials(token, username, avatarUrl)];
            status := Success;
          } else if pollStatus == ExpiredStatus {
            polling := false;
            status := Idle;
          }
      }
    }

    /** The interval firing once for each outcome in `os`, in order. */
    method Poll(os: seq<PollOutcome>)
      requires Valid()
      modifies this`status, this`polling, this`logins, auth
      ensures Valid()
      ensures FlowState() == Run(old(FlowState()), os)
      ensures |logins| == |old(logins)| ==> unchanged(auth)
      ensures |logins| > |old(logins)| ==>
        var c := logins[|logins| - 1];
        && auth.State() == Session.SessionState(Some(c.token), Some(Session.UserInfo(c.username, c.avatarUrl)))
        && auth.storage == Session.StorageAfterLogin(old(auth.storage), c.token, Session.UserInfo(c.username, c.avatarUrl))
        && auth.effects == old(auth.effects) + Session.LoginEffects(c.token, Session.UserInfo(c.username, c.avatarUrl))
    {
      var i := 0;
      while i < |os|
        invariant 0 <= i <= |os|
        invariant Valid()
        invariant Run(FlowState(), os[i..]) == Run(old(FlowState()), os)
        invariant |logins| >= |old(logins)|
        invariant |logins| == |old(logins)| ==> unchanged(auth)
        invariant |logins| > |old(logins)| ==> !polling
        invariant |logins| > |old(logins)| ==>
          var c := logins[|logins| - 1];
          && auth.State() == Session.SessionState(Some(c.token), Some(Session.UserInfo(c.username, c.avatarUrl)))
          && auth.storage == Session.StorageAfterLogin(old(auth.storage), c.token, Session.UserInfo(c.username, c.avatarUrl))
          && auth.effects == old(auth.effects) + Session.LoginEffects(c.token, Session.UserInfo(c.username, c.avatarUrl))
      {
        assert os[i..] == [os[i]] + os[i + 1..];
        Tick(os[i]);
        i := i + 1;
      }
    }
  }
}
