/** The admin page's login gate. `AdminPage` holds one flag, `authenticated`;
    while it is false the page shows `LoginGate`, which posts the password and
    raises the flag when the endpoint accepts it. An accepted login also writes
    "admin_auth" = "true" to the tab's session storage, and the page raises the
    flag on mount when it finds that entry. Nothing lowers the flag. */
module AdminGate {
  import opened Outcomes

  const MsgAuthFailed: string := "Error de autenticación."
  const MsgNoConnection: string := "Error de conexión."

  /** The session storage value that marks a logged-in tab. */
  const StoredTrue: Option<string> := Some("true")

  /** How the password request ended. `Refused` carries the `error` field of
      the JSON body (`None` when absent or null); `RefusedUnreadable` is a
      refusal whose body is not JSON, so `res.json()` throws; `Unreachable`
      is a `fetch` that throws. */
  datatype Reply = Accepted | Refused(error: Option<string>) | RefusedUnreadable | Unreachable

  /** What happens to the page: the mount effect runs, or a password
      submission completes with a reply. */
  datatype PageEvent = Mount | Submit(reply: Reply)

  /** The page's flag, the "admin_auth" session storage entry, and the login
      form's `error` and `loading`. */
  datatype Gate = Gate(authenticated: bool, stored: Option<string>, error: string, loading: bool)

  /** The page as a tab first shows it, with whatever the tab's session
      storage already holds. */
  function Opened(stored: Option<string>): Gate {
    Gate(false, stored, "", false)
  }

  /** The flag is only ever up together with the stored entry. */
  predicate Consistent(g: Gate) {
    g.authenticated ==> g.stored == StoredTrue
  }

  /** `data.error || "Error de autenticación."`: a missing or empty message
      falls back to the default. */
  function RefusalMessage(error: Option<string>): (m: string)
    ensures m != ""
    ensures error.Some? && error.value != "" ==> m == error.value
    ensures error.None? || error.value == "" ==> m == MsgAuthFailed
  {
    if error.Some? && error.value != "" then error.value else MsgAuthFailed
  }

  /** One event. A submission clears the error and sets `loading`, then, once
      the reply is in, either stores the entry and raises the flag, or shows
      a message; `finally` clears `loading`. */
  function Step(g: Gate, e: PageEvent): (r: Gate)
    ensures g.authenticated ==> r.authenticated
    ensures r.authenticated <==> g.authenticated || e == Submit(Accepted) || (e == Mount && g.stored == StoredTrue)
    ensures r.stored == if e == Submit(Accepted) then StoredTrue else g.stored
    ensures e.Submit? ==> !r.loading && (r.error == "" <==> e.reply == Accepted)
    ensures e.Mount? ==> r.error == g.error && r.loading == g.loading
    ensures Consistent(g) ==> Consistent(r)
  {
    match e
    case Mount =>
      if g.stored == StoredTrue then g.(authenticated := true) else g
    case Submit(reply) =>
      match reply
      case Accepted => g.(authenticated := true, stored := StoredTrue, error := "", loading := false)
      case Refused(error) => g.(error := RefusalMessage(error), loading := false)
      case RefusedUnreadable => g.(error := MsgNoConnection, loading := false)
      case Unreachable => g.(error := MsgNoConnection, loading := false)
  }

  /** A sequence of events, in order. */
  function Run(g: Gate, events: seq<PageEvent>): Gate
    decreases |events|
  {
    if events == [] then g else Run(Step(g, events[0]), events[1..])
  }

  /** Nothing lowers the flag. */
  lemma {:induction false} RunNeverLogsOut(g: Gate, events: seq<PageEvent>)
    requires g.authenticated
    ensures Run(g, events).authenticated
    decreases |events|
  {
    if events != [] {
      RunNeverLogsOut(Step(g, events[0]), events[1..]);
    }
  }

  /** The flag never goes up without the stored entry. */
  lemma {:induction false} RunConsistent(g: Gate, events: seq<PageEvent>)
    requires Consistent(g)
    ensures Consistent(Run(g, events))
    decreases |events|
  {
    if events != [] {
      RunConsistent(Step(g, events[0]), events[1..]);
    }
  }

  /** Without the stored entry, the only way in is an accepted password:
      refusals, unreadable replies, lost connections and mounts leave the
      gate closed. */
  lemma {:induction false} OnlyAcceptedOpens(g: Gate, events: seq<PageEvent>)
    requires !g.authenticated && g.stored != StoredTrue
    requires Run(g, events).authenticated
    ensures Submit(Accepted) in events
    decreases |events|
  {
    if events != [] && events[0] != Submit(Accepted) {
      OnlyAcceptedOpens(Step(g, events[0]), events[1..]);
    }
  }

  /** A tab that logged in keeps its stored entry, so a reload opens the page
      closed and its mount opens it again. */
  lemma {:induction false} ReloadKeepsSession(g: Gate, events: seq<PageEvent>)
    requires Consistent(g)
    requires Run(g, events).authenticated
    ensures Step(Opened(Run(g, events).stored), Mount).authenticated
  {
    RunConsistent(g, events);
  }

  /** What the page renders. */
  datatype Screen = LoginScreen | Dashboard

  /** `AdminPage` together with its `LoginGate` and the tab's session storage. */
  class AdminPage {
    var authenticated: bool
    var stored: Option<string>
    var loginError: string
    var loginLoading: bool

    function State(): Gate
      reads this
    {
      Gate(authenticated, stored, loginError, loginLoading)
    }

    /** `useState(false)` for the flag; `stored` is what the tab's session
        storage holds when the page is opened. */
    constructor (storedAtOpen: Option<string>)
      ensures State() == Opened(storedAtOpen)
    {
      authenticated := false;
      stored := storedAtOpen;
      loginError := "";
      loginLoading := false;
    }

    /** The mount effect: `sessionStorage.getItem("admin_auth") === "true"`. */
    method Mount()
      modifies this`authenticated
      ensures State() == Step(old(State()), PageEvent.Mount)
    {
      if stored == StoredTrue {
        authenticated := true;
      }
    }

    /** `LoginGate`'s `handleSubmit`, with the endpoint's reply as a parameter. */
    method SubmitPassword(reply: Reply)
      modifies this
      ensures State() == Step(old(State()), Submit(reply))
    {
      loginLoading := true;
      loginError := "";
      match reply {
        case Accepted =>
          stored := StoredTrue;
          authenticated := true;
        case Refused(error) =>
          loginError := RefusalMessage(error);
        case RefusedUnreadable =>
          loginError := MsgNoConnection;
        case Unreachable =>
          loginError := MsgNoConnection;
      }
      loginLoading := false;
    }

    /** The login form while the flag is down, the dashboard once it is up. */
    method Render() returns (screen: Screen)
      ensures screen == Dashboard <==> authenticated
    {
      screen := if authenticated then Dashboard else LoginScreen;
    }
  }
}
