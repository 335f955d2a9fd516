/**
 * The D-Bus interface of ls-daemon (ls-daemon/src/platform/linux/dbus.rs):
 * a stored login token and the shared controller whose relay flag
 * `activate` sets and `deactivate` clears, both refused while logged out.
 */
module Dbus {
  import opened Base
  import opened Controller

  datatype DbusError = Zbus | UserLoggedOut

  /** What `activate`/`deactivate` answer, and the relay flag they leave. */
  datatype Toggled = Toggled(answer: Result<(), DbusError>, relay: Option<()>)

  /** `get_user`: the stored token, or `UserLoggedOut`. */
  function GetUser(token: Option<string>): (r: Result<string, DbusError>)
    ensures r.Ok? <==> token.Some?
    ensures r.Ok? ==> token == Some(r.value)
    ensures r.Err? ==> r.error == UserLoggedOut
  {
    match token
    case Some(t) => Ok(t)
    case None => Err(UserLoggedOut)
  }

  /** `activate`: with a token, set the flag; without one, refuse and leave it. */
  function ActivateOn(token: Option<string>, relay: Option<()>): (r: Toggled)
    ensures r.answer.Ok? <==> token.Some?
    ensures r.answer.Err? ==> r.answer.error == UserLoggedOut && r.relay == relay
    ensures r.answer.Ok? ==> r.relay == Some(())
  {
    match GetUser(token)
    case Err(e) => Toggled(Err(e), relay)
    case Ok(_) => Toggled(Ok(()), Some(()))
  }

  /** `deactivate`: with a token, clear the flag; without one, refuse and leave it. */
  function DeactivateOn(token: Option<string>, relay: Option<()>): (r: Toggled)
    ensures r.answer.Ok? <==> token.Some?
    ensures r.answer.Err? ==> r.answer.error == UserLoggedOut && r.relay == relay
    ensures r.answer.Ok? ==> r.relay == None
  {
    match GetUser(token)
    case Err(e) => Toggled(Err(e), relay)
    case Ok(_) => Toggled(Ok(()), None)
  }

  /** Activating twice is activating once, and likewise for deactivating. */
  lemma ToggleIdempotent(token: Option<string>, relay: Option<()>)
    ensures ActivateOn(token, ActivateOn(token, relay).relay) == ActivateOn(token, relay)
    ensures DeactivateOn(token, DeactivateOn(token, relay).relay) == DeactivateOn(token, relay)
  {
  }

  /** After a login, the flag follows the last of any sequence of activations and deactivations. */
  lemma {:induction false} LoggedInFlagFollowsLastCall(t: string, relay: Option<()>, calls: seq<bool>)
    requires calls != []
    ensures ApplyCalls(Some(t), relay, calls) == (if calls[|calls| - 1] then Some(()) else None)
    decreases |calls|
  {
    if |calls| > 1 {
      LoggedInFlagFollowsLastCall(t, Step(Some(t), relay, calls[0]), calls[1..]);
    }
  }

  /** Logged out, no sequence of calls changes the flag. */
  lemma {:induction false} LoggedOutFlagFixed(relay: Option<()>, calls: seq<bool>)
    ensures ApplyCalls(None, relay, calls) == relay
    decreases |calls|
  {
    if calls != [] {
      LoggedOutFlagFixed(relay, calls[1..]);
    }
  }

  /** One call: `true` is `activate`, `false` is `deactivate`. */
  function Step(token: Option<string>, relay: Option<()>, activate: bool): (r: Option<()>)
    ensures token.None? ==> r == relay
    ensures token.Some? ==> (r.Some? <==> activate)
  {
    if activate then ActivateOn(token, relay).relay else DeactivateOn(token, relay).relay
  }

  /** The flag after a sequence of calls: only a logged-in daemon ever changes it. */
  function ApplyCalls(token: Option<string>, relay: Option<()>, calls: seq<bool>): (r: Option<()>)
    ensures r != relay ==> token.Some? && calls != []
    decreases |calls|
  {
    if calls == [] then relay else ApplyCalls(token, Step(token, relay, calls[0]), calls[1..])
  }

  class DbusDaemon {
    var token: Option<string>
    const tunController: TunControllerInner

    constructor (tunController: TunControllerInner)
      ensures token == None && this.tunController == tunController
    {
      token := None;
      this.tunController := tunController;
    }

    /** `login`: store the token; nothing is checked and the flag is untouched. */
    method Login(t: string)
      modifies this`token
      ensures token == Some(t)
    {
      token := Some(t);
    }

    method Activate() returns (answer: Result<(), DbusError>)
      modifies tunController`relay
      ensures Toggled(answer, tunController.relay) == ActivateOn(token, old(tunController.relay))
    {
      var user := GetUser(token);
      if user.Err? {
        return Err(user.error);
      }
      tunController.relay := Some(());
      answer := Ok(());
    }

    method Deactivate() returns (answer: Result<(), DbusError>)
      modifies tunController`relay
      ensures Toggled(answer, tunController.relay) == DeactivateOn(token, old(tunController.relay))
    {
      var user := GetUser(token);
      if user.Err? {
        return Err(user.error);
      }
      tunController.relay := None;
      answer := Ok(());
    }
  }
}
