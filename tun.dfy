/**
 * The device controller of ls-daemon (ls-daemon/src/tun.rs): it turns each
 * daemon event into a device, or its absence, sent on a channel. Creating
 * the device and sending are `unwrap`ped, so either failing panics the task.
 */
module Tun {
  import opened Base
  import opened Net

  const DEFAULT_MTU: nat := 1500

  datatype DaemonEvent = Up | Down

  /** What the environment does for one event: whether the device is created and whether the send is received. */
  datatype EventEnv = EventEnv(created: bool, delivered: bool)

  datatype Handled = Sent(item: Option<Device>) | Panicked

  datatype ListenEnd = ChannelClosed | TaskPanicked

  datatype Listened = Listened(sent: seq<Option<Device>>, end: ListenEnd)

  /** `TunController::new`'s configuration: 25.0.0.2/255.0.0.0, MTU 1500, enabled, no name or destination. */
  function ControllerConfig(): (c: TunConfig)
    ensures c.address == Some(Ipv4Addr(25, 0, 0, 2)) && c.netmask == Some(NETMASK_8)
    ensures c.mtu == Some(DEFAULT_MTU) && c.enabled && c.name == None && c.destination == None
  {
    DEFAULT_CONFIG.(address := Some(Ipv4Addr(25, 0, 0, 2)), netmask := Some(NETMASK_8), mtu := Some(DEFAULT_MTU), enabled := true)
  }

  /** `handle_event`: "up" sends a device built from the configuration, "down" sends nothing-present. */
  function HandleEvent(config: TunConfig, event: DaemonEvent, env: EventEnv): (h: Handled)
    ensures h.Panicked? <==> !env.delivered || (event.Up? && !env.created)
    ensures h.Sent? && event.Up? ==> h.item == Some(Device(config))
    ensures h.Sent? && event.Down? ==> h.item == None
  {
    match event
    case Up => if env.created && env.delivered then Sent(Some(Device(config))) else Panicked
    case Down => if env.delivered then Sent(None) else Panicked
  }

  /** `listen`: handle events in order until the channel closes or a handler panics. */
  function ListenRun(config: TunConfig, events: seq<DaemonEvent>, envs: seq<EventEnv>): (l: Listened)
    requires |envs| == |events|
    ensures |l.sent| <= |events|
    ensures l.end == ChannelClosed ==> |l.sent| == |events|
    decreases |events|
  {
    if events == [] then Listened([], ChannelClosed)
    else match HandleEvent(config, events[0], envs[0])
      case Panicked => Listened([], TaskPanicked)
      case Sent(item) =>
        var rest := ListenRun(config, events[1..], envs[1..]);
        Listened([item] + rest.sent, rest.end)
  }

  /**
   * The items sent are exactly the handled events before the first failing
   * one, in order; the task ends by panicking exactly when some event fails.
   */
  lemma {:induction false} ListenSendsInOrder(config: TunConfig, events: seq<DaemonEvent>, envs: seq<EventEnv>)
    requires |envs| == |events|
    ensures var l := ListenRun(config, events, envs);
      && |l.sent| <= |events|
      && (forall i :: 0 <= i < |l.sent| ==> HandleEvent(config, events[i], envs[i]) == Sent(l.sent[i]))
      && (l.end == TaskPanicked <==> |l.sent| < |events|)
      && (|l.sent| < |events| ==> HandleEvent(config, events[|l.sent|], envs[|l.sent|]).Panicked?)
    decreases |events|
  {
    if events != [] && HandleEvent(config, events[0], envs[0]).Sent? {
      ListenSendsInOrder(config, events[1..], envs[1..]);
    }
  }

  /** With every creation and send succeeding, one item per event: a device for "up", none for "down". */
  lemma AllDeliveredListen(config: TunConfig, events: seq<DaemonEvent>, envs: seq<EventEnv>)
    requires |envs| == |events|
    requires forall i :: 0 <= i < |envs| ==> envs[i].created && envs[i].delivered
    ensures var l := ListenRun(config, events, envs);
      && l.end == ChannelClosed && |l.sent| == |events|
      && forall i :: 0 <= i < |events| ==> l.sent[i] == (if events[i].Up? then Some(Device(config)) else None)
  {
    ListenSendsInOrder(config, events, envs);
  }

  class TunController {
    var config: TunConfig

    constructor ()
      ensures config == ControllerConfig()
    {
      config := ControllerConfig();
    }

    /** `listen`: the receive loop; the configuration is never changed. */
    method Listen(events: seq<DaemonEvent>, envs: seq<EventEnv>) returns (l: Listened)
      requires |envs| == |events|
      ensures l == ListenRun(config, events, envs)
    {
      var sent: seq<Option<Device>> := [];
      var i := 0;
      while i < |events|
        invariant 0 <= i <= |events|
        invariant ListenRun(config, events, envs) == (var rest := ListenRun(config, events[i..], envs[i..]); Listened(sent + rest.sent, rest.end))
      {
        var handled := HandleEvent(config, events[i], envs[i]);
        assert events[i..][1..] == events[i + 1..] && envs[i..][1..] == envs[i + 1..];
        match handled {
          case Panicked =>
            return Listened(sent, TaskPanicked);
          case Sent(item) =>
            sent := sent + [item];
        }
        i := i + 1;
      }
      l := Listened(sent, ChannelClosed);
    }
  }
}
