/**
 * The earlier device controller (archive/ls-daemon/src/tun.rs): it turns
 * daemon events into device events for the device task. A failed send is
 * only logged, so every received event produces exactly one send attempt.
 */
module ArchiveTun {
  import opened Base
  import opened Net
  import opened Handler

  const DEFAULT_MTU: nat := 1500

  datatype DaemonEvent = RemoteAdd(bi: StreamId) | RemoteDel | Up(address: Ipv4Addr, netmask: Ipv4Addr) | Down

  datatype TunEvent = SetRemote(remote: Option<StreamId>) | TunUp(config: TunConfig) | TunDown

  /** `TunController::new`'s configuration: name "lanshare0", MTU 1500, enabled, no addresses. */
  function ControllerConfig(): (c: TunConfig)
    ensures c.name == Some("lanshare0") && c.mtu == Some(DEFAULT_MTU) && c.enabled
    ensures c.address == None && c.netmask == None && c.destination == None
  {
    DEFAULT_CONFIG.(name := Some("lanshare0"), mtu := Some(DEFAULT_MTU), enabled := true)
  }

  /**
   * `handle_event`'s translation. A remote is passed on as it came; "up"
   * carries a clone of the stored configuration with the event's address and
   * netmask and every other field kept.
   */
  function Translate(config: TunConfig, event: DaemonEvent): (t: TunEvent)
    ensures t.SetRemote? <==> event.RemoteAdd? || event.RemoteDel?
    ensures event.RemoteAdd? ==> t.remote == Some(event.bi)
    ensures event.RemoteDel? ==> t.remote == None
    ensures t.TunDown? <==> event.Down?
    ensures t.TunUp? <==> event.Up?
    ensures t.TunUp? ==> t.config.address == Some(event.address) && t.config.netmask == Some(event.netmask)
    ensures t.TunUp? ==> t.config.name == config.name && t.config.mtu == config.mtu
    ensures t.TunUp? ==> t.config.destination == config.destination && t.config.enabled == config.enabled
  {
    match event
    case RemoteAdd(bi) => SetRemote(Some(bi))
    case RemoteDel => SetRemote(None)
    case Up(address, netmask) => TunUp(config.(address := Some(address), netmask := Some(netmask)))
    case Down => TunDown
  }

  /** Translation loses nothing: the event is recoverable from what is sent. */
  lemma {:induction false} TranslateInjective(config: TunConfig, e1: DaemonEvent, e2: DaemonEvent)
    requires Translate(config, e1) == Translate(config, e2)
    ensures e1 == e2
  {
    var t := Translate(config, e1);
    if e1.Up? {
      assert e2.Up?;
      assert t.config.address == Some(e1.address) == Some(e2.address);
      assert t.config.netmask == Some(e1.netmask) == Some(e2.netmask);
    }
  }

  class TunController {
    var config: TunConfig

    constructor ()
      ensures config == ControllerConfig()
    {
      config := ControllerConfig();
    }

    /** `listen`: one send attempt per received event, in order, whether or not it is received. */
    method Listen(events: seq<DaemonEvent>) returns (sends: seq<TunEvent>)
      ensures |sends| == |events|
      ensures forall i :: 0 <= i < |events| ==> sends[i] == Translate(config, events[i])
    {
      sends := [];
      for i := 0 to |events|
        invariant |sends| == i
        invariant forall j :: 0 <= j < i ==> sends[j] == Translate(config, events[j])
      {
        sends := sends + [Translate(config, events[i])];
      }
    }
  }
}
