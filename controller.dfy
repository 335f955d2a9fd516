/**
 * The edge controller of ls-daemon (ls-daemon/src/lib.rs): a stored device
 * configuration and a relay flag, plus the polling task that brings a device
 * up while the flag is set. The flag is shared with the D-Bus task, which may
 * change it between any two polls, so the polling task is given the values it
 * observes, one per poll, the outcomes of its device creations and the
 * outcomes of its device reads.
 */
module Controller {
  import opened Base
  import opened Net

  const MTU: nat := 1500
  const TUN_NAME: string := "lanshare0"
  const NETMASK: Ipv4Addr := NETMASK_8

  /** The address the polling task gives every device it creates. */
  const DEVICE_ADDRESS: Ipv4Addr := Ipv4Addr(25, 0, 0, 10)

  /** `config.mtu(MTU).tun_name(TUN_NAME).netmask(NETMASK).up()` on the default configuration. */
  function PrimedConfig(): (c: TunConfig)
    ensures c.mtu == Some(MTU) && c.name == Some(TUN_NAME) && c.netmask == Some(NETMASK) && c.enabled
    ensures c.address == None && c.destination == None
  {
    DEFAULT_CONFIG.(mtu := Some(MTU), name := Some(TUN_NAME), netmask := Some(NETMASK), enabled := true)
  }

  /** The configuration a device is created from: a clone of the stored one with address 25.0.0.10. */
  function DeviceConfig(stored: TunConfig): (c: TunConfig)
    ensures c.address == Some(DEVICE_ADDRESS)
    ensures c.name == stored.name && c.netmask == stored.netmask && c.destination == stored.destination
    ensures c.mtu == stored.mtu && c.enabled == stored.enabled
  {
    stored.(address := Some(DEVICE_ADDRESS))
  }

  /** One `device.read(&mut buf)` into a buffer of MTU bytes. */
  datatype DeviceRead = ReadOk(amount: nat) | ReadFailed

  predicate FitsBuffer(r: DeviceRead)
  {
    r.ReadOk? ==> r.amount <= MTU
  }

  /** What the polling task does, in order. */
  datatype TesterEvent = DeviceUp(config: TunConfig) | CreatePanicked(config: TunConfig) | DeviceReadDone(read: DeviceRead) | DeviceDown | Slept

  /**
   * The polling task over the observed flag values, with no device. A poll
   * that sees the flag set creates a device from `DeviceConfig(stored)`
   * (a failed creation panics the task, which then ends); otherwise the task
   * sleeps and polls again.
   */
  function TesterRun(stored: TunConfig, polls: seq<bool>, creates: seq<bool>, deviceReads: seq<DeviceRead>): (r: seq<TesterEvent>)
    ensures |r| <= 2 * |polls| + |deviceReads|
    decreases |polls|, 2
  {
    if polls == [] then []
    else if !polls[0] then [Slept] + TesterRun(stored, polls[1..], creates, deviceReads)
    else if creates == [] then []
    else if !creates[0] then [CreatePanicked(DeviceConfig(stored))]
    else [DeviceUp(DeviceConfig(stored))] + PumpRun(stored, polls[1..], creates[1..], deviceReads)
  }

  /**
   * The pump, with a device: one read (a read error is only logged), then a
   * poll; set keeps the device, unset takes it down and the task sleeps.
   */
  function PumpRun(stored: TunConfig, polls: seq<bool>, creates: seq<bool>, deviceReads: seq<DeviceRead>): (r: seq<TesterEvent>)
    ensures |r| <= 2 * |polls| + |deviceReads|
    decreases |polls|, 1
  {
    if deviceReads == [] then []
    else [DeviceReadDone(deviceReads[0])] + PumpTail(stored, polls, creates, deviceReads[1..])
  }

  /** What follows a read: the poll that decides whether the device stays. */
  function PumpTail(stored: TunConfig, polls: seq<bool>, creates: seq<bool>, deviceReads: seq<DeviceRead>): (r: seq<TesterEvent>)
    ensures |r| <= 2 * |polls| + |deviceReads|
    decreases |polls|, 0
  {
    if polls == [] then []
    else if polls[0] then PumpRun(stored, polls[1..], creates, deviceReads)
    else [DeviceDown, Slept] + TesterRun(stored, polls[1..], creates, deviceReads)
  }

  /**
   * Device events alternate, up then down, starting with "up" when the
   * device is down; reads happen only with a device; every device is created
   * from `DeviceConfig(stored)`; a failed creation is the last event.
   */
  ghost predicate Alternates(stored: TunConfig, trace: seq<TesterEvent>, up: bool)
    decreases |trace|
  {
    if trace == [] then true
    else match trace[0]
      case DeviceUp(c) => !up && c == DeviceConfig(stored) && Alternates(stored, trace[1..], true)
      case CreatePanicked(c) => !up && c == DeviceConfig(stored) && |trace| == 1
      case DeviceDown => up && Alternates(stored, trace[1..], false)
      case DeviceReadDone(_) => up && Alternates(stored, trace[1..], up)
      case Slept => !up && Alternates(stored, trace[1..], up)
  }

  /** The polling task never creates a second device, reads only with one, and uses the derived configuration. */
  lemma {:induction false} TesterAlternates(stored: TunConfig, polls: seq<bool>, creates: seq<bool>, deviceReads: seq<DeviceRead>)
    ensures Alternates(stored, TesterRun(stored, polls, creates, deviceReads), false)
    decreases |polls|, 2
  {
    var t := TesterRun(stored, polls, creates, deviceReads);
    if polls != [] {
      if !polls[0] {
        TesterAlternates(stored, polls[1..], creates, deviceReads);
        assert t[1..] == TesterRun(stored, polls[1..], creates, deviceReads);
      } else if creates != [] && creates[0] {
        PumpAlternates(stored, polls[1..], creates[1..], deviceReads);
        assert t[1..] == PumpRun(stored, polls[1..], creates[1..], deviceReads);
      }
    }
  }

  lemma {:induction false} PumpAlternates(stored: TunConfig, polls: seq<bool>, creates: seq<bool>, deviceReads: seq<DeviceRead>)
    ensures Alternates(stored, PumpRun(stored, polls, creates, deviceReads), true)
    decreases |polls|, 1
  {
    var t := PumpRun(stored, polls, creates, deviceReads);
    if deviceReads != [] {
      TailAlternates(stored, polls, creates, deviceReads[1..]);
      assert t[1..] == PumpTail(stored, polls, creates, deviceReads[1..]);
    }
  }

  lemma {:induction false} TailAlternates(stored: TunConfig, polls: seq<bool>, creates: seq<bool>, deviceReads: seq<DeviceRead>)
    ensures Alternates(stored, PumpTail(stored, polls, creates, deviceReads), true)
    decreases |polls|, 0
  {
    var t := PumpTail(stored, polls, creates, deviceReads);
    if polls != [] {
      if polls[0] {
        PumpAlternates(stored, polls[1..], creates, deviceReads);
      } else {
        TesterAlternates(stored, polls[1..], creates, deviceReads);
        var rest := TesterRun(stored, polls[1..], creates, deviceReads);
        assert t[1..] == [Slept] + rest;
        assert t[1..][1..] == rest;
      }
    }
  }

  /** While the flag is never observed set, no device is created: the task only sleeps. */
  lemma {:induction false} TesterIdleWithoutRelay(stored: TunConfig, polls: seq<bool>, creates: seq<bool>, deviceReads: seq<DeviceRead>)
    requires forall i :: 0 <= i < |polls| ==> !polls[i]
    ensures TesterRun(stored, polls, creates, deviceReads) == seq(|polls|, _ => Slept)
    decreases |polls|
  {
    if polls != [] {
      TesterIdleWithoutRelay(stored, polls[1..], creates, deviceReads);
    }
  }

  /** While the flag stays set, the pump keeps reading, read errors included; the device is never taken down. */
  lemma {:induction false} PumpContinuesWhileRelaySet(stored: TunConfig, polls: seq<bool>, creates: seq<bool>, deviceReads: seq<DeviceRead>)
    requires forall i :: 0 <= i < |polls| ==> polls[i]
    requires |deviceReads| == |polls| + 1
    ensures PumpRun(stored, polls, creates, deviceReads) == seq(|polls| + 1, i requires 0 <= i <= |polls| => DeviceReadDone(deviceReads[i]))
    decreases |polls|
  {
    if polls != [] {
      PumpContinuesWhileRelaySet(stored, polls[1..], creates, deviceReads[1..]);
    }
  }

  lemma SkipOne<T>(s: seq<T>, i: nat)
    requires i < |s|
    ensures s[i..][0] == s[i] && s[i..][1..] == s[i + 1..]
  {
  }

  class TunControllerInner {
    var config: TunConfig
    var relay: Option<()>

    /** `prime`: the stored configuration and no relay (the spawned polling task is `Tester`). */
    constructor Prime()
      ensures config == PrimedConfig() && relay == None
    {
      config := PrimedConfig();
      relay := None;
    }

    /** `tester`: the nested polling loops, run over the observed flag values, creations and device reads. */
    method Tester(polls: seq<bool>, creates: seq<bool>, deviceReads: seq<DeviceRead>) returns (trace: seq<TesterEvent>)
      requires forall i :: 0 <= i < |deviceReads| ==> FitsBuffer(deviceReads[i])
      ensures trace == TesterRun(config, polls, creates, deviceReads)
    {
      var stored := config;
      ghost var total := TesterRun(stored, polls, creates, deviceReads);
      trace := [];
      var p, c, r := 0, 0, 0;
      while p < |polls|
        invariant 0 <= p <= |polls| && 0 <= c <= |creates| && 0 <= r <= |deviceReads|
        invariant trace + TesterRun(stored, polls[p..], creates[c..], deviceReads[r..]) == total
        decreases |polls| - p
      {
        var relaySet := polls[p];
        SkipOne(polls, p);
        p := p + 1;
        if relaySet {
          var device := DeviceConfig(stored);
          if c == |creates| {
            return;
          }
          var created := creates[c];
          SkipOne(creates, c);
          c := c + 1;
          if !created {
            trace := trace + [CreatePanicked(device)];
            return;
          }
          trace := trace + [DeviceUp(device)];
          while true
            invariant 0 <= p <= |polls| && 0 <= r <= |deviceReads|
            invariant trace + PumpRun(stored, polls[p..], creates[c..], deviceReads[r..]) == total
            decreases |polls| - p
          {
            if r == |deviceReads| {
              return;
            }
            trace := trace + [DeviceReadDone(deviceReads[r])];
            SkipOne(deviceReads, r);
            r := r + 1;
            assert trace + PumpTail(stored, polls[p..], creates[c..], deviceReads[r..]) == total;
            if p == |polls| {
              return;
            }
            var stillSet := polls[p];
            SkipOne(polls, p);
            p := p + 1;
            if stillSet {
              continue;
            }
            trace := trace + [DeviceDown, Slept];
            break;
          }
        } else {
          trace := trace + [Slept];
        }
      }
    }
  }
}
