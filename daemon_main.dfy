/**
 * The privileged daemon's socket loop (crates/ls-daemon/src/main.rs): it
 * admits at most `MAX_CLIENTS` connections, and reads from each a handshake
 * of a big-endian u16 length, that many path bytes, then three big-endian
 * u32 words (address, netmask, destination) for the device it creates.
 * Connecting back to the path and creating the device are outcomes given
 * with the connection.
 */
module DaemonMain {
  import opened Base
  import opened Bytes
  import opened Net

  const MAX_CLIENTS: nat := 1

  datatype StreamError = Eof | ConnectFailed | CreateFailed

  /** One accepted connection: the bytes it sends and the outcomes of the two external calls. */
  datatype Connection = Connection(input: seq<Byte>, connectOk: bool, createOk: bool)

  datatype Accept = AcceptFailed | Accepted(conn: Connection)

  datatype Decision = AcceptError | Refused | Served(result: Result<TunConfig, StreamError>)

  datatype Admitted = Admitted(decisions: seq<Decision>, numClients: nat)

  /** The device configuration `get_tun_device` builds: exactly the three addresses, enabled. */
  function DeviceConfigFor(address: Ipv4Addr, netmask: Ipv4Addr, destination: Ipv4Addr): (c: TunConfig)
    ensures c.address == Some(address) && c.netmask == Some(netmask) && c.destination == Some(destination)
    ensures c.enabled && c.name == None && c.mtu == None
  {
    DEFAULT_CONFIG.(address := Some(address), netmask := Some(netmask), destination := Some(destination), enabled := true)
  }

  /** `handle_stream` followed by `get_tun_device`, over the bytes the connection sends. */
  function ParseHandshake(conn: Connection): (r: Result<TunConfig, StreamError>)
    ensures r.Ok? <==> (&& conn.connectOk && conn.createOk && |conn.input| >= 2
                        && |conn.input| - 2 - FromBeU16(conn.input[..2]) >= 12)
    ensures r == Err(ConnectFailed) ==> !conn.connectOk
    ensures r == Err(CreateFailed) ==> !conn.createOk
    ensures |conn.input| >= 2 && |conn.input| - 2 >= FromBeU16(conn.input[..2]) && !conn.connectOk ==> r == Err(ConnectFailed)
    ensures |conn.input| >= 2 && |conn.input| - 2 - FromBeU16(conn.input[..2]) >= 12 && conn.connectOk && !conn.createOk ==> r == Err(CreateFailed)
  {
    var input := conn.input;
    if |input| < 2 then Err(Eof)
    else
      var len := FromBeU16(input[..2]);
      if |input| - 2 < len then Err(Eof)
      else if !conn.connectOk then Err(ConnectFailed)
      else
        var at := 2 + len;
        if |input| - at < 12 then Err(Eof)
        else if !conn.createOk then Err(CreateFailed)
        else
          var address := FromBits(FromBeU32(input[at..at + 4]));
          var netmask := FromBits(FromBeU32(input[at + 4..at + 8]));
          var destination := FromBits(FromBeU32(input[at + 8..at + 12]));
          Ok(DeviceConfigFor(address, netmask, destination))
  }

  /** What a client sends: the path's length and bytes, then the three addresses. */
  function EncodeHandshake(path: seq<Byte>, address: Ipv4Addr, netmask: Ipv4Addr, destination: Ipv4Addr): (s: seq<Byte>)
    requires |path| < 0x1_0000
    ensures |s| == 2 + |path| + 12
  {
    BeU16(|path|) + path + Octets(address) + Octets(netmask) + Octets(destination)
  }

  /** A well-formed handshake, whatever follows it, yields the device configuration of exactly its three addresses. */
  lemma HandshakeRoundTrip(path: seq<Byte>, address: Ipv4Addr, netmask: Ipv4Addr, destination: Ipv4Addr, trailing: seq<Byte>)
    requires |path| < 0x1_0000
    ensures ParseHandshake(Connection(EncodeHandshake(path, address, netmask, destination) + trailing, true, true))
         == Ok(DeviceConfigFor(address, netmask, destination))
  {
    var input := EncodeHandshake(path, address, netmask, destination) + trailing;
    assert input[..2] == BeU16(|path|);
    BeU16RoundTrip(|path|);
    var at := 2 + |path|;
    assert input[at..at + 4] == Octets(address);
    assert input[at + 4..at + 8] == Octets(netmask);
    assert input[at + 8..at + 12] == Octets(destination);
    assert ToBits(address) == FromBeU32(Octets(address));
    FromBitsToBits(address);
    assert ToBits(netmask) == FromBeU32(Octets(netmask));
    FromBitsToBits(netmask);
    assert ToBits(destination) == FromBeU32(Octets(destination));
    FromBitsToBits(destination);
  }

  /** A handshake cut short anywhere ends the connection with an end-of-stream error once the path connects. */
  lemma TruncatedHandshakeIsEof(path: seq<Byte>, address: Ipv4Addr, netmask: Ipv4Addr, destination: Ipv4Addr, n: nat, createOk: bool)
    requires |path| < 0x1_0000
    requires n < 2 + |path| + 12
    ensures ParseHandshake(Connection(EncodeHandshake(path, address, netmask, destination)[..n], true, createOk)) == Err(Eof)
  {
    var full := EncodeHandshake(path, address, netmask, destination);
    var input := full[..n];
    if n >= 2 {
      assert full[..2] == BeU16(|path|);
      assert input[..2] == full[..2];
      BeU16RoundTrip(|path|);
    }
  }

  /** One accept result against the counter: the decision, and the counter after it. */
  function AdmitOne(accept: Accept, n: nat): (r: (Decision, nat))
    ensures r.0 == AcceptError <==> accept.AcceptFailed?
    ensures r.0 == Refused <==> accept.Accepted? && n >= MAX_CLIENTS
    ensures accept.Accepted? && n < MAX_CLIENTS ==> r.0 == Served(ParseHandshake(accept.conn))
    ensures r.1 == (if r.0.Served? && r.0.result.Ok? then n + 1 else n)
  {
    match accept
    case AcceptFailed => (AcceptError, n)
    case Accepted(conn) =>
      if n >= MAX_CLIENTS then (Refused, n)
      else
        var r := ParseHandshake(conn);
        (Served(r), if r.Err? then n else n + 1)
  }

  /** The accept loop over a sequence of accept results, with `num_clients` starting at `n`. */
  function AdmitRun(accepts: seq<Accept>, n: nat): (a: Admitted)
    ensures |a.decisions| == |accepts| && a.numClients >= n
    decreases |accepts|
  {
    if accepts == [] then Admitted([], n)
    else
      var (d, n') := AdmitOne(accepts[0], n);
      var rest := AdmitRun(accepts[1..], n');
      Admitted([d] + rest.decisions, rest.numClients)
  }

  lemma AdmitUnfold(accepts: seq<Accept>, i: nat, n: nat)
    requires i < |accepts|
    ensures var (d, n') := AdmitOne(accepts[i], n);
      var rest := AdmitRun(accepts[i + 1..], n');
      AdmitRun(accepts[i..], n) == Admitted([d] + rest.decisions, rest.numClients)
  {
    assert accepts[i..][0] == accepts[i] && accepts[i..][1..] == accepts[i + 1..];
  }

  /** One decision per accept result, and the counter stays within 0 ..= MAX_CLIENTS. */
  lemma {:induction false} CounterBounded(accepts: seq<Accept>, n: nat)
    requires n <= MAX_CLIENTS
    ensures var a := AdmitRun(accepts, n); |a.decisions| == |accepts| && a.numClients <= MAX_CLIENTS
    ensures forall i :: 0 <= i < |accepts| ==> (AdmitRun(accepts, n).decisions[i].AcceptError? <==> accepts[i].AcceptFailed?)
    decreases |accepts|
  {
    if accepts != [] {
      var n' := AdmitOne(accepts[0], n).1;
      CounterBounded(accepts[1..], n');
      var a := AdmitRun(accepts, n);
      var rest := AdmitRun(accepts[1..], n');
      assert a.decisions == [a.decisions[0]] + rest.decisions;
      forall i | 1 <= i < |accepts|
        ensures a.decisions[i].AcceptError? <==> accepts[i].AcceptFailed?
      {
        assert a.decisions[i] == rest.decisions[i - 1];
        assert accepts[i] == accepts[1..][i - 1];
      }
    }
  }

  /** Once the slot is taken, every later connection is refused and the counter stays at MAX_CLIENTS. */
  lemma {:induction false} FullRefusesAll(accepts: seq<Accept>)
    ensures var a := AdmitRun(accepts, MAX_CLIENTS);
      && a.numClients == MAX_CLIENTS && |a.decisions| == |accepts|
      && forall i :: 0 <= i < |accepts| ==> a.decisions[i] == (if accepts[i].Accepted? then Refused else AcceptError)
    decreases |accepts|
  {
    if accepts != [] {
      FullRefusesAll(accepts[1..]);
      var a := AdmitRun(accepts, MAX_CLIENTS);
      var rest := AdmitRun(accepts[1..], MAX_CLIENTS);
      forall i | 1 <= i < |accepts|
        ensures a.decisions[i] == (if accepts[i].Accepted? then Refused else AcceptError)
      {
        assert a.decisions[i] == rest.decisions[i - 1];
        assert accepts[i] == accepts[1..][i - 1];
      }
    }
  }

  /** After one successful handshake from an empty daemon, every later connection is refused. */
  lemma SuccessTakesSlotForever(conn: Connection, later: seq<Accept>)
    requires ParseHandshake(conn).Ok?
    ensures var a := AdmitRun([Accepted(conn)] + later, 0);
      && |a.decisions| == 1 + |later| && a.decisions[0] == Served(ParseHandshake(conn))
      && forall i :: 1 <= i <= |later| ==> a.decisions[i] == (if later[i - 1].Accepted? then Refused else AcceptError)
  {
    var all := [Accepted(conn)] + later;
    assert all[1..] == later;
    FullRefusesAll(later);
  }

  /** `handle_stream` and `get_tun_device`: the sequential reads from the connection. */
  method HandleStream(conn: Connection) returns (r: Result<TunConfig, StreamError>)
    ensures r == ParseHandshake(conn)
  {
    var input := conn.input;
    var pos: nat := 0;
    if |input| - pos < 2 {
      return Err(Eof);
    }
    var len := FromBeU16(input[pos..pos + 2]);
    pos := pos + 2;
    if |input| - pos < len {
      return Err(Eof);
    }
    var path := input[pos..pos + len];
    pos := pos + len;
    if !conn.connectOk {
      return Err(ConnectFailed);
    }
    if |input| - pos < 4 {
      return Err(Eof);
    }
    var address := FromBits(FromBeU32(input[pos..pos + 4]));
    pos := pos + 4;
    if |input| - pos < 4 {
      return Err(Eof);
    }
    var netmask := FromBits(FromBeU32(input[pos..pos + 4]));
    pos := pos + 4;
    if |input| - pos < 4 {
      return Err(Eof);
    }
    var destination := FromBits(FromBeU32(input[pos..pos + 4]));
    if !conn.createOk {
      return Err(CreateFailed);
    }
    r := Ok(DeviceConfigFor(address, netmask, destination));
  }

  /** One turn of `main`'s loop: refuse when full, otherwise take the slot, and give it back if the handler fails. */
  method Admit(accept: Accept, numClients: nat) returns (decision: Decision, numClients': nat)
    ensures (decision, numClients') == AdmitOne(accept, numClients)
  {
    numClients' := numClients;
    match accept {
      case AcceptFailed =>
        decision := AcceptError;
      case Accepted(conn) =>
        if numClients' >= MAX_CLIENTS {
          decision := Refused;
        } else {
          numClients' := numClients' + 1;
          var r := HandleStream(conn);
          if r.Err? {
            numClients' := numClients' - 1;
          }
          decision := Served(r);
        }
    }
  }

  /** `main`'s accept loop over the accept results. */
  method EventLoop(accepts: seq<Accept>) returns (decisions: seq<Decision>, numClients: nat)
    ensures Admitted(decisions, numClients) == AdmitRun(accepts, 0)
    ensures numClients <= MAX_CLIENTS
  {
    decisions := [];
    numClients := 0;
    for i := 0 to |accepts|
      invariant numClients <= MAX_CLIENTS
      invariant (var rest := AdmitRun(accepts[i..], numClients); Admitted(decisions + rest.decisions, rest.numClients)) == AdmitRun(accepts, 0)
    {
      AdmitUnfold(accepts, i, numClients);
      var decision;
      decision, numClients := Admit(accepts[i], numClients);
      decisions := decisions + [decision];
    }
  }
}
