/**
 * Packet forwarding on the relay (relay-server/src/packet.rs): each read of
 * a session's inbound stream is one IPv4 datagram, forwarded verbatim to the
 * stream registered under its destination address, or dropped.
 */
module Packet {
  import opened Base
  import opened Bytes
  import opened Net
  import opened Handler

  /** `let mut buf = [0; 4096]`: a read returns at most this many bytes. */
  const READ_BUFFER: nat := 4096

  type Datagram = s: seq<Byte> | |s| <= READ_BUFFER

  /** One `recv.read(&mut buf)`: `Ok(amount)` with the bytes read, or an error. */
  datatype ReadResult = Chunk(bytes: Datagram) | ReadError

  datatype HeaderError = UnexpectedEnd | UnexpectedVersion | HeaderLengthTooSmall | TotalLengthTooSmall

  /** The fields of an IPv4 header the core uses (section 3.1 of RFC 791). */
  datatype Ipv4Header = Ipv4Header(ihl: nat, totalLength: U16, source: seq<Byte>, destination: seq<Byte>)

  /**
   * A minimal IPv4 header parser in the place of `Ipv4Header::from_slice`:
   * version 4, a header length of at least five 32-bit words that fits in
   * the slice, a total length no shorter than the header. Source address in
   * octets 12-15, destination in octets 16-19.
   */
  function ParseHeader(pkt: seq<Byte>): (r: Result<Ipv4Header, HeaderError>)
    ensures r.Ok? ==> |pkt| >= 20 && pkt[0] / 16 == 4 && |r.value.destination| == 4
    ensures r.Ok? ==> r.value.destination == pkt[16..20]
  {
    if |pkt| < 20 then Err(UnexpectedEnd)
    else if pkt[0] / 16 != 4 then Err(UnexpectedVersion)
    else if pkt[0] % 16 < 5 then Err(HeaderLengthTooSmall)
    else if |pkt| < (pkt[0] % 16) * 4 then Err(UnexpectedEnd)
    else if FromBeU16(pkt[2..4]) < (pkt[0] % 16) * 4 then Err(TotalLengthTooSmall)
    else Ok(Ipv4Header(pkt[0] % 16, FromBeU16(pkt[2..4]), pkt[12..16], pkt[16..20]))
  }

  /** `parse_ipv4`: the destination octets, unchanged, as an address. */
  function ParseIpv4(header: Ipv4Header): (addr: Ipv4Addr)
    requires |header.destination| == 4
    ensures Octets(addr) == header.destination
  {
    FromOctets(header.destination)
  }

  /** A forwarding write: the bytes written to a target stream. */
  datatype Write = Write(stream: StreamId, bytes: seq<Byte>)

  /** The destination a datagram is routed by, when its header parses. */
  function Destination(pkt: seq<Byte>): Option<Ipv4Addr>
  {
    match ParseHeader(pkt)
    case Ok(h) => Some(ParseIpv4(h))
    case Err(_) => None
  }

  /** The decision for one datagram: a write on a route hit, nothing otherwise. */
  function Decide(pkt: seq<Byte>, routes: map<Ipv4Addr, StreamId>): (w: Option<Write>)
    ensures w.Some? <==> ParseHeader(pkt).Ok? && FromOctets(pkt[16..20]) in routes
    ensures w.Some? ==> w.value == Write(routes[FromOctets(pkt[16..20])], pkt)
  {
    match Destination(pkt)
    case Some(d) => if d in routes then Some(Write(routes[d], pkt)) else None
    case None => None
  }

  function AsSeq<T>(o: Option<T>): seq<T>
  {
    match o
    case Some(x) => [x]
    case None => []
  }

  /** The writes the loop performs for a run of received: one decision per read, up to the first read error. */
  function Forwarded(received: seq<ReadResult>, routes: map<Ipv4Addr, StreamId>): (w: seq<Write>)
    ensures |w| <= |received|
  {
    if received == [] || received[0].ReadError? then []
    else AsSeq(Decide(received[0].bytes, routes)) + Forwarded(received[1..], routes)
  }

  /** Every write goes to a stream registered in the route table. */
  lemma {:induction false} ForwardedOnRoutes(received: seq<ReadResult>, routes: map<Ipv4Addr, StreamId>)
    ensures forall k :: 0 <= k < |Forwarded(received, routes)| ==> Forwarded(received, routes)[k].stream in routes.Values
  {
    if received != [] && received[0].Chunk? {
      ForwardedOnRoutes(received[1..], routes);
    }
  }

  /**
   * Routing correctness: a datagram is written to stream `y` exactly when
   * its header parses, its destination D is in the table and `y` is
   * registered under D; and then it is written verbatim.
   */
  lemma RoutingCorrect(pkt: Datagram, routes: map<Ipv4Addr, StreamId>, y: StreamId, bytes: seq<Byte>)
    ensures Forwarded([Chunk(pkt)], routes) == [Write(y, bytes)] <==>
      && ParseHeader(pkt).Ok?
      && FromOctets(pkt[16..20]) in routes
      && routes[FromOctets(pkt[16..20])] == y
      && bytes == pkt
    ensures Forwarded([Chunk(pkt)], routes) == [] <==>
      (ParseHeader(pkt).Err? || FromOctets(pkt[16..20]) !in routes)
  {
    assert [Chunk(pkt)][1..] == [];
    assert Forwarded([Chunk(pkt)], routes) == AsSeq(Decide(pkt, routes));
    if ParseHeader(pkt).Ok? {
      var d := FromOctets(pkt[16..20]);
      assert Destination(pkt) == Some(d);
      if d in routes {
        assert Forwarded([Chunk(pkt)], routes) == [Write(routes[d], pkt)];
      }
    }
  }

  /** Every write is a datagram read before the first error, sent on its destination's route. */
  lemma {:induction false} ForwardedSound(received: seq<ReadResult>, routes: map<Ipv4Addr, StreamId>, k: nat)
    requires k < |Forwarded(received, routes)|
    ensures exists i :: (0 <= i < |received| && received[i].Chunk? &&
                         (forall j :: 0 <= j < i ==> received[j].Chunk?) &&
                         Decide(received[i].bytes, routes) == Some(Forwarded(received, routes)[k]))
  {
    var head := AsSeq(Decide(received[0].bytes, routes));
    if k < |head| {
      assert Forwarded(received, routes)[k] == head[0];
    } else {
      ForwardedSound(received[1..], routes, k - |head|);
      var i :| 0 <= i < |received[1..]| && received[1..][i].Chunk? &&
        (forall j :: 0 <= j < i ==> received[1..][j].Chunk?) &&
        Decide(received[1..][i].bytes, routes) == Some(Forwarded(received[1..], routes)[k - |head|]);
      assert received[i + 1] == received[1..][i];
      forall j | 0 <= j < i + 1 ensures received[j].Chunk? {
        if j > 0 { assert received[j] == received[1..][j - 1]; }
      }
    }
  }

  /** Reads after a read error are never looked at. */
  lemma {:induction false} ForwardedStopsAtError(prefix: seq<ReadResult>, suffix: seq<ReadResult>, routes: map<Ipv4Addr, StreamId>)
    ensures Forwarded(prefix + [ReadError] + suffix, routes) == Forwarded(prefix + [ReadError], routes)
  {
    if prefix != [] && prefix[0].Chunk? {
      assert (prefix + [ReadError] + suffix)[1..] == prefix[1..] + [ReadError] + suffix;
      assert (prefix + [ReadError])[1..] == prefix[1..] + [ReadError];
      ForwardedStopsAtError(prefix[1..], suffix, routes);
    }
  }

  lemma ForwardedUnfold(received: seq<ReadResult>, i: nat, routes: map<Ipv4Addr, StreamId>)
    requires i < |received| && received[i].Chunk?
    ensures Forwarded(received[i..], routes) == AsSeq(Decide(received[i].bytes, routes)) + Forwarded(received[i + 1..], routes)
  {
    assert received[i..][0] == received[i] && received[i..][1..] == received[i + 1..];
  }

  lemma ForwardedAtError(received: seq<ReadResult>, i: nat, routes: map<Ipv4Addr, StreamId>)
    requires i < |received| && received[i].ReadError?
    ensures Forwarded(received[i..], routes) == []
  {
    assert received[i..][0] == received[i];
  }

  /** One datagram of `parsepkt`: parse the header, read the destination, look it up. */
  method Route(received: seq<ReadResult>, i: nat, routes: map<Ipv4Addr, StreamId>) returns (w: seq<Write>)
    requires i < |received| && received[i].Chunk?
    ensures Forwarded(received[i..], routes) == w + Forwarded(received[i + 1..], routes)
  {
    ForwardedUnfold(received, i, routes);
    var pkt := received[i].bytes;
    var header := ParseHeader(pkt);
    if header.Err? {
      return [];
    }
    var destination := ParseIpv4(header.value);
    if destination !in routes {
      return [];
    }
    w := [Write(routes[destination], pkt)];
  }

  /**
   * `parsepkt`: read, parse, look up, write; parse failures and write
   * failures are only logged. The loop ends at the first read error; the
   * route table is only read. `ended` says whether the run of reads
   * contained that error.
   */
  method ParsePkt(received: seq<ReadResult>, routes: map<Ipv4Addr, StreamId>) returns (writes: seq<Write>, ended: bool)
    ensures writes == Forwarded(received, routes)
    ensures ended <==> exists i :: 0 <= i < |received| && received[i].ReadError?
  {
    writes := [];
    ended := false;
    var i := 0;
    assert received[i..] == received;
    while i < |received|
      invariant 0 <= i <= |received|
      invariant forall j :: 0 <= j < i ==> received[j].Chunk?
      invariant writes + Forwarded(received[i..], routes) == Forwarded(received, routes)
    {
      if received[i].ReadError? {
        ended := true;
        ForwardedAtError(received, i, routes);
        return;
      }
      var w := Route(received, i, routes);
      Regroup(writes, w, Forwarded(received[i + 1..], routes), Forwarded(received, routes));
      writes, i := writes + w, i + 1;
    }
  }
}
