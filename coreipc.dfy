/**
 * The single-client IPC server (crates/coreipc/src/lib.rs): its socket
 * path, the client slot filled by `wait_for_client`, and `broadcast`, which
 * frames a packet as a big-endian u16 length followed by the bytes. The
 * length is `pkt.len() as u16`, so a packet of 65536 bytes or more is
 * announced with its length modulo 65536.
 */
module CoreIpc {
  import opened Base
  import opened Bytes
  import opened Paths
  import opened Handler
  import opened CoreIpcServer

  /** The environment variable that overrides the base directory. */
  const COREIPC_BASE_PATH: string := "COREIPC_BASE_PATH"
  const DEFAULT_BASE_PATH: string := "/run/coreipc"

  /** `create_server`'s socket path: the base directory (the variable's value, or the default) joined with the name. */
  function ServerSocketPath(basePath: Option<string>, name: string): (p: string)
    ensures IsAbsolute(name) ==> p == name
    ensures basePath.None? && !IsAbsolute(name) ==> p == DEFAULT_BASE_PATH + [SEPARATOR] + name
    ensures basePath.Some? && !IsAbsolute(name) && (basePath.value == [] || basePath.value[|basePath.value| - 1] == SEPARATOR) ==> p == basePath.value + name
    ensures basePath.Some? && !IsAbsolute(name) && basePath.value != [] && basePath.value[|basePath.value| - 1] != SEPARATOR ==> p == basePath.value + [SEPARATOR] + name
  {
    var base := match basePath
      case Some(dir) => dir
      case None => DEFAULT_BASE_PATH;
    Join(base, name)
  }

  /** The unit test: with the variable set to a directory, the socket is that directory, "/", then the name. */
  lemma ServerSocketPathInBase(dir: string, name: string)
    requires dir != [] && dir[|dir| - 1] != SEPARATOR && !IsAbsolute(name)
    ensures ServerSocketPath(Some(dir), name) == dir + "/" + name
  {
  }

  /** What one `broadcast` call does: panic without a client, or the writes it attempts and whether it logs an error. */
  datatype Broadcast = NoClientPanic | Wrote(stream: StreamId, writes: seq<seq<Byte>>, logged: bool)

  /** The length field as written: `pkt.len() as u16`, big-endian. */
  function LengthField(pkt: seq<Byte>): (f: seq<Byte>)
    ensures |f| == 2 && FromBeU16(f) == |pkt| % 0x1_0000
  {
    BeU16RoundTrip(TruncateU16(|pkt|));
    BeU16(TruncateU16(|pkt|))
  }

  /**
   * `broadcast` against the client slot and the outcomes of its two writes:
   * the payload is written only after the length write succeeds, and either
   * failure is only logged.
   */
  function BroadcastOn(client: Option<StreamId>, pkt: seq<Byte>, lengthWriteOk: bool, payloadWriteOk: bool): (b: Broadcast)
    ensures b.NoClientPanic? <==> client.None?
    ensures b.Wrote? ==> b.stream == client.value && |b.writes| >= 1 && b.writes[0] == LengthField(pkt)
    ensures b.Wrote? ==> (|b.writes| == 2 <==> lengthWriteOk) && (lengthWriteOk ==> b.writes[1] == pkt)
    ensures b.Wrote? ==> (b.logged <==> !lengthWriteOk || !payloadWriteOk)
  {
    match client
    case None => NoClientPanic
    case Some(stream) =>
      if !lengthWriteOk then Wrote(stream, [LengthField(pkt)], true)
      else Wrote(stream, [LengthField(pkt), pkt], !payloadWriteOk)
  }

  /** The bytes the client receives, in order. */
  function Concat(writes: seq<seq<Byte>>): seq<Byte>
    decreases |writes|
  {
    if writes == [] then [] else writes[0] + Concat(writes[1..])
  }

  lemma ConcatPair(a: seq<Byte>, b: seq<Byte>)
    ensures Concat([a, b]) == a + b
  {
    assert [a, b][1..] == [b];
    assert [b][1..] == [];
    assert Concat([b]) == b + Concat([]);
    assert Concat([a, b]) == a + Concat([b]);
  }

  /** A packet shorter than 65536 bytes reads back as itself, and the stream stays in step for what follows. */
  lemma BroadcastReadsBack(stream: StreamId, pkt: seq<Byte>, rest: seq<Byte>)
    requires |pkt| < 0x1_0000
    ensures var b := BroadcastOn(Some(stream), pkt, true, true);
      ReadFrame(Concat(b.writes) + rest) == Some((pkt, rest))
  {
    var b := BroadcastOn(Some(stream), pkt, true, true);
    ConcatPair(LengthField(pkt), pkt);
    assert LengthField(pkt) == BeU16(|pkt|);
    FrameRoundTrip(pkt, rest);
  }

  /**
   * As written, a packet of exactly 65536 bytes is announced as empty: the
   * reader takes an empty frame and then misreads the packet's own bytes as
   * further frames.
   */
  lemma OversizeBroadcastMisframed(stream: StreamId)
    ensures var pkt := seq(0x1_0000, _ => 0 as Byte);
      var b := BroadcastOn(Some(stream), pkt, true, true);
      ReadFrame(Concat(b.writes)) == Some(([], pkt))
  {
    var pkt := seq(0x1_0000, _ => 0 as Byte);
    var b := BroadcastOn(Some(stream), pkt, true, true);
    assert LengthField(pkt) == [0, 0];
    ConcatPair([0, 0], pkt);
    assert (([0, 0] + pkt)[..2]) == [0, 0];
    assert ([0, 0] + pkt)[2..] == pkt;
  }

  /** The framing the length field is meant to give: refuse a packet whose length does not fit in a u16. */
  function CheckedFrame(pkt: seq<Byte>): (f: Option<seq<Byte>>)
    ensures f.None? <==> |pkt| >= 0x1_0000
  {
    if |pkt| < 0x1_0000 then Some(Frame(pkt)) else None
  }

  /** Every frame `CheckedFrame` produces reads back as its packet. */
  lemma CheckedFrameRoundTrip(pkt: seq<Byte>, rest: seq<Byte>)
    requires CheckedFrame(pkt).Some?
    ensures ReadFrame(CheckedFrame(pkt).value + rest) == Some((pkt, rest))
  {
    FrameRoundTrip(pkt, rest);
  }

  class IpcServer {
    const socketPath: string
    var client: Option<StreamId>

    constructor CreateServer(basePath: Option<string>, name: string)
      ensures socketPath == ServerSocketPath(basePath, name) && client == None
    {
      socketPath := ServerSocketPath(basePath, name);
      client := None;
    }

    /** `broadcast`: the client slot is read, never changed. */
    method Broadcast(pkt: seq<Byte>, lengthWriteOk: bool, payloadWriteOk: bool) returns (b: Broadcast)
      ensures b == BroadcastOn(client, pkt, lengthWriteOk, payloadWriteOk)
    {
      var len := TruncateU16(|pkt|);
      match client {
        case None =>
          return NoClientPanic;
        case Some(stream) =>
          var writes := [BeU16(len)];
          if !lengthWriteOk {
            return Wrote(stream, writes, true);
          }
          writes := writes + [pkt];
          b := Wrote(stream, writes, !payloadWriteOk);
      }
    }

    /** `wait_for_client`: a successful accept fills the slot (replacing any client); a failed one leaves it. */
    method WaitForClient(accepted: Option<StreamId>)
      modifies this`client
      ensures client == if accepted.Some? then accepted else old(client)
    {
      if accepted.Some? {
        client := accepted;
      }
    }
  }
}
