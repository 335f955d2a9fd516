/**
 * The multi-client IPC server (crates/coreipc/src/server.rs): where its
 * socket lives, the length-prefixed hello every client sends, and the map
 * from random client ids to their streams.
 */
module CoreIpcServer {
  import opened Base
  import opened Bytes
  import opened Paths
  import opened Handler

  /** The environment variable that overrides the runtime directory. */
  const COREIPC_RUNTIME_DIR: string := "COREIPC_RUNTIME_DIR"
  const DEFAULT_RUNTIME_DIR: string := "/run/coreipc"

  datatype IoError = UnexpectedEof

  datatype RunOutcome = AcceptFailed | HandshakePanicked | Registered(id: U16)

  /** `get_socket_path`: the runtime directory (the variable's value, or the default) joined with the name. */
  function GetSocketPath(runtimeDir: Option<string>, name: string): (p: string)
    ensures IsAbsolute(name) ==> p == name
    ensures runtimeDir.None? && !IsAbsolute(name) ==> p == DEFAULT_RUNTIME_DIR + [SEPARATOR] + name
    ensures runtimeDir.Some? && !IsAbsolute(name) && (runtimeDir.value == [] || runtimeDir.value[|runtimeDir.value| - 1] == SEPARATOR) ==> p == runtimeDir.value + name
    ensures runtimeDir.Some? && !IsAbsolute(name) && runtimeDir.value != [] && runtimeDir.value[|runtimeDir.value| - 1] != SEPARATOR ==> p == runtimeDir.value + [SEPARATOR] + name
  {
    var base := match runtimeDir
      case Some(dir) => dir
      case None => DEFAULT_RUNTIME_DIR;
    Join(base, name)
  }

  /** The unit test `socket_path_custom`: the variable set to "/tmp". */
  lemma SocketPathCustom()
    ensures GetSocketPath(Some("/tmp"), "test.sock") == "/tmp/test.sock"
  {
    assert "/tmp"[3] != SEPARATOR;
    assert "/tmp" + [SEPARATOR] + "test.sock" == "/tmp/test.sock";
  }

  /** The unit test `socket_path`: the variable unset. */
  lemma SocketPathDefault()
    ensures GetSocketPath(None, "test.sock") == "/run/coreipc/test.sock"
  {
    assert DEFAULT_RUNTIME_DIR[11] != SEPARATOR;
    assert DEFAULT_RUNTIME_DIR + [SEPARATOR] + "test.sock" == "/run/coreipc/test.sock";
  }

  /** The socket file is named exactly by the server name, under whichever directory is chosen. */
  lemma SocketPathFileName(runtimeDir: Option<string>, name: string)
    requires name != [] && SEPARATOR !in name
    ensures FileName(GetSocketPath(runtimeDir, name)) == name
    ensures runtimeDir.None? ==> Parent(GetSocketPath(runtimeDir, name)) == DEFAULT_RUNTIME_DIR + "/"
  {
    var base := if runtimeDir.Some? then runtimeDir.value else DEFAULT_RUNTIME_DIR;
    FileNameOfJoin(base, name);
  }

  /** A frame: a big-endian u16 length, then exactly that many bytes. */
  function Frame(payload: seq<Byte>): (s: seq<Byte>)
    requires |payload| < 0x1_0000
    ensures |s| == 2 + |payload|
    ensures FromBeU16(s[..2]) == |payload| && s[2..] == payload
  {
    BeU16(|payload|) + payload
  }

  /** Read one frame from the front of a stream, giving its payload and what follows it. */
  function ReadFrame(input: seq<Byte>): (r: Option<(seq<Byte>, seq<Byte>)>)
    ensures r.Some? <==> |input| >= 2 && |input| - 2 >= FromBeU16(input[..2])
    ensures r.Some? ==> |r.value.0| == FromBeU16(input[..2]) && input == input[..2] + r.value.0 + r.value.1
  {
    if |input| < 2 then None
    else
      var len := FromBeU16(input[..2]);
      if |input| - 2 < len then None
      else
        assert input == input[..2] + input[2..2 + len] + input[2 + len..];
        Some((input[2..2 + len], input[2 + len..]))
  }

  /** Reading a frame gives back its payload, and leaves whatever followed it. */
  lemma FrameRoundTrip(payload: seq<Byte>, rest: seq<Byte>)
    requires |payload| < 0x1_0000
    ensures ReadFrame(Frame(payload) + rest) == Some((payload, rest))
  {
    var s := Frame(payload) + rest;
    assert s[..2] == BeU16(|payload|);
    BeU16RoundTrip(|payload|);
    assert s[2..2 + |payload|] == payload;
    assert s[2 + |payload|..] == rest;
  }

  /** Every readable stream is a frame followed by the rest: reading loses nothing. */
  lemma ReadFrameReframes(input: seq<Byte>)
    requires ReadFrame(input).Some?
    ensures var (payload, rest) := ReadFrame(input).value; Frame(payload) + rest == input
  {
    FromBeU16RoundTrip(input[..2]);
  }

  /** `ClientStream::create`: read the length, then exactly that many bytes, whose count always equals the length. */
  method ClientStreamCreate(input: seq<Byte>) returns (r: Result<(), IoError>)
    ensures r.Ok? <==> ReadFrame(input).Some?
  {
    if |input| < 2 {
      return Err(UnexpectedEof);
    }
    var len := FromBeU16(input[..2]);
    if |input| - 2 < len {
      return Err(UnexpectedEof);
    }
    var buf := input[2..2 + len];
    var data := |buf|;
    assert data == len;
    r := Ok(());
  }

  class Ipc {
    /** The path the listening socket is bound to. */
    const socketPath: string
    var clients: map<U16, StreamId>

    constructor CreateServer(runtimeDir: Option<string>, name: string)
      ensures socketPath == GetSocketPath(runtimeDir, name) && clients == map[]
    {
      socketPath := GetSocketPath(runtimeDir, name);
      clients := map[];
    }

    constructor FromSocket(path: string)
      ensures socketPath == path && clients == map[]
    {
      socketPath := path;
      clients := map[];
    }

    /**
     * `run`: accept one connection, read its hello (a malformed one panics),
     * then register the stream under the random id, replacing any stream
     * already there and leaving every other id as it was.
     */
    method Run(accepted: Option<StreamId>, clientId: U16, hello: seq<Byte>) returns (o: RunOutcome)
      modifies this`clients
      ensures accepted.None? ==> o == AcceptFailed && clients == old(clients)
      ensures accepted.Some? && ReadFrame(hello).None? ==> o == HandshakePanicked && clients == old(clients)
      ensures accepted.Some? && ReadFrame(hello).Some? ==> o == Registered(clientId)
      ensures o.Registered? ==> clients == old(clients)[clientId := accepted.value]
    {
      if accepted.None? {
        return AcceptFailed;
      }
      var created := ClientStreamCreate(hello);
      if created.Err? {
        return HandshakePanicked;
      }
      clients := clients[clientId := accepted.value];
      o := Registered(clientId);
    }
  }
}
