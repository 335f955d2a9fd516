/**
 * The IPC client (crates/coreipc/src/client.rs): where it binds its own
 * socket (the runtime directory joined with the name, "-" and a random id
 * in six upper-case hex digits) and `send`, which writes bytes verbatim to
 * the server stream.
 */
module CoreIpcClient {
  import opened Base
  import opened Bytes
  import opened Paths

  const MAX_CLIENT_ID: nat := 0xFF_FFFF

  datatype IoError = WriteFailed

  function DecimalDigit(d: nat): char
    requires d < 10
  {
    "0123456789"[d]
  }

  /** `{uid}`: the shortest decimal spelling of a number. */
  function Decimal(n: nat): (s: string)
    ensures |s| >= 1 && (|s| > 1 ==> s[0] != '0')
    ensures forall i :: 0 <= i < |s| ==> '0' <= s[i] <= '9'
    decreases n
  {
    if n < 10 then [DecimalDigit(n)] else Decimal(n / 10) + [DecimalDigit(n % 10)]
  }

  function ParseDecimal(s: string): nat
    requires forall i :: 0 <= i < |s| ==> '0' <= s[i] <= '9'
    decreases |s|
  {
    if s == [] then 0 else ParseDecimal(s[..|s| - 1]) * 10 + (s[|s| - 1] as int - '0' as int)
  }

  /** The decimal spelling reads back as the number. */
  lemma {:induction false} DecimalRoundTrip(n: nat)
    ensures ParseDecimal(Decimal(n)) == n
    decreases n
  {
    var s := Decimal(n);
    if n >= 10 {
      DecimalRoundTrip(n / 10);
      assert s[..|s| - 1] == Decimal(n / 10);
    }
  }

  /** `get_runtime_dir`: `XDG_RUNTIME_DIR` when set, else "/run/" and the user id in decimal. */
  function GetRuntimeDir(xdgRuntimeDir: Option<string>, uid: nat): (dir: string)
    ensures xdgRuntimeDir.Some? ==> dir == xdgRuntimeDir.value
    ensures xdgRuntimeDir.None? ==> |dir| > 5 && dir[..5] == "/run/" && dir[5..] == Decimal(uid)
  {
    match xdgRuntimeDir
    case Some(dir) => dir
    case None => "/run/" + Decimal(uid)
  }

  /** The unit test's case: without `XDG_RUNTIME_DIR` the directory names the user id, which reads back from it. */
  lemma RuntimeDirWithoutXdg(uid: nat)
    ensures var dir := GetRuntimeDir(None, uid);
      dir[..5] == "/run/" && ParseDecimal(dir[5..]) == uid
  {
    var dir := GetRuntimeDir(None, uid);
    assert dir[5..] == Decimal(uid);
    DecimalRoundTrip(uid);
  }

  function UpperHexDigit(d: nat): char
    requires d < 16
  {
    "0123456789ABCDEF"[d]
  }

  function UpperHexValue(c: char): nat
  {
    if '0' <= c <= '9' then c as int - '0' as int
    else if 'A' <= c <= 'F' then c as int - 'A' as int + 10
    else 0
  }

  predicate IsUpperHex(c: char)
  {
    '0' <= c <= '9' || 'A' <= c <= 'F'
  }

  function Pow16(w: nat): nat
  {
    if w == 0 then 1 else 16 * Pow16(w - 1)
  }

  /** `{n:0wX}`: exactly `w` upper-case hex digits, zero-padded, for a number below 16^w. */
  function HexDigits(n: nat, w: nat): (s: string)
    ensures |s| == w && forall i :: 0 <= i < |s| ==> IsUpperHex(s[i])
    decreases w
  {
    if w == 0 then [] else HexDigits(n / 16, w - 1) + [UpperHexDigit(n % 16)]
  }

  function ParseHex(s: string): nat
    decreases |s|
  {
    if s == [] then 0 else ParseHex(s[..|s| - 1]) * 16 + UpperHexValue(s[|s| - 1])
  }

  lemma {:induction false} HexDigitsRoundTrip(n: nat, w: nat)
    requires n < Pow16(w)
    ensures ParseHex(HexDigits(n, w)) == n
    decreases w
  {
    if w > 0 {
      var s := HexDigits(n, w);
      HexDigitsRoundTrip(n / 16, w - 1);
      assert s[..|s| - 1] == HexDigits(n / 16, w - 1);
      assert UpperHexValue(UpperHexDigit(n % 16)) == n % 16;
    }
  }

  /** The socket file name: the name, "-", then the id as six upper-case hex digits. */
  function SocketName(name: string, id: nat): (s: string)
    requires id <= MAX_CLIENT_ID
    ensures |s| == |name| + 7 && s[..|name|] == name && s[|name|] == '-'
  {
    name + "-" + HexDigits(id, 6)
  }

  /** The id reads back from the last six characters of the socket name, so distinct ids give distinct names. */
  lemma SocketNameReadsBack(name: string, id: nat)
    requires id <= MAX_CLIENT_ID
    ensures var s := SocketName(name, id); ParseHex(s[|s| - 6..]) == id
  {
    var s := SocketName(name, id);
    assert s[|s| - 6..] == HexDigits(id, 6);
    assert Pow16(6) == 0x100_0000;
    HexDigitsRoundTrip(id, 6);
  }

  /** `create_client`'s socket path: the runtime directory joined with the socket name. */
  function ClientSocketPath(xdgRuntimeDir: Option<string>, uid: nat, name: string, id: nat): (p: string)
    requires id <= MAX_CLIENT_ID
    ensures var s := SocketName(name, id); |p| >= |s| && p[|p| - |s|..] == s
    ensures var d := GetRuntimeDir(xdgRuntimeDir, uid);
      !IsAbsolute(name) && (d == [] || d[|d| - 1] == SEPARATOR) ==> p == d + SocketName(name, id)
    ensures var d := GetRuntimeDir(xdgRuntimeDir, uid);
      !IsAbsolute(name) && d != [] && d[|d| - 1] != SEPARATOR ==> p == d + [SEPARATOR] + SocketName(name, id)
  {
    Join(GetRuntimeDir(xdgRuntimeDir, uid), SocketName(name, id))
  }

  /** A socket name built from a plain name holds no separator. */
  lemma SocketNameIsPlain(name: string, id: nat)
    requires id <= MAX_CLIENT_ID && SEPARATOR !in name
    ensures SEPARATOR !in SocketName(name, id)
  {
    var s := SocketName(name, id);
    forall i | 0 <= i < |s|
      ensures s[i] != SEPARATOR
    {
      if i < |name| {
        assert s[i] == name[i];
      } else if i > |name| {
        assert s[i] == HexDigits(id, 6)[i - |name| - 1];
      }
    }
  }

  /**
   * For a plain name, the bound socket's file name is exactly the socket
   * name, and its parent is the runtime directory, ending in one separator.
   */
  lemma ClientSocketFileName(xdgRuntimeDir: Option<string>, uid: nat, name: string, id: nat)
    requires id <= MAX_CLIENT_ID && SEPARATOR !in name
    ensures FileName(ClientSocketPath(xdgRuntimeDir, uid, name, id)) == SocketName(name, id)
    ensures var d := GetRuntimeDir(xdgRuntimeDir, uid);
      Parent(ClientSocketPath(xdgRuntimeDir, uid, name, id)) == (if d == [] || d[|d| - 1] == SEPARATOR then d else d + [SEPARATOR])
  {
    SocketNameIsPlain(name, id);
    FileNameOfJoin(GetRuntimeDir(xdgRuntimeDir, uid), SocketName(name, id));
  }

  class ConnectedClient {
    /** Everything written to the server stream so far. */
    var sent: seq<Byte>

    constructor ()
      ensures sent == []
    {
      sent := [];
    }

    /**
     * `send`: `write_all` of the data. The stream accepts `accepted` bytes;
     * if that is short of the data, the prefix written stays written and the
     * call fails.
     */
    method Send(data: seq<Byte>, accepted: nat) returns (r: Result<(), IoError>)
      modifies this
      ensures r.Ok? <==> accepted >= |data|
      ensures r.Ok? ==> sent == old(sent) + data
      ensures r.Err? ==> sent == old(sent) + data[..accepted]
    {
      if accepted >= |data| {
        sent := sent + data;
        r := Ok(());
      } else {
        sent := sent + data[..accepted];
        r := Err(WriteFailed);
      }
    }
  }
}
