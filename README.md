# lanshare core, modelled in Dafny

lanshare is a prototype virtual LAN. A relay server registers users, gives each
one an address in 25.0.0.0/8 and forwards IPv4 datagrams between their
sessions. An edge daemon drives a TUN device from D-Bus calls and socket
handshakes. A small IPC library carries packets between local processes, and a
CLI sends commands to the daemon. This project models the sequential logic
inside that plumbing and proves what it promises:

- relay framing: the 4-byte big-endian length prefix of `serialise` and `deserialise` (`Wire`);
- relay session registry: `new_ip`, `gen_token`, `login`, and both versions of `upgrade` (`Access`, `Handler`, `ArchiveHandler`);
- relay packet forwarding: `parsepkt` and `parse_ipv4` (`Packet`);
- the relay binary's request/response loop and `ip()` (`RelayMain`);
- the edge daemon's state machines:
  - the D-Bus token/relay flag (`Dbus`);
  - the primed configuration and polling task (`Controller`);
  - both device controllers (`Tun`, `ArchiveTun`);
  - the privileged daemon's admission counter and handshake parser (`DaemonMain`);
- local IPC:
  - socket paths (`Paths`, `CoreIpcServer`, `CoreIpc`, `CoreIpcClient`);
  - the u16-length framing of the client hello and of `broadcast`;
  - the client-id map;
  - client socket naming;
  - `send`;
- the CLI's command classifier and result mapping (`Repl`).

Shared modules:
- `Base` holds `Option` and `Result`.
- `Bytes` holds fixed-width integers and their big-endian encodings.
- `Net` holds IPv4 addresses (`Ipv4Addr::from_bits`/`to_bits`/`from_octets`) and the device configuration value.
- `RelayError` holds the relay's error enum.

How the model represents the source:
- **Random values are inputs.** Random draws (`rng.gen_range`, `rand::random`) are parameters typed to the ranges the source draws from.
- **Effects are inputs.** Each external effect is a parameter giving its outcome: a stream read or write, a device creation, a channel send, an accept, a connect.
- **Concurrency is replaced by observations.** The relay flag that the D-Bus task and the polling task share is given to the polling task as the sequence of values it observes.
- **Loops are methods proved against specification functions.** Each loop in the source is a `method` with a loop whose `ensures` ties the result to a recursive specification function. The properties the source promises are lemmas about that function.
- **Classes where the source mutates state.** State the source updates in place is a `class`:
  - the users table;
  - `TunControllerInner`;
  - `DbusDaemon`;
  - the controllers;
  - `IpcServer`;
  - `Ipc` with its clients map;
  - `ConnectedClient`.

## Model

| member | source | states |
|---|---|---|
| Bytes.TruncateU16 | crates/coreipc/src/lib.rs:62 | `n as u16` equals n below 65536, and always differs from n by a multiple of 65536 |
| Bytes.TruncateU32 | relay-server/src/wire.rs:21 | `n as u32` equals n below 2^32, and always differs from n by a multiple of 2^32 |
| Bytes.BeU16RoundTrip | crates/ls-daemon/src/main.rs:67 | `read_u16` of the two `to_be_bytes` of n is n |
| Bytes.FromBeU16RoundTrip | crates/coreipc/src/server.rs:24 | any two bytes are the big-endian encoding of the u16 they read as |
| Bytes.BeU32RoundTrip | relay-server/src/wire.rs:21-35 | `from_be_bytes` of the 4 `to_be_bytes` of n is n |
| Bytes.FromBeU32RoundTrip | relay-server/src/main.rs:47 | any four bytes are the big-endian encoding of the u32 they read as |
| Net.FromOctets | relay-server/src/packet.rs:35 | the address built from four octets has exactly those octets |
| Net.FromBits | archive/relay-server/src/action/handler.rs:26 | `Ipv4Addr::from_bits` gives the octets of the u32 in big-endian order |
| Net.ToBits | crates/ls-daemon/src/main.rs:84-85 | the bits of an address are its octets read big-endian |
| Net.FromBitsToBits | crates/ls-daemon/src/main.rs:84-85 | converting an address to bits and back gives the address |
| Net.ToBitsFromBits | crates/ls-daemon/src/main.rs:84-85 | converting bits to an address and back gives the bits |
| Wire.BincodeSerialize | relay-server/src/wire.rs:13-19 | the bounded codec succeeds exactly when the encoding fits in 16 KiB, then returns it unchanged, and otherwise reports the size limit |
| Wire.Serialise | relay-server/src/wire.rs:18-25 | succeeds exactly when the codec does; the frame is the payload length as 4 big-endian bytes followed by the payload verbatim, 4 + length bytes in all; a codec failure is a `BincodeError` and no frame |
| Wire.Deserialise | relay-server/src/wire.rs:27-40 | fewer than 4 bytes gives exactly `InsufficientLenBytes`; it panics exactly when the slice `data[4..len]` is out of bounds; otherwise the codec is handed exactly `data[4..len]` |
| Wire.FrameLength | relay-server/src/wire.rs:21-35 | the length read back from the first 4 bytes of a frame is the payload length |
| Wire.DeserialiseOfFrame | relay-server/src/wire.rs:37 | on a frame from `serialise`, the codec receives the payload minus its last four bytes, and a payload shorter than 4 bytes panics |
| Wire.DeserialiseLosesPayload | relay-server/src/wire.rs:37 | concrete case: with the identity codec the payload [1,2,3,4,5] decodes as [1], not as itself |
| Wire.DeserialiseFramed | relay-server/src/wire.rs:27-40 | corrected decoder: never panics; a short buffer is `InsufficientLenBytes`; otherwise the codec receives exactly the `len` bytes after the prefix |
| Wire.DeserialiseFramedRoundTrip | relay-server/src/wire.rs:18-40 | corrected decoder on a frame (with any trailing bytes) returns what the codec decodes from the original payload |
| Access.NewIp | relay-server/src/access.rs:50-61 | the value divided by 2^24 is 25: the first octet of every address is 25 |
| Access.NewIpRange | relay-server/src/access.rs:50-61 | the top octet of `new_ip` is 25, so the result lies in [0x19000000, 0x19FFFFFF] |
| Access.NewIpOctets | relay-server/src/access.rs:53-60 | the address of `new_ip` is 25 followed by the three drawn octets, each in its own bit field |
| Access.NewIpBytes | relay-server/src/main.rs:66-77 | the big-endian bytes of `ip()` are 25 and the three drawn octets |
| Access.NewIpInNetwork | relay-server/src/access.rs:39-60 | the address masked with the login netmask 255.0.0.0 is 25.0.0.0 |
| Access.HexDigit | relay-server/src/access.rs:68-69 | `format!("{:x}")` of a value below 16 is one lowercase hex digit |
| Access.HexDigitValue | relay-server/src/access.rs:68-69 | the digit reads back as the value it was formatted from |
| Access.HexValueDigit | relay-server/src/access.rs:68-69 | every lowercase hex digit is the formatting of its value |
| Access.HexString | relay-server/src/access.rs:63-73 | one character per draw, each the hex digit of that draw |
| Access.HexStringDecodes | relay-server/src/access.rs:63-73 | the token is lowercase hex and each character reads back as its draw |
| Access.GenToken | relay-server/src/access.rs:63-73 | the loop yields exactly N characters, all lowercase hex digits, equal to the digits of the draws in order |
| Access.LoginOn | relay-server/src/access.rs:14-41 | an engine failure is a `SqliteError`; an existing username is `UserAlreadyExists`; on any error the table is unchanged; otherwise exactly the row (username, ip, token) is appended and the response carries that token, that address and netmask 255.0.0.0; username uniqueness is preserved |
| Access.SecondLoginFails | relay-server/src/access.rs:20-28 | a second login with a name that just logged in fails with `UserAlreadyExists` and leaves the table as it was |
| Access.Db.constructor | relay-server/src/db.rs:18-24 | the model's users table starts with no rows |
| Access.Db.Login | relay-server/src/access.rs:14-41 | draws the address and a 16-character hex token, and updates the table and answers as `LoginOn`, keeping usernames unique |
| Handler.FindByToken | relay-server/src/action/handler.rs:16-25 | the lookup fails exactly when no row holds the token; otherwise it returns a row holding it |
| Handler.FindByTokenAppend | relay-server/src/action/handler.rs:16-25 | a token that no earlier row holds finds the row just inserted with it |
| Handler.Upgrade | relay-server/src/action/handler.rs:13-37 | a stream is requested exactly when some row holds the token; an unknown token is `QueryReturnedNoRows` with no stream; an open failure is a `QuicError`; success returns only the opened stream; the table is only read |
| Handler.LoginThenUpgrade | relay-server/src/action/handler.rs:13-37 | after a successful login, upgrading with the token it issued returns the opened stream, even when an earlier row holds the same token |
| ArchiveHandler.UpgradeWithAddress | archive/relay-server/src/action/handler.rs:15-35 | as `Upgrade`, but success pairs `Ipv4Addr::from_bits` of the token's stored bits with the opened stream |
| ArchiveHandler.LoginThenUpgradeAddress | archive/relay-server/src/action/handler.rs:15-35 | after a successful login, when no earlier row holds the issued token, upgrading with it returns the address 25.x.y.z that login allocated |
| Packet.ParseHeader | relay-server/src/packet.rs:18-20 | a header parses only from at least 20 bytes with version 4, and its destination is octets 16-19 |
| Packet.ParseIpv4 | relay-server/src/packet.rs:34-36 | the address is the header's destination octets, unchanged |
| Packet.Decide | relay-server/src/packet.rs:18-27 | a write is made exactly when the header parses and its destination is routed, and then it sends the whole datagram to that route |
| Packet.Forwarded | relay-server/src/packet.rs:16-31 | no more writes than datagrams read |
| Packet.ForwardedOnRoutes | relay-server/src/packet.rs:16-31 | every write goes to a stream registered in the route table |
| Packet.RoutingCorrect | relay-server/src/packet.rs:17-29 | one datagram is written to stream y exactly when its header parses, its destination is routed and its route is y, and then it is written verbatim; nothing is written exactly when parsing fails or the destination is absent |
| Packet.ForwardedSound | relay-server/src/packet.rs:16-31 | every write is some datagram read before the first read error, sent to the route of its destination |
| Packet.ForwardedStopsAtError | relay-server/src/packet.rs:16 | reads after a read error never affect what is forwarded |
| Packet.Route | relay-server/src/packet.rs:17-27 | one loop iteration writes exactly the decision for that datagram |
| Packet.ParsePkt | relay-server/src/packet.rs:11-32 | the writes are exactly the forwarding decisions for the reads up to the first error, in order, with the route table only read; the loop ends exactly when a read error occurs |
| RelayMain.Replies | relay-server/src/main.rs:46-63 | at most 4 bytes are written per random draw supplied |
| RelayMain.StopPos | relay-server/src/main.rs:46-50 | the loop reads no further than the end of the input |
| RelayMain.StopPosStops | relay-server/src/main.rs:46-50 | at the stop position fewer than 4 length bytes remain, or fewer payload bytes than the length announces |
| RelayMain.RepliesUpToStop | relay-server/src/main.rs:46-63 | the bytes after the stop position add no reply: the output is that of the prefix the loop read |
| RelayMain.ReplyIsAddressBits | relay-server/src/main.rs:58-77 | the 4 bytes written for a draw are the big-endian bits of `ip()` |
| RelayMain.RepliesAreAddresses | relay-server/src/main.rs:46-63 | the output is a run of 4-byte replies, each starting with the octet 25 |
| RelayMain.LoneLogin | relay-server/src/main.rs:47-58 | a complete `Login` request alone on the stream is answered with the reply for the first draw and nothing else |
| RelayMain.LoginAnswered | relay-server/src/main.rs:47-58 | a single length-prefixed `Login` request is answered with exactly the 4 big-endian bytes of `ip()` |
| RelayMain.Respond | relay-server/src/main.rs:49-61 | one complete request writes the reply to a `Login` and nothing for any other payload, consuming one draw per `Login` |
| RelayMain.HandleStream | relay-server/src/main.rs:43-64 | the bytes written are exactly `Replies` of the input: the replies to the requests read in full, one per `Login`, in order |
| Controller.PrimedConfig | ls-daemon/src/lib.rs:7-26 | `prime`'s configuration: mtu 1500, name "lanshare0", netmask 255.0.0.0, up, no address |
| Controller.DeviceConfig | ls-daemon/src/lib.rs:46-47 | a device's configuration is the stored one with only the address set to 25.0.0.10 |
| Controller.TesterRun | ls-daemon/src/lib.rs:40-81 | every event of the polling task uses up a poll or a device read: at most two events per poll plus one per read |
| Controller.TesterAlternates | ls-daemon/src/lib.rs:40-81 | device events alternate up/down starting from down; reads occur only while a device is up; every device is built from `DeviceConfig(stored)`; a failed creation ends the task |
| Controller.PumpAlternates | ls-daemon/src/lib.rs:59-75 | the same, from the pump with a device up |
| Controller.TailAlternates | ls-daemon/src/lib.rs:68-75 | the same, from the poll after a read |
| Controller.TesterIdleWithoutRelay | ls-daemon/src/lib.rs:43-54 | while the flag is never set, the task only sleeps: no device is created |
| Controller.PumpContinuesWhileRelaySet | ls-daemon/src/lib.rs:59-75 | while the flag stays set, the pump does one read per poll (failed reads included) and never takes the device down |
| Controller.TunControllerInner.Prime | ls-daemon/src/lib.rs:24-38 | starts with the primed configuration and no relay |
| Controller.TunControllerInner.Tester | ls-daemon/src/lib.rs:40-81 | the nested polling loops produce exactly the trace `TesterRun` of the stored configuration, which is left unchanged |
| Dbus.GetUser | ls-daemon/src/platform/linux/dbus.rs:27-32 | `UserLoggedOut` exactly when no token is stored, otherwise the token |
| Dbus.ActivateOn | ls-daemon/src/platform/linux/dbus.rs:41-48 | succeeds exactly when logged in and then sets the flag; otherwise `UserLoggedOut` with the flag unchanged |
| Dbus.DeactivateOn | ls-daemon/src/platform/linux/dbus.rs:50-57 | succeeds exactly when logged in and then clears the flag; otherwise `UserLoggedOut` with the flag unchanged |
| Dbus.Step | ls-daemon/src/platform/linux/dbus.rs:41-57 | logged out, a call leaves the flag as it was; logged in, the flag is set exactly when the call is `activate` |
| Dbus.ApplyCalls | ls-daemon/src/platform/linux/dbus.rs:41-57 | the flag changes only when a token is stored and at least one call was made |
| Dbus.ToggleIdempotent | ls-daemon/src/platform/linux/dbus.rs:41-57 | activating twice is activating once, and likewise for deactivating |
| Dbus.LoggedInFlagFollowsLastCall | ls-daemon/src/platform/linux/dbus.rs:41-57 | when logged in, the flag after any sequence of calls is set by the last call |
| Dbus.LoggedOutFlagFixed | ls-daemon/src/platform/linux/dbus.rs:41-57 | when logged out, no sequence of calls changes the flag |
| Dbus.DbusDaemon.constructor | ls-daemon/src/platform/linux/dbus.rs:20-25 | a new daemon has no token and holds the given controller |
| Dbus.DbusDaemon.Login | ls-daemon/src/platform/linux/dbus.rs:37-39 | stores the token, replacing any earlier one |
| Dbus.DbusDaemon.Activate | ls-daemon/src/platform/linux/dbus.rs:41-48 | answers and updates the controller's flag as `ActivateOn`; the token is untouched |
| Dbus.DbusDaemon.Deactivate | ls-daemon/src/platform/linux/dbus.rs:50-57 | answers and updates the controller's flag as `DeactivateOn`; the token is untouched |
| Tun.ControllerConfig | ls-daemon/src/tun.rs:14-23 | address 25.0.0.2, netmask 255.0.0.0, mtu 1500, up |
| Tun.HandleEvent | ls-daemon/src/tun.rs:44-61 | panics exactly when the send fails or an `Up` cannot create its device; `Up` sends a device built from the configuration, `Down` sends `None` |
| Tun.ListenRun | ls-daemon/src/tun.rs:26-41 | at most one item is sent per event, and when the channel closes every event was sent |
| Tun.ListenSendsInOrder | ls-daemon/src/tun.rs:26-41 | the items sent are the results of handling the events in receive order, up to the first failing one; the task panics exactly when some event fails, and otherwise ends when the channel closes |
| Tun.AllDeliveredListen | ls-daemon/src/tun.rs:26-61 | with every creation and send succeeding, exactly one item per event: a device for `Up`, `None` for `Down` |
| Tun.TunController.constructor | ls-daemon/src/tun.rs:14-23 | the controller holds `ControllerConfig` |
| Tun.TunController.Listen | ls-daemon/src/tun.rs:26-41 | the receive loop produces exactly `ListenRun` of the configuration, which no event changes |
| ArchiveTun.ControllerConfig | archive/ls-daemon/src/tun.rs:22-28 | name "lanshare0", mtu 1500, up, no address or netmask |
| ArchiveTun.Translate | archive/ls-daemon/src/tun.rs:47-67 | `RemoteAdd(bi)` becomes `SetRemote(Some(bi))`, `RemoteDel` becomes `SetRemote(None)`, `Down` becomes `Down`; `Up(a, m)` becomes `Up` of the base configuration with only the address and netmask replaced |
| ArchiveTun.TranslateInjective | archive/ls-daemon/src/tun.rs:47-67 | distinct daemon events become distinct tunnel events |
| ArchiveTun.TunController.constructor | archive/ls-daemon/src/tun.rs:22-28 | the controller holds `ControllerConfig` |
| ArchiveTun.TunController.Listen | archive/ls-daemon/src/tun.rs:31-44 | exactly one tunnel event per daemon event, in order, each the translation of its event |
| DaemonMain.ParseHandshake | crates/ls-daemon/src/main.rs:65-107 | succeeds exactly when the connect and the device creation succeed and the input holds the 2-byte path length, the path and 12 address bytes; once the path is read, a failed connect is exactly `ConnectFailed`, and once the addresses are read after a connect, a failed creation is exactly `CreateFailed` |
| DaemonMain.DeviceConfigFor | crates/ls-daemon/src/main.rs:100-105 | the device configuration uses exactly the three addresses read, and is up |
| DaemonMain.EncodeHandshake | crates/ls-daemon/src/main.rs:65-96 | a client's handshake is 2 + path length + 12 bytes |
| DaemonMain.HandshakeRoundTrip | crates/ls-daemon/src/main.rs:65-107 | parsing an encoded handshake (with any trailing bytes) yields the device configuration of exactly its three addresses |
| DaemonMain.TruncatedHandshakeIsEof | crates/ls-daemon/src/main.rs:67-94 | every proper prefix of a handshake fails with end of stream, before device creation is reached |
| DaemonMain.CounterBounded | crates/ls-daemon/src/main.rs:42-62 | the counter stays within [0, MAX_CLIENTS]; one decision per accept; an accept error is exactly a failed accept |
| DaemonMain.FullRefusesAll | crates/ls-daemon/src/main.rs:46-49 | with the counter at MAX_CLIENTS, every connection is refused and the counter stays there |
| DaemonMain.SuccessTakesSlotForever | crates/ls-daemon/src/main.rs:51-55 | after one successful handshake from an empty daemon, every later connection is refused |
| DaemonMain.AdmitOne | crates/ls-daemon/src/main.rs:44-61 | an accept error exactly when the accept fails; a refusal exactly when a connection arrives with MAX_CLIENTS admitted; below that, the connection is served with the outcome of `ParseHandshake`, and the count grows by one exactly when that succeeds |
| DaemonMain.AdmitRun | crates/ls-daemon/src/main.rs:42-62 | one decision per accept, and the count never falls below where it started |
| DaemonMain.HandleStream | crates/ls-daemon/src/main.rs:65-108 | the sequential reads give exactly `ParseHandshake` of the connection |
| DaemonMain.Admit | crates/ls-daemon/src/main.rs:44-61 | one accept: refused when full, counter incremented on admission and decremented when `handle_stream` fails, unchanged on an accept error |
| DaemonMain.EventLoop | crates/ls-daemon/src/main.rs:42-62 | the accept loop makes exactly the decisions `AdmitRun` from an empty daemon, and the counter never exceeds MAX_CLIENTS |
| Paths.Join | crates/coreipc/src/server.rs:134-137 | an absolute name replaces the base; otherwise the result is the base followed by the name, with a separator between them exactly when the base is non-empty and does not already end in one |
| Paths.FileNameOfJoin | crates/coreipc/src/lib.rs:40 | the file name of a base joined with a simple name is that name, and its parent is the base, followed by a separator unless the base is empty or already ends in one |
| Paths.FileNameSuffix | crates/coreipc/src/client.rs:25 | a simple name after a separator is the file name |
| CoreIpcServer.GetSocketPath | crates/coreipc/src/server.rs:129-138 | an absolute name is the path; otherwise the name follows `COREIPC_RUNTIME_DIR`, or "/run/coreipc/" when it is unset, with a separator added exactly when the directory is non-empty and does not end in one |
| CoreIpcServer.SocketPathCustom | crates/coreipc/src/server.rs:145-154 | with the variable set to "/tmp", "test.sock" is placed at "/tmp/test.sock" |
| CoreIpcServer.SocketPathDefault | crates/coreipc/src/server.rs:156-160 | with the variable unset, "test.sock" is placed at "/run/coreipc/test.sock" |
| CoreIpcServer.SocketPathFileName | crates/coreipc/src/server.rs:129-138 | the socket's file name is the given name, and by default it lies directly in "/run/coreipc/" |
| CoreIpcServer.Frame | crates/coreipc/src/server.rs:23-33 | the first 2 bytes read back as the payload length and the payload follows verbatim |
| CoreIpcServer.ReadFrame | crates/coreipc/src/server.rs:23-33 | a frame is read exactly when 2 length bytes and that many payload bytes are present, and the input is the length, the payload and the rest |
| CoreIpcServer.FrameRoundTrip | crates/coreipc/src/server.rs:23-33 | a framed payload (with anything after it) reads back as that payload and the rest |
| CoreIpcServer.ReadFrameReframes | crates/coreipc/src/server.rs:23-33 | a frame that was read re-frames to the bytes it was read from |
| CoreIpcServer.ClientStreamCreate | crates/coreipc/src/server.rs:23-33 | the hello succeeds exactly when a complete frame arrives, and the count read then equals the length |
| CoreIpcServer.Ipc.CreateServer | crates/coreipc/src/server.rs:60-71 | the socket is at `get_socket_path`, with no clients |
| CoreIpcServer.Ipc.FromSocket | crates/coreipc/src/server.rs:90-99 | the given socket, with no clients |
| CoreIpcServer.Ipc.Run | crates/coreipc/src/server.rs:102-121 | an accept failure leaves the map unchanged; a failed hello panics before any insert; otherwise the stream is inserted under the drawn id, replacing that id and leaving the others |
| CoreIpc.ServerSocketPath | crates/coreipc/src/lib.rs:35-40 | an absolute name is the path; otherwise the name follows `COREIPC_BASE_PATH`, or "/run/coreipc/" when it is unset, with a separator added exactly when the base is non-empty and does not end in one |
| CoreIpc.ServerSocketPathInBase | crates/coreipc/src/lib.rs:35-40 | a relative name is placed directly under the base path, after one separator |
| CoreIpc.LengthField | crates/coreipc/src/lib.rs:62 | two bytes reading back as the packet length modulo 65536 |
| CoreIpc.BroadcastOn | crates/coreipc/src/lib.rs:61-79 | no client panics; otherwise the length goes out first, the payload only after a successful length write, and an error is logged exactly when a write fails |
| CoreIpc.BroadcastReadsBack | crates/coreipc/src/lib.rs:61-79 | a packet below 65536 bytes, broadcast without errors, is read back by the u16 framing as exactly that packet |
| CoreIpc.OversizeBroadcastMisframed | crates/coreipc/src/lib.rs:62 | concrete case: a 65536-byte packet is announced as empty and its bytes are left to be misread as later frames |
| CoreIpc.CheckedFrame | crates/coreipc/src/lib.rs:62 | corrected framing: refuses exactly the packets whose length does not fit in a u16 |
| CoreIpc.CheckedFrameRoundTrip | crates/coreipc/src/lib.rs:61-79 | every frame the corrected framing produces reads back as its packet |
| CoreIpc.IpcServer.CreateServer | crates/coreipc/src/lib.rs:34-59 | the socket path is the base path joined with the name, with no client |
| CoreIpc.IpcServer.Broadcast | crates/coreipc/src/lib.rs:61-79 | writes as `BroadcastOn`, and the client field is unchanged |
| CoreIpc.IpcServer.WaitForClient | crates/coreipc/src/lib.rs:81-86 | a successful accept sets the client; a failed one leaves it unchanged |
| CoreIpcClient.Decimal | crates/coreipc/src/client.rs:71 | the decimal form of the uid: digits only, without a leading zero |
| CoreIpcClient.DecimalRoundTrip | crates/coreipc/src/client.rs:71 | the decimal form reads back as the number |
| CoreIpcClient.GetRuntimeDir | crates/coreipc/src/client.rs:67-75 | `XDG_RUNTIME_DIR` when it is set; otherwise "/run/" followed by the uid in decimal |
| CoreIpcClient.RuntimeDirWithoutXdg | crates/coreipc/src/client.rs:83-90 | without `XDG_RUNTIME_DIR` the directory is "/run/" followed by the uid, which reads back from it |
| CoreIpcClient.HexDigits | crates/coreipc/src/client.rs:25 | `{:06X}`: exactly the width of upper-case hex digits |
| CoreIpcClient.HexDigitsRoundTrip | crates/coreipc/src/client.rs:25 | zero-padded upper-case hex reads back as the number when it fits in the width |
| CoreIpcClient.SocketName | crates/coreipc/src/client.rs:24-25 | the name, "-", then six more characters |
| CoreIpcClient.SocketNameReadsBack | crates/coreipc/src/client.rs:24-25 | the last six characters of the socket name read back as the drawn id |
| CoreIpcClient.ClientSocketPath | crates/coreipc/src/client.rs:20-25 | the path ends with the socket name; for a relative name it is the runtime directory followed by the socket name, with a separator between them exactly when the directory is non-empty and does not end in one |
| CoreIpcClient.SocketNameIsPlain | crates/coreipc/src/client.rs:24-25 | a socket name built from a name without separators has none |
| CoreIpcClient.ClientSocketFileName | crates/coreipc/src/client.rs:20-27 | the socket's file name is exactly the socket name, and its parent is the runtime directory, ending in a separator unless it is empty |
| CoreIpcClient.ConnectedClient.constructor | crates/coreipc/src/client.rs:38-45 | nothing has been sent yet |
| CoreIpcClient.ConnectedClient.Send | crates/coreipc/src/client.rs:54-58 | succeeds exactly when the stream takes every byte, which are then sent verbatim; on failure only the bytes taken went out |
| Repl.TrimStart | ls-client/src/main.rs:38 | drops exactly the leading white space: a suffix whose dropped part is all white space and whose first character is not |
| Repl.TrimEnd | ls-client/src/main.rs:38 | drops exactly the trailing white space |
| Repl.Trim | ls-client/src/main.rs:38 | the trimmed line is empty or starts and ends with a non-white-space character |
| Repl.TrimStartSkipsWhiteSpace | ls-client/src/main.rs:38 | leading white space does not change the trimmed start |
| Repl.TrimEndSkipsWhiteSpace | ls-client/src/main.rs:38 | trailing white space does not change the trimmed end |
| Repl.TrimOfTrimmed | ls-client/src/main.rs:38 | a line without outer white space is its own trim |
| Repl.TrimPadded | ls-client/src/main.rs:38 | padding a trimmed string with white space on both sides trims back to it |
| Repl.AllWhiteSpaceTrimsToEmpty | ls-client/src/main.rs:38 | a blank line trims to the empty string |
| Repl.Classify | ls-client/src/main.rs:38-51 | the trimmed line selects `up`, `down`, `upgrade` or `quit` exactly when it is that word; a login carries the trimmed line from byte 5 on, after "name" |
| Repl.ClassifyTrimmed | ls-client/src/main.rs:38-51 | exactly "up", "down", "upgrade" and "quit" select their commands; a line starting with "name" logs in with the part after byte 5, or panics when it is shorter than 5 bytes or byte 5 falls inside a character; every other line prints help |
| Repl.LoginCommand | ls-client/src/main.rs:42-45 | "name " followed by a name logs in with that name |
| Repl.LoginLine | ls-client/src/main.rs:38-45 | a padded "name <name>" line logs in with exactly the name |
| Repl.BareNamePanics | ls-client/src/main.rs:42-43 | "name" alone (with any trailing white space) panics on the slice |
| Repl.ReportOf | ls-client/src/main.rs:53-57 | `Ok(0)` is success, `Ok(n)` with n other than 0 is daemon error n, `Err` is a communication failure |

## Left out

- Transport and I/O are not modelled. This covers QUIC, TLS, Unix sockets, D-Bus registration, SQLite, TUN device creation and reads, and the one-second sleep of the polling task. Each is a parameter giving its outcome, or is left out.
- Concurrency is modelled sequentially. This covers `RwLock`, `Mutex`, mpsc channels and `tokio::spawn`. Channels become input and output sequences. The relay flag shared by the D-Bus task and the polling task is the sequence of values the polling task observes.
- The bincode/serde byte layout is not modelled. The codec is an abstract, possibly failing, encode output and decode function.
- Access.Db: the users table is a sequence of rows in insertion order, not a map. `query_row` without ORDER BY may return any matching row; `FindByToken` promises only that, and its body picks the first in insertion order as one admissible choice. The uniqueness constraint covers usernames only, because the schema is not part of this model. The `users` table is assumed to exist: `Connection::open_in_memory()` in relay-server/src/db.rs creates no schema, so against that `Db` the insert at relay-server/src/access.rs:20 fails on every login, which is the `engineFault` outcome of the model.
- Access.LoginOn: an engine failure stands for every other SQL error, from `prepare` or from the insert. The `rows_changed != 1` warning cannot arise, because a successful insert adds exactly one row.
- `upgrade_conn` in relay-server/src/access.rs, `Db::query`, `handle_client` and `get_cb` are `todo!()` stubs and are not modelled.
- RelayMain.HandleStream: the `db_conn.query("select 1 + 1")` call is treated as doing nothing. The `Db` shown in relay-server/src/db.rs has no `get_db` and its `query` is a stub, so the relay binary was written against a `Db` that is not part of this model.
- RelayMain.HandleStream: requires at least one random draw per 4 input bytes. This only guarantees that enough random addresses are supplied. It does not restrict which requests are handled.
- RelayMain.HandleStream: the loop ends at the end of the given input, where the source's next `read_u32().unwrap()` panics. The panic itself is not modelled; `StopPos` gives how far the loop reads.
- Packet.ParseHeader: a minimal IPv4 header parser that checks what section 3.1 of RFC 791 fixes:
  - version 4;
  - a header length of at least 5 words, within the slice;
  - a total length no shorter than the header.
  
  It replaces `etherparse::Ipv4Header::from_slice`; checks that crate may do beyond these are not modelled.
- Packet.ParsePkt: a failed write to the target stream is only logged, so each write appears as issued whatever its outcome.
- Packet.ParsePkt: `while let Ok(amount)` ends only on a read error. At end of stream it keeps reading empty chunks, which fail to parse and are dropped.
- Controller.TunControllerInner.Tester: device reads are assumed to return at most the MTU (1500) bytes the buffer holds.
- Controller.TunControllerInner.Tester: the task is modelled over a finite run of polls. In the source it never ends.
- Tun and ArchiveTun: channel closure is the end of the event sequence.
- DaemonMain.HandleStream: lossy UTF-8 decoding of the path is not modelled; only the path's byte count matters. `UnixStream::connect` and `tun::create` are outcomes carried with the connection. The device dropped at the end of `handle_stream` is not modelled.
- Paths.Join: models `PathBuf::join` on strings. Only the absolute-name replacement and the separator rule are kept; `.`/`..` and repeated separators are not.
- CoreIpc.IpcServer.CreateServer: always succeeds. Failures of `create_runtime_dir`, `bind`, `set_nonblocking` and `set_permissions` are not modelled, and neither is the 0o777 mode.
- CoreIpcServer.Ipc.CreateServer: always succeeds. A failing `bind` is not modelled.
- Deleting the socket file when `IpcServer` is dropped (`destroy_server`) is not modelled.
- CoreIpcServer.Ipc.Run: the random id is a parameter. The spawned `handle_client` is a stub and is left out.
- Repl: only the classification of a line and the mapping of the daemon's answer are modelled. The loop around them reads stdin and prints, and is I/O. A read error is only logged: with invalid UTF-8 the line stays empty and shows help, while after an I/O error mid-line the bytes already read are classified. At end of input `read_line` returns `Ok(0)` with an empty line, so the loop shows help forever.
- Wire.Deserialise: `deserialise` does not invert `serialise`, because it hands the codec `data[4..len]` (see Findings). The 16 KiB bound lives only in the codec.

## Findings

| source | as written | input that shows it | evidently intended | confidence | as-written member | corrected member |
|---|---|---|---|---|---|---|
| relay-server/src/wire.rs:37 | the codec is handed `data[4..len]`, measured from the start of the buffer | the frame of a 5-byte payload: the codec receives only its first byte; a payload under 4 bytes panics on the slice | hand the codec `data[4..4 + len]`, and report a short buffer as an error | not executed | Wire.DeserialiseLosesPayload | Wire.DeserialiseFramedRoundTrip |
| crates/coreipc/src/lib.rs:62 | the length prefix is `pkt.len() as u16` | a packet of 65536 bytes is announced with length 0 | refuse (or split) packets of 65536 bytes or more so the prefix is exact | not executed | CoreIpc.OversizeBroadcastMisframed | CoreIpc.CheckedFrameRoundTrip |
