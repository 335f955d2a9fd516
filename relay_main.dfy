/**
 * The relay binary's stream loop (relay-server/src/main.rs): requests are a
 * big-endian u32 length followed by that many bytes; a decoded `Login` is
 * answered with the big-endian bits of a fresh address from `ip()`, which is
 * the same computation as `Access.NewIp`. The inbound stream is the bytes it
 * delivers before it ends; the payload decoder is a parameter.
 */
module RelayMain {
  import opened Base
  import opened Bytes
  import opened Access

  /** The request a payload decodes to. */
  datatype Action = Login(name: string) | UpgradeConn(token: string)

  /** The three random octets one `ip()` call draws. */
  datatype IpDraw = IpDraw(second: Byte, third: Byte, fourth: Byte)

  function Ip(d: IpDraw): U32
  {
    NewIp(d.second, d.third, d.fourth)
  }

  /** The 4 bytes `write_u32(ip)` puts on the stream for one draw: `ip()` in big-endian order. */
  function Reply(d: IpDraw): seq<Byte>
  {
    [FIRST_OCTET, d.second, d.third, d.fourth]
  }

  lemma ReplyIsAddressBits(d: IpDraw)
    ensures Reply(d) == BeU32(Ip(d))
  {
    NewIpBytes(d.second, d.third, d.fourth);
  }

  /**
   * The bytes written back for the requests in `input`. When fewer than 4
   * bytes are left `read_u32().unwrap()` panics and the task ends; when the
   * payload is cut short `read_exact` fails, nothing is written, and the next
   * `read_u32` panics at the end of the stream. Every `Login` consumes the
   * next draw; every other payload only warns.
   */
  function Replies(input: seq<Byte>, decode: seq<Byte> -> Option<Action>, draws: seq<IpDraw>): (out: seq<Byte>)
    requires 4 * |draws| >= |input|
    ensures |out| <= 4 * |draws|
    decreases |input|
  {
    if |input| < 4 then []
    else
      var len := FromBeU32(input[..4]);
      if |input| - 4 < len then []
      else
        var rest := input[4 + len..];
        match decode(input[4..4 + len])
        case Some(Login(_)) => Reply(draws[0]) + Replies(rest, decode, draws[1..])
        case _ => Replies(rest, decode, draws)
  }

  /** Where the loop stops reading: after the last request whose length and payload arrived in full. */
  function StopPos(input: seq<Byte>): (p: nat)
    ensures p <= |input|
    decreases |input|
  {
    if |input| < 4 then 0
    else
      var len := FromBeU32(input[..4]);
      if |input| - 4 < len then 0
      else 4 + len + StopPos(input[4 + len..])
  }

  /** The bytes past the stop position add no reply: the answer depends only on what was read. */
  lemma {:induction false} RepliesUpToStop(input: seq<Byte>, decode: seq<Byte> -> Option<Action>, draws: seq<IpDraw>)
    requires 4 * |draws| >= |input|
    ensures Replies(input[..StopPos(input)], decode, draws) == Replies(input, decode, draws)
    decreases |input|
  {
    var p := StopPos(input);
    if |input| < 4 {
    } else {
      var len: nat := FromBeU32(input[..4]);
      if |input| - 4 < len {
      } else {
        var rest := input[4 + len..];
        var read := input[..p];
        assert read[..4] == input[..4];
        assert read[4..4 + len] == input[4..4 + len];
        assert read[4 + len..] == rest[..StopPos(rest)];
        var tail := rest[..StopPos(rest)];
        if IsLogin(decode(input[4..4 + len])) {
          RepliesUpToStop(rest, decode, draws[1..]);
          assert Replies(read, decode, draws) == Reply(draws[0]) + Replies(tail, decode, draws[1..]);
          assert Replies(input, decode, draws) == Reply(draws[0]) + Replies(rest, decode, draws[1..]);
        } else {
          RepliesUpToStop(rest, decode, draws);
          assert Replies(read, decode, draws) == Replies(tail, decode, draws);
          assert Replies(input, decode, draws) == Replies(rest, decode, draws);
        }
      }
    }
  }

  /** At the stop position fewer than 4 bytes are left, or fewer than the length announced. */
  lemma {:induction false} StopPosStops(input: seq<Byte>)
    ensures var p := StopPos(input);
      |input| - p < 4 || |input| - p - 4 < FromBeU32(input[p..p + 4])
    decreases |input|
  {
    if |input| >= 4 {
      var len: nat := FromBeU32(input[..4]);
      if |input| - 4 >= len {
        var rest := input[4 + len..];
        StopPosStops(rest);
        var q: nat := StopPos(rest);
        if |rest| - q >= 4 {
          assert rest[q..q + 4] == input[4 + len + q..4 + len + q + 4];
        }
      }
    }
  }

  /** A run of 4-byte replies, each starting with the octet 25. */
  ghost predicate AddressReplies(out: seq<Byte>)
  {
    |out| % 4 == 0 && forall j :: 0 <= j < |out| && j % 4 == 0 ==> out[j] == FIRST_OCTET
  }

  lemma PrependReply(d: IpDraw, tail: seq<Byte>)
    requires AddressReplies(tail)
    ensures AddressReplies(Reply(d) + tail)
  {
    var out := Reply(d) + tail;
    forall j | 0 <= j < |out| && j % 4 == 0
      ensures out[j] == FIRST_OCTET
    {
      if j >= 4 {
        assert out[j] == tail[j - 4];
        assert (j - 4) % 4 == 0;
      }
    }
  }

  /** Every reply is exactly 4 bytes, and the first of them is 25. */
  lemma {:induction false} RepliesAreAddresses(input: seq<Byte>, decode: seq<Byte> -> Option<Action>, draws: seq<IpDraw>)
    requires 4 * |draws| >= |input|
    ensures AddressReplies(Replies(input, decode, draws))
    decreases |input|
  {
    if |input| >= 4 {
      var len := FromBeU32(input[..4]);
      if |input| - 4 >= len {
        var rest := input[4 + len..];
        match decode(input[4..4 + len])
        case Some(Login(_)) =>
          RepliesAreAddresses(rest, decode, draws[1..]);
          PrependReply(draws[0], Replies(rest, decode, draws[1..]));
        case _ =>
          RepliesAreAddresses(rest, decode, draws);
      }
    }
  }

  predicate IsLogin(a: Option<Action>)
  {
    a.Some? && a.value.Login?
  }

  /** A lone, complete `Login` request is answered with the reply for the first draw, and nothing more. */
  lemma LoneLogin(payload: seq<Byte>, decode: seq<Byte> -> Option<Action>, draws: seq<IpDraw>)
    requires |payload| < 0x1_0000_0000 - 4 && 4 * |draws| >= |payload| + 4
    requires IsLogin(decode(payload))
    ensures Replies(BeU32(|payload|) + payload, decode, draws) == Reply(draws[0])
  {
    var input := BeU32(|payload|) + payload;
    BeU32RoundTrip(|payload|);
    assert input[..4] == BeU32(|payload|);
    assert input[4..4 + |payload|] == payload;
    assert input[4 + |payload|..] == [];
  }

  /** A single `Login` request is answered with exactly the 4 big-endian bytes of `ip()`. */
  lemma LoginAnswered(payload: seq<Byte>, decode: seq<Byte> -> Option<Action>, name: string, d: IpDraw)
    requires |payload| < 0x1_0000_0000 - 4
    requires decode(payload) == Some(Login(name))
    ensures Replies(BeU32(|payload|) + payload, decode, seq(|payload| + 4, _ => d)) == BeU32(Ip(d))
  {
    LoneLogin(payload, decode, seq(|payload| + 4, _ => d));
    ReplyIsAddressBits(d);
  }

  /** One complete request at `pos`: its reply, and the replies to what follows. */
  lemma RepliesStep(input: seq<Byte>, pos: nat, len: nat, decode: seq<Byte> -> Option<Action>, draws: seq<IpDraw>, k: nat)
    requires pos + 4 <= |input| && len == FromBeU32(input[pos..pos + 4]) && pos + 4 + len <= |input|
    requires k <= |draws| && 4 * (|draws| - k) >= |input| - pos
    ensures IsLogin(decode(input[pos + 4..pos + 4 + len])) ==>
      (k < |draws| &&
       Replies(input[pos..], decode, draws[k..]) == Reply(draws[k]) + Replies(input[pos + 4 + len..], decode, draws[k + 1..]))
    ensures !IsLogin(decode(input[pos + 4..pos + 4 + len])) ==>
      Replies(input[pos..], decode, draws[k..]) == Replies(input[pos + 4 + len..], decode, draws[k..])
  {
    var rest := input[pos..];
    assert rest[..4] == input[pos..pos + 4];
    assert rest[4..4 + len] == input[pos + 4..pos + 4 + len];
    assert rest[4 + len..] == input[pos + 4 + len..];
    if k < |draws| {
      assert draws[k..][1..] == draws[k + 1..];
    }
  }

  /** One request read in full at `pos`: decode it and, for a `Login`, answer with the next address. */
  method Respond(input: seq<Byte>, pos: nat, len: nat, decode: seq<Byte> -> Option<Action>, draws: seq<IpDraw>, k: nat)
    returns (reply: seq<Byte>, k': nat)
    requires pos + 4 <= |input| && len == FromBeU32(input[pos..pos + 4]) && pos + 4 + len <= |input|
    requires k <= |draws| && 4 * (|draws| - k) >= |input| - pos
    ensures k <= k' <= |draws| && 4 * (|draws| - k') >= |input| - (pos + 4 + len)
    ensures Replies(input[pos..], decode, draws[k..]) == reply + Replies(input[pos + 4 + len..], decode, draws[k'..])
  {
    RepliesStep(input, pos, len, decode, draws, k);
    var payload := input[pos + 4..pos + 4 + len];
    match decode(payload) {
      case Some(Login(_)) =>
        reply, k' := BeU32(Ip(draws[k])), k + 1;
        ReplyIsAddressBits(draws[k]);
      case _ =>
        reply, k' := [], k;
    }
  }

  /**
   * `handle_stream`: the endless loop over requests, up to the end of the
   * stream, where the final `read_u32` panics.
   */
  method HandleStream(input: seq<Byte>, decode: seq<Byte> -> Option<Action>, draws: seq<IpDraw>)
    returns (output: seq<Byte>)
    requires 4 * |draws| >= |input|
    ensures output == Replies(input, decode, draws)
  {
    output := [];
    var pos: nat, k: nat := 0, 0;
    assert input[pos..] == input && draws[k..] == draws;
    while true
      invariant 0 <= pos <= |input| && 0 <= k <= |draws|
      invariant 4 * (|draws| - k) >= |input| - pos
      invariant output + Replies(input[pos..], decode, draws[k..]) == Replies(input, decode, draws)
      decreases |input| - pos
    {
      if |input| - pos < 4 {
        break;
      }
      var len: nat := FromBeU32(input[pos..pos + 4]);
      if |input| - pos - 4 < len {
        break;
      }
      var reply, k' := Respond(input, pos, len, decode, draws, k);
      var pos': nat := pos + 4 + len;
      Regroup(output, reply, Replies(input[pos'..], decode, draws[k'..]), Replies(input, decode, draws));
      output, pos, k := output + reply, pos', k';
    }
  }
}
