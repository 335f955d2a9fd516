/**
 * Session registry of the relay (relay-server/src/access.rs): address
 * allocation, token generation and the `login` insert into the users table.
 * The random draws are parameters constrained to the ranges the source draws
 * them from.
 */
module Access {
  import opened Base
  import opened Bytes
  import opened Net
  import opened RelayError

  /** A value of `rng.gen_range(0..16)`. */
  type Nibble = n: int | 0 <= n < 16

  /** `login` issues tokens of `gen_token::<16>()`. */
  const TOKEN_LEN: nat := 16

  /** First octet of every allocated address. */
  const FIRST_OCTET: Byte := 25

  /**
   * `new_ip`: 25 in the top byte, the three random octets below it. The
   * source ORs the shifted fields; they do not overlap, so the OR is their sum.
   */
  function NewIp(second: Byte, third: Byte, fourth: Byte): (r: U32)
    ensures r / 0x100_0000 == FIRST_OCTET
  {
    (FIRST_OCTET as int) * 0x100_0000 + (second as int) * 0x1_0000 + (third as int) * 0x100 + fourth
  }

  /** `new_ip() >> 24 == 25`, and the result lies in 25.0.0.0 to 25.255.255.255. */
  lemma NewIpRange(second: Byte, third: Byte, fourth: Byte)
    ensures NewIp(second, third, fourth) / 0x100_0000 == 25
    ensures 0x1900_0000 <= NewIp(second, third, fourth) <= 0x19FF_FFFF
  {
  }

  /** Read as an address, the result is 25.second.third.fourth. */
  lemma NewIpOctets(second: Byte, third: Byte, fourth: Byte)
    ensures FromBits(NewIp(second, third, fourth)) == Ipv4Addr(FIRST_OCTET, second, third, fourth)
  {
    var s := [FIRST_OCTET, second, third, fourth];
    FromBeU32RoundTrip(s);
    assert FromBeU32(s) == NewIp(second, third, fourth);
    assert Octets(FromBits(NewIp(second, third, fourth))) == s;
  }

  /** Written big-endian, the result is the four octets 25, second, third, fourth. */
  lemma NewIpBytes(second: Byte, third: Byte, fourth: Byte)
    ensures BeU32(NewIp(second, third, fourth)) == [FIRST_OCTET, second, third, fourth]
  {
    var s := [FIRST_OCTET, second, third, fourth];
    FromBeU32RoundTrip(s);
    assert FromBeU32(s) == NewIp(second, third, fourth);
  }

  /** Every allocated address lies in the network 25.0.0.0/255.0.0.0 that `login` reports. */
  lemma NewIpInNetwork(second: Byte, third: Byte, fourth: Byte)
    ensures ApplyNetmask8(FromBits(NewIp(second, third, fourth))) == Ipv4Addr(FIRST_OCTET, 0, 0, 0)
  {
    NewIpOctets(second, third, fourth);
  }

  predicate IsLowerHex(c: char)
  {
    '0' <= c <= '9' || 'a' <= c <= 'f'
  }

  /** `format!("{:x}", v)` for a value below 16: one lowercase digit. */
  function HexDigit(v: Nibble): (c: char)
    ensures IsLowerHex(c)
  {
    if v < 10 then '0' + v as char else 'a' + (v - 10) as char
  }

  function HexValue(c: char): (v: Nibble)
    requires IsLowerHex(c)
  {
    if c <= '9' then (c - '0') as int else (c - 'a') as int + 10
  }

  lemma HexDigitValue(v: Nibble)
    ensures HexValue(HexDigit(v)) == v
  {
  }

  lemma HexValueDigit(c: char)
    requires IsLowerHex(c)
    ensures HexDigit(HexValue(c)) == c
  {
  }

  predicate IsToken(t: string)
  {
    forall i :: 0 <= i < |t| ==> IsLowerHex(t[i])
  }

  /** The token spelled by a sequence of draws, one digit per draw. */
  function HexString(draws: seq<Nibble>): (t: string)
    ensures |t| == |draws|
    ensures forall i :: 0 <= i < |draws| ==> t[i] == HexDigit(draws[i])
  {
    seq(|draws|, i requires 0 <= i < |draws| => HexDigit(draws[i]))
  }

  /** Reading the digits of a token back gives the draws it was made from. */
  lemma HexStringDecodes(draws: seq<Nibble>)
    ensures IsToken(HexString(draws))
    ensures forall i :: 0 <= i < |draws| ==> HexValue(HexString(draws)[i]) == draws[i]
  {
    forall i | 0 <= i < |draws|
      ensures HexValue(HexString(draws)[i]) == draws[i]
    {
      HexDigitValue(draws[i]);
    }
  }

  /** `gen_token::<N>()`: N draws, each pushed as one lowercase hex digit. */
  method GenToken(n: nat, draws: seq<Nibble>) returns (token: string)
    requires |draws| == n
    ensures |token| == n
    ensures IsToken(token)
    ensures token == HexString(draws)
  {
    token := "";
    for i := 0 to n
      invariant |token| == i
      invariant forall k :: 0 <= k < i ==> token[k] == HexDigit(draws[k])
    {
      token := token + [HexDigit(draws[i])];
    }
  }

  /** A row of the users table. */
  datatype UserRow = UserRow(username: string, ip: U32, token: string)

  /** relay-server/src/action/response.rs `LoginResp`. */
  datatype LoginResp = LoginResp(token: string, address: Ipv4Addr, netmask: Ipv4Addr)

  /** The uniqueness constraint of the users table: no two rows share a username. */
  ghost predicate UniqueUsernames(users: seq<UserRow>)
  {
    forall i, j :: 0 <= i < j < |users| ==> users[i].username != users[j].username
  }

  predicate HasUser(users: seq<UserRow>, username: string)
  {
    exists i :: 0 <= i < |users| && users[i].username == username
  }

  /** The result of one `login` and the table after it. */
  datatype LoginStep = LoginStep(resp: Result<LoginResp, Error>, users: seq<UserRow>)

  /**
   * `login` on a given table: an engine failure (of `prepare` or of the
   * insert) propagates as `SqliteError`; a uniqueness violation becomes
   * `UserAlreadyExists`; otherwise the row is appended and the response
   * carries its token and address with netmask 255.0.0.0.
   */
  function LoginOn(users: seq<UserRow>, username: string, ip: U32, token: string, engineFault: bool): (r: LoginStep)
    ensures UniqueUsernames(users) ==> UniqueUsernames(r.users)
    ensures r.resp.Err? <==> r.users == users
    ensures engineFault ==> r.resp == Err(SqliteError(EngineFailure))
    ensures !engineFault && HasUser(users, username) ==> r.resp == Err(UserAlreadyExists)
    ensures r.resp.Ok? <==> !engineFault && !HasUser(users, username)
    ensures r.resp.Ok? ==>
      && r.users == users + [UserRow(username, ip, token)]
      && r.resp.value == LoginResp(token, FromBits(ip), NETMASK_8)
  {
    if engineFault then LoginStep(Err(SqliteError(EngineFailure)), users)
    else if HasUser(users, username) then LoginStep(Err(UserAlreadyExists), users)
    else LoginStep(Ok(LoginResp(token, FromBits(ip), NETMASK_8)), users + [UserRow(username, ip, token)])
  }

  /** A second login with a name that just logged in fails with `UserAlreadyExists`. */
  lemma SecondLoginFails(users: seq<UserRow>, username: string, ip1: U32, token1: string, ip2: U32, token2: string)
    requires LoginOn(users, username, ip1, token1, false).resp.Ok?
    ensures var after := LoginOn(users, username, ip1, token1, false).users;
      LoginOn(after, username, ip2, token2, false) == LoginStep(Err(UserAlreadyExists), after)
  {
    var after := LoginOn(users, username, ip1, token1, false).users;
    assert after[|users|].username == username;
  }

  /** The in-memory users table behind `Db`. */
  class Db {
    var users: seq<UserRow>

    ghost predicate Valid()
      reads this
    {
      UniqueUsernames(users)
    }

    /** `Db::try_new` opens an empty in-memory database. */
    constructor ()
      ensures Valid() && users == []
    {
      users := [];
    }

    /** `login`: draw the address and the token, then insert the row. */
    method Login(username: string, second: Byte, third: Byte, fourth: Byte,
                 tokenDraws: seq<Nibble>, engineFault: bool) returns (r: Result<LoginResp, Error>)
      requires Valid()
      requires |tokenDraws| == TOKEN_LEN
      modifies this
      ensures Valid()
      ensures var step := LoginOn(old(users), username, NewIp(second, third, fourth), HexString(tokenDraws), engineFault);
        r == step.resp && users == step.users
      ensures r.Ok? ==> |r.value.token| == TOKEN_LEN && IsToken(r.value.token)
    {
      var ip := NewIp(second, third, fourth);
      var token := GenToken(TOKEN_LEN, tokenDraws);
      var step := LoginOn(users, username, ip, token, engineFault);
      users := step.users;
      r := step.resp;
    }
  }
}
