/**
 * The archived `ServerHandler::upgrade`
 * (archive/relay-server/src/action/handler.rs): it looks up the token's
 * stored address bits and returns them as an `Ipv4Addr` together with the
 * newly opened stream.
 */
module ArchiveHandler {
  import opened Base
  import opened Bytes
  import opened Net
  import opened RelayError
  import opened Access
  import opened Handler

  function UpgradeWithAddress(users: seq<UserRow>, token: string, open: OpenOutcome): (r: Upgraded<(Ipv4Addr, StreamId)>)
    ensures r.openRequested <==> exists i :: 0 <= i < |users| && users[i].token == token
    ensures !r.openRequested ==> r.result == Err(SqliteError(QueryReturnedNoRows))
    ensures r.openRequested && open.OpenFailed? ==> r.result == Err(QuicError(StreamOpenFailed))
    ensures r.result.Ok? <==> r.openRequested && open.Opened?
    ensures r.result.Ok? ==>
      && r.result.value.1 == open.stream
      && exists i :: 0 <= i < |users| && users[i].token == token && Octets(r.result.value.0) == BeU32(users[i].ip)
  {
    match FindByToken(users, token)
    case None => Upgraded(Err(SqliteError(QueryReturnedNoRows)), false)
    case Some(row) =>
      match open
      case OpenFailed => Upgraded(Err(QuicError(StreamOpenFailed)), true)
      case Opened(s) => Upgraded(Ok((FromBits(row.ip), s)), true)
  }

  /**
   * Login then upgrade with the issued token (held by no earlier row):
   * the stream comes back tagged 25.second.third.fourth, the address
   * `login` reported.
   */
  lemma LoginThenUpgradeAddress(users: seq<UserRow>, username: string, second: Byte, third: Byte, fourth: Byte,
                                token: string, s: StreamId)
    requires LoginOn(users, username, NewIp(second, third, fourth), token, false).resp.Ok?
    requires forall i :: 0 <= i < |users| ==> users[i].token != token
    ensures var step := LoginOn(users, username, NewIp(second, third, fourth), token, false);
      && UpgradeWithAddress(step.users, token, Opened(s)).result == Ok((Ipv4Addr(FIRST_OCTET, second, third, fourth), s))
      && step.resp.value.address == Ipv4Addr(FIRST_OCTET, second, third, fourth)
  {
    var ip := NewIp(second, third, fourth);
    FindByTokenAppend(users, UserRow(username, ip, token));
    NewIpOctets(second, third, fourth);
  }
}
