/**
 * `ServerHandler::upgrade` (relay-server/src/action/handler.rs): look the
 * token up in the users table, and only then ask the connection for a new
 * bidirectional stream. The connection is represented by the outcome it
 * would give if asked.
 */
module Handler {
  import opened Base
  import opened RelayError
  import opened Access

  /** Identity of a QUIC bidirectional stream. */
  type StreamId = nat

  /** What `open_bidirectional_stream` yields when asked. */
  datatype OpenOutcome = Opened(stream: StreamId) | OpenFailed

  /** The result of `upgrade`, and whether the connection was asked for a stream. */
  datatype Upgraded<T> = Upgraded(result: Result<T, Error>, openRequested: bool)

  /**
   * `query_row(... where token = ?1)`: some row that carries the token. The
   * query has no ORDER BY, so the contract promises any such row; the body
   * picks the first in insertion order, one admissible choice.
   */
  function FindByToken(users: seq<UserRow>, token: string): (r: Option<UserRow>)
    ensures r.None? <==> forall i :: 0 <= i < |users| ==> users[i].token != token
    ensures r.Some? ==> exists i :: 0 <= i < |users| && users[i] == r.value && r.value.token == token
  {
    if users == [] then None
    else if users[0].token == token then Some(users[0])
    else
      var rest := FindByToken(users[1..], token);
      assert forall i :: 1 <= i < |users| ==> users[i] == users[1..][i - 1];
      rest
  }

  /** Appending a row whose token no earlier row has makes that row the one found. */
  lemma FindByTokenAppend(users: seq<UserRow>, row: UserRow)
    requires forall i :: 0 <= i < |users| ==> users[i].token != row.token
    ensures FindByToken(users + [row], row.token) == Some(row)
  {
    if users != [] {
      assert (users + [row])[1..] == users[1..] + [row];
      FindByTokenAppend(users[1..], row);
    }
  }

  /**
   * `upgrade`: an unknown token is the query's error and no stream is
   * requested; a failed open is a `QuicError`; success returns the stream
   * alone (the username found is only logged).
   */
  function Upgrade(users: seq<UserRow>, token: string, open: OpenOutcome): (r: Upgraded<StreamId>)
    ensures r.openRequested <==> exists i :: 0 <= i < |users| && users[i].token == token
    ensures !r.openRequested ==> r.result == Err(SqliteError(QueryReturnedNoRows))
    ensures r.openRequested && open.OpenFailed? ==> r.result == Err(QuicError(StreamOpenFailed))
    ensures r.result.Ok? <==> r.openRequested && open.Opened?
    ensures r.result.Ok? ==> r.result.value == open.stream
  {
    match FindByToken(users, token)
    case None => Upgraded(Err(SqliteError(QueryReturnedNoRows)), false)
    case Some(_) =>
      match open
      case OpenFailed => Upgraded(Err(QuicError(StreamOpenFailed)), true)
      case Opened(s) => Upgraded(Ok(s), true)
  }

  /** A token a successful login just issued upgrades, whether or not an earlier row holds it too. */
  lemma LoginThenUpgrade(users: seq<UserRow>, username: string, ip: Bytes.U32, token: string, s: StreamId)
    requires LoginOn(users, username, ip, token, false).resp.Ok?
    ensures Upgrade(LoginOn(users, username, ip, token, false).users, token, Opened(s)).result == Ok(s)
  {
    var after := LoginOn(users, username, ip, token, false).users;
    assert after[|users|].token == token;
  }
}
