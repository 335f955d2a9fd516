/**
 * The command-line client's read-eval loop (ls-client/src/main.rs): each
 * input line is trimmed and classified into a daemon call, "quit", or the
 * help text; each call's reply is reported as success, a daemon error code
 * or a communication failure. Reading the line and the D-Bus calls are I/O.
 */
module Repl {
  /** Rust's `char::is_whitespace`: the Unicode White_Space property. */
  predicate IsWhiteSpace(c: char)
  {
    var u := c as int;
    (0x09 <= u <= 0x0D) || u == 0x20 || u == 0x85 || u == 0xA0 || u == 0x1680
    || (0x2000 <= u <= 0x200A) || u == 0x2028 || u == 0x2029 || u == 0x202F || u == 0x205F
    || u == 0x3000
  }

  predicate AllWhiteSpace(s: string)
  {
    forall i :: 0 <= i < |s| ==> IsWhiteSpace(s[i])
  }

  /** `trim_start`: drop the leading white space. */
  function TrimStart(s: string): (t: string)
    ensures |t| <= |s| && t == s[|s| - |t|..]
    ensures AllWhiteSpace(s[..|s| - |t|])
    ensures t == [] || !IsWhiteSpace(t[0])
    decreases |s|
  {
    if s != [] && IsWhiteSpace(s[0]) then
      var t := TrimStart(s[1..]);
      assert s[..|s| - |t|] == [s[0]] + s[1..][..|s| - 1 - |t|];
      t
    else s
  }

  /** `trim_end`: drop the trailing white space. */
  function TrimEnd(s: string): (t: string)
    ensures |t| <= |s| && t == s[..|t|]
    ensures AllWhiteSpace(s[|t|..])
    ensures t == [] || !IsWhiteSpace(t[|t| - 1])
    decreases |s|
  {
    if s != [] && IsWhiteSpace(s[|s| - 1]) then
      var t := TrimEnd(s[..|s| - 1]);
      assert s[|t|..] == s[..|s| - 1][|t|..] + [s[|s| - 1]];
      t
    else s
  }

  /** `trim`: the line without its leading and trailing white space. */
  function Trim(s: string): (t: string)
    ensures t == [] || (!IsWhiteSpace(t[0]) && !IsWhiteSpace(t[|t| - 1]))
  {
    TrimEnd(TrimStart(s))
  }

  /** Leading white space does not change `trim_start`. */
  lemma {:induction false} TrimStartSkipsWhiteSpace(ws: string, s: string)
    requires AllWhiteSpace(ws)
    ensures TrimStart(ws + s) == TrimStart(s)
    decreases |ws|
  {
    if ws != [] {
      assert (ws + s)[1..] == ws[1..] + s;
      TrimStartSkipsWhiteSpace(ws[1..], s);
    } else {
      assert ws + s == s;
    }
  }

  /** Trailing white space does not change `trim_end`. */
  lemma {:induction false} TrimEndSkipsWhiteSpace(s: string, ws: string)
    requires AllWhiteSpace(ws)
    ensures TrimEnd(s + ws) == TrimEnd(s)
    decreases |ws|
  {
    if ws != [] {
      assert (s + ws)[..|s + ws| - 1] == s + ws[..|ws| - 1];
      TrimEndSkipsWhiteSpace(s, ws[..|ws| - 1]);
    } else {
      assert s + ws == s;
    }
  }

  /** A string with no white space at either end is its own trim. */
  lemma TrimOfTrimmed(s: string)
    requires s == [] || (!IsWhiteSpace(s[0]) && !IsWhiteSpace(s[|s| - 1]))
    ensures Trim(s) == s
  {
  }

  /** Trimming removes exactly the surrounding white space: padding a trimmed command does not change it. */
  lemma TrimPadded(before: string, s: string, after: string)
    requires AllWhiteSpace(before) && AllWhiteSpace(after)
    requires s == [] || (!IsWhiteSpace(s[0]) && !IsWhiteSpace(s[|s| - 1]))
    ensures Trim(before + s + after) == s
  {
    if s == [] {
      assert before + s + after == before + after;
      assert AllWhiteSpace(before + after);
      AllWhiteSpaceTrimsToEmpty(before + after);
    } else {
      var line := before + s + after;
      assert line == before + (s + after);
      assert (s + after)[0] == s[0];
      assert TrimStart(s + after) == s + after;
      TrimStartSkipsWhiteSpace(before, s + after);
      assert TrimStart(line) == s + after;
      TrimEndSkipsWhiteSpace(s, after);
      assert TrimEnd(s) == s;
      assert Trim(line) == TrimEnd(s + after);
    }
  }

  lemma AllWhiteSpaceTrimsToEmpty(s: string)
    requires AllWhiteSpace(s)
    ensures Trim(s) == []
  {
  }

  datatype Command = IntUp | IntDown | Upgrade | Login(name: string) | Quit | Help | SlicePanic

  /** "name" followed by the rest of the line. */
  predicate StartsWithName(t: string)
  {
    |t| >= 4 && t[0] == 'n' && t[1] == 'a' && t[2] == 'm' && t[3] == 'e'
  }

  /**
   * The `match` on the trimmed line. The login arm slices from byte 5, which
   * panics when the line is shorter than 5 bytes or when the character after
   * "name" takes more than one byte.
   */
  function ClassifyTrimmed(t: string): (c: Command)
    ensures c == IntUp <==> t == "up"
    ensures c == IntDown <==> t == "down"
    ensures c == Upgrade <==> t == "upgrade"
    ensures c.Login? <==> StartsWithName(t) && |t| >= 5 && t[4] as int < 0x80
    ensures c.Login? ==> t == "name" + [t[4]] + c.name
    ensures c == SlicePanic <==> StartsWithName(t) && (|t| < 5 || t[4] as int >= 0x80)
    ensures c == Quit <==> t == "quit"
    ensures c == Help <==> t != "up" && t != "down" && t != "upgrade" && t != "quit" && !StartsWithName(t)
  {
    if t == "up" then IntUp
    else if t == "down" then IntDown
    else if t == "upgrade" then Upgrade
    else if StartsWithName(t) then
      if |t| < 5 || t[4] as int >= 0x80 then SlicePanic
      else
        assert t[..4] == "name";
        assert t == t[..4] + [t[4]] + t[5..];
        Login(t[5..])
    else if t == "quit" then Quit
    else Help
  }

  /** A line is classified by its trimmed text. */
  function Classify(line: string): (c: Command)
    ensures c == IntUp <==> Trim(line) == "up"
    ensures c == IntDown <==> Trim(line) == "down"
    ensures c == Upgrade <==> Trim(line) == "upgrade"
    ensures c == Quit <==> Trim(line) == "quit"
    ensures c.Login? ==> StartsWithName(Trim(line)) && |Trim(line)| >= 5 && Trim(line)[5..] == c.name
  {
    ClassifyTrimmed(Trim(line))
  }

  /** "name", a space, then a name: a login with exactly that name. */
  lemma LoginCommand(name: string)
    ensures ClassifyTrimmed("name " + name) == Login(name)
  {
    var s := "name " + name;
    assert s[0] == 'n' && s[1] == 'a' && s[2] == 'm' && s[3] == 'e' && s[4] == ' ';
    assert s[5..] == name;
  }

  /** The usual login line, however padded, logs in with exactly the name typed. */
  lemma LoginLine(before: string, name: string, after: string)
    requires AllWhiteSpace(before) && AllWhiteSpace(after)
    requires name != [] && !IsWhiteSpace(name[0]) && !IsWhiteSpace(name[|name| - 1])
    ensures Classify(before + "name " + name + after) == Login(name)
  {
    var s := "name " + name;
    assert s[0] == 'n' && s[|s| - 1] == name[|name| - 1];
    var line := before + "name " + name + after;
    assert line == before + s + after;
    TrimPadded(before, s, after);
    assert Trim(line) == s;
    LoginCommand(name);
  }

  /** A bare "name" (or "name" followed only by white space) reaches the slice and panics. */
  lemma BareNamePanics(after: string)
    requires AllWhiteSpace(after)
    ensures Classify("name" + after) == SlicePanic
  {
    TrimPadded([], "name", after);
    assert [] + "name" + after == "name" + after;
  }

  /** A D-Bus call's reply: a status code, or a failure to reach the daemon. */
  datatype Reply = Returned(code: nat) | CallFailed

  datatype Report = Success | DaemonError(code: nat) | CommunicationFailure

  /** The `match res`: code 0 is success, any other code is a daemon error carrying it. */
  function ReportOf(reply: Reply): (r: Report)
    ensures r == Success <==> reply == Returned(0)
    ensures r.DaemonError? <==> reply.Returned? && reply.code != 0
    ensures r.DaemonError? ==> r.code == reply.code
    ensures r == CommunicationFailure <==> reply.CallFailed?
  {
    match reply
    case Returned(0) => Success
    case Returned(code) => DaemonError(code)
    case CallFailed => CommunicationFailure
  }
}
